/**
 Array.prototype.splice of doc/swagger/lib/es5-shim.js, on array-like objects
 with holes: the two overlapping block moves, the insertion and the new length.
 */
module Splice {
  import opened Wrappers
  import opened Numbers

  /** An own property, or its absence. */
  function Get<T>(props: map<nat, T>, k: nat): Option<T> {
    if k in props then Some(props[k]) else None
  }

  // ----- what splice is for -----

  function ActualStart(start: Number, len: nat): (s: nat)
    ensures s <= len
    ensures forall i: int | ToInteger(start) == Integer(i) ::
              (0 <= i <= len ==> s == i) && (i < 0 <= len + i ==> s == len + i) && (len < i ==> s == len)
                && (len + i < 0 ==> s == 0)
    ensures start.PosInfinity? ==> s == len
    ensures start.NegInfinity? || start.NaN? ==> s == 0
  {
    match ToInteger(start)
    case MinusInfinity => 0
    case PlusInfinity => len
    case Integer(i) => if i < 0 then (if len + i > 0 then len + i else 0) else if i < len then i else len
  }

  function ActualDeleteCount(deleteCount: Number, len: nat, s: nat): (d: nat)
    requires s <= len
    ensures d <= len - s
    ensures forall i: int | ToInteger(deleteCount) == Integer(i) ::
              (0 <= i <= len - s ==> d == i) && (i < 0 ==> d == 0) && (len - s < i ==> d == len - s)
    ensures deleteCount.PosInfinity? ==> d == len - s
    ensures deleteCount.NegInfinity? || deleteCount.NaN? ==> d == 0
  {
    match ToInteger(deleteCount)
    case MinusInfinity => 0
    case PlusInfinity => len - s
    case Integer(i) => if i < 0 then 0 else if i < len - s then i else len - s
  }

  /** Every own property after replacing d elements from s on, of an object of length len. */
  function SplicedAt<T>(old_: map<nat, T>, len: nat, s: nat, d: nat, items: seq<T>, k: nat): Option<T>
    requires s + d <= len
  {
    if k < s then Get(old_, k)
    else if k < s + |items| then Some(items[k - s])
    else if k < len - d + |items| then Get(old_, k - |items| + d)
    else if k < len then None
    else Get(old_, k)
  }

  ghost predicate Spliced<T>(old_: map<nat, T>, len: nat, s: nat, d: nat, items: seq<T>, new_: map<nat, T>)
    requires s + d <= len
  {
    forall k: nat :: Get(new_, k) == SplicedAt(old_, len, s, d, items, k)
  }

  /** The properties from lo up to hi replaced by those a distance further on. */
  function Window<T>(props: map<nat, T>, lo: nat, hi: int, distance: int, k: nat): Option<T>
    requires 0 <= lo + distance
  {
    if lo <= k < hi then Get(props, k + distance) else Get(props, k)
  }

  /** After the block move, before the insertion. */
  function MovedAt<T>(old_: map<nat, T>, len: nat, s: nat, d: nat, c: nat, k: nat): Option<T>
    requires s + d <= len
  {
    if len - d + c <= k < len then None else Window(old_, s + c, len - d + c, d - c, k)
  }

  // ----- the objects -----

  /** The numbers that are indices of arrays; greater ones are mere property names. */
  predicate IsIndex(k: nat) {
    k < 0xFFFF_FFFF
  }

  /** An array, or another object with a length, which it does not maintain. */
  class ArrayLike<T> {
    var props: map<nat, T>
    var length: int
    const isArray: bool

    /** An array has no own index at or beyond its length. */
    ghost predicate Valid()
      reads this
    {
      isArray ==> 0 <= length < 0x1_0000_0000 && forall k | k in props && IsIndex(k) :: k < length
    }

    /** Storing elements has made an array longer, if one was stored past its end. */
    twostate predicate Grown()
      reads this
    {
      length == old(length) || (isArray && 0 <= old(length) < length && Get(props, length - 1).Some?)
    }

    constructor Empty()
      ensures Valid() && isArray && length == 0 && props == map[]
    {
      props, length, isArray := map[], 0, true;
    }

    method Put(k: nat, v: T)
      requires Valid()
      modifies this
      ensures Valid()
      ensures forall j: nat :: Get(props, j) == if j == k then Some(v) else old(Get(props, j))
      ensures length == if isArray && IsIndex(k) && k >= old(length) then k + 1 else old(length)
    {
      props := props[k := v];
      if isArray && IsIndex(k) && k >= length {
        length := k + 1;
      }
    }

    method Delete(k: nat)
      requires Valid()
      modifies this`props
      ensures Valid()
      ensures forall j: nat :: Get(props, j) == if j == k then None else old(Get(props, j))
    {
      props := props - {k};
    }

    /** An array refuses a length of 2^32 or more with a RangeError. */
    method SetLength(n: nat) returns (ok: bool)
      requires Valid()
      modifies this
      ensures Valid() && (ok <==> !isArray || n < 0x1_0000_0000)
      ensures ok ==> length == n
      ensures ok ==>
                forall k: nat :: Get(props, k) == if isArray && IsIndex(k) && k >= n then None else old(Get(props, k))
      ensures !ok ==> props == old(props) && length == old(length)
    {
      if isArray && n >= 0x1_0000_0000 {
        return false;
      }
      length := n;
      if isArray {
        props := map k | k in props && !(IsIndex(k) && k >= n) :: props[k];
      }
      ok := true;
    }

    /** One step of a block move: an own property is copied, a hole is copied as a hole. */
    method Move(from: nat, to: nat)
      requires Valid()
      modifies this
      ensures Valid()
      ensures forall k: nat :: Get(props, k) == if k == to then old(Get(props, from)) else old(Get(props, k))
      ensures length == old(length) || (isArray && length == to + 1 > old(length) && Get(props, to).Some?)
    {
      if from in props {
        Put(to, props[from]);
      } else {
        Delete(to);
      }
    }

    /** The block move towards the front, which leaves the vacated end to be deleted. */
    method ShiftDown(len: nat, s: nat, d: nat, c: nat)
      requires Valid() && s + d <= len && c < d
      modifies this
      ensures Valid()
      ensures forall k: nat :: Get(props, k) == old(MovedAt(props, len, s, d, c, k))
    {
      ghost var before := props;
      var k := s;
      var maxK := len - d;
      while k < maxK
        invariant s <= k <= maxK && Valid()
        invariant forall j: nat :: Get(props, j) == Window(before, s + c, k + c, d - c, j)
      {
        Move(k + d, k + c);
        k := k + 1;
      }
      k := len;
      var minK := len - d + c;
      while k > minK
        invariant minK <= k <= len && Valid()
        invariant forall j: nat ::
                    Get(props, j) == if k <= j < len then None else Window(before, s + c, minK, d - c, j)
      {
        Delete(k - 1);
        k := k - 1;
      }
    }

    /** The block move towards the back, which starts at the back. */
    method ShiftUp(len: nat, s: nat, d: nat, c: nat)
      requires Valid() && s + d <= len && d < c
      modifies this
      ensures Valid()
      ensures Grown()
      ensures forall k: nat | !(s + d <= k < s + c) :: Get(props, k) == old(MovedAt(props, len, s, d, c, k))
    {
      ghost var before := props;
      var k := len - d;
      while k > s
        invariant s <= k <= len - d && Valid() && Grown()
        invariant length == old(length) || length - 1 >= k + c
        invariant forall j: nat :: Get(props, j) == Window(before, k + c, len - d + c, d - c, j)
      {
        Move(k + d - 1, k + c - 1);
        k := k - 1;
      }
    }

    method Insert(s: nat, items: seq<T>)
      requires Valid()
      modifies this
      ensures Valid() && Grown()
      ensures forall k: nat :: Get(props, k) == if s <= k < s + |items| then Some(items[k - s]) else old(Get(props, k))
    {
      ghost var before := props;
      var k := s;
      for i := 0 to |items|
        invariant k == s + i && Valid() && Grown()
        invariant forall j: nat :: Get(props, j) == if s <= j < k then Some(items[j - s]) else Get(before, j)
      {
        Put(k, items[i]);
        k := k + 1;
      }
    }

    /** The deleted elements: holes stay holes, and holes at the end do not count in the length. */
    method Deleted(s: nat, d: nat) returns (a: ArrayLike<T>)
      requires d < 0x1_0000_0000
      ensures fresh(a) && a.Valid() && a.isArray
      ensures forall k: nat :: Get(a.props, k) == if k < d then Get(props, s + k) else None
      ensures 0 <= a.length <= d && (a.length > 0 ==> a.length - 1 in a.props)
      ensures forall k | k in a.props :: k < a.length
    {
      a := new ArrayLike<T>.Empty();
      var k := 0;
      while k < d
        invariant k <= d && a.Valid() && a.isArray && a.length <= k
        invariant forall j: nat :: Get(a.props, j) == if j < k then Get(props, s + j) else None
        invariant a.length == 0 || (a.length > 0 && a.length - 1 in a.props)
      {
        assert a.length > 0 ==> Get(a.props, a.length - 1).Some?;
        if s + k in props {
          a.Put(k, props[s + k]);
          assert Get(a.props, k).Some?;
        }
        k := k + 1;
      }
      forall k | k in a.props
        ensures k < a.length
      {
        assert Get(a.props, k).Some?;
      }
    }

    /** The block move, where there is one. */
    method Shift(len: nat, s: nat, d: nat, c: nat)
      requires Valid() && s + d <= len
      modifies this
      ensures Valid() && (c > d ==> Grown())
      ensures forall k: nat | !(s <= k < s + c) :: Get(props, k) == old(MovedAt(props, len, s, d, c, k))
    {
      if c < d {
        ShiftDown(len, s, d, c);
      } else if c > d {
        ShiftUp(len, s, d, c);
      }
    }

    method Replace(len: nat, s: nat, d: nat, items: seq<T>)
      requires Valid() && s + d <= len
      modifies this
      ensures Valid() && Spliced(old(props), len, s, d, items, props)
      ensures |items| > d ==> Grown()
    {
      ghost var before := props;
      Shift(len, s, d, |items|);
      ghost var moved := props;
      assert |items| > d ==> length == old(length) || Get(moved, length - 1).Some?;
      Insert(s, items);
      forall k: nat
        ensures Get(props, k) == SplicedAt(before, len, s, d, items, k)
      {
        if !(s <= k < s + |items|) {
          assert Get(moved, k) == MovedAt(before, len, s, d, |items|, k);
        }
      }
    }

    /**
     splice itself: nothing is assumed about holes or about indices past the length.
     An array that would become too long raises once all elements have been moved.
     */
    method Splice(start: Number, deleteCount: Number, items: seq<T>) returns (ok: bool, a: ArrayLike<T>)
      requires Valid()
      modifies this
      ensures Valid() && fresh(a) && a.Valid() && a.isArray
      ensures var len := ToUint32(old(length));
              var s := ActualStart(start, len);
              var d := ActualDeleteCount(deleteCount, len, s);
              && (ok <==> !isArray || len - d + |items| < 0x1_0000_0000)
              && Spliced(old(props), len, s, d, items, props)
              && (if ok then length == len - d + |items| else Grown())
              && Removed(old(props), s, d, a.props, a.length)
    {
      var len := ToUint32(length);
      var s := ActualStart(start, len);
      var d := ActualDeleteCount(deleteCount, len, s);
      ghost var before := props;
      a := Deleted(s, d);
      Replace(len, s, d, items);
      ghost var replaced := props;
      ok := SetLength(len - d + |items|);
      if ok {
        SplicedTruncated(isArray, before, len, s, d, items, replaced, props);
      }
    }
  }

  /** The deleted elements as an array, whose length is one more than its last own index. */
  ghost predicate Removed<T>(old_: map<nat, T>, s: nat, d: nat, removed: map<nat, T>, length: int) {
    && (forall k: nat :: Get(removed, k) == if k < d then Get(old_, s + k) else None)
    && 0 <= length <= d
    && (length > 0 ==> length - 1 in removed)
    && (forall k | k in removed :: k < length)
  }

  /** Setting the length of an array deletes nothing that splice put there. */
  lemma {:induction false} SplicedTruncated<T>(isArray: bool, old_: map<nat, T>, len: nat, s: nat, d: nat,
                                               items: seq<T>,
                            replaced: map<nat, T>, new_: map<nat, T>)
    requires s + d <= len && Spliced(old_, len, s, d, items, replaced)
    requires isArray ==> forall k | k in old_ && IsIndex(k) :: k < len
    requires forall k: nat ::
               Get(new_, k) == if isArray && IsIndex(k) && k >= len - d + |items| then None else Get(replaced, k)
    ensures Spliced(old_, len, s, d, items, new_)
  {
    forall k: nat
      ensures Get(new_, k) == SplicedAt(old_, len, s, d, items, k)
    {
      assert Get(replaced, k) == SplicedAt(old_, len, s, d, items, k);
    }
  }

  // ----- splice on sequences -----

  /** The elements below a length, holes included. */
  function Elements<T>(props: map<nat, T>, len: nat): (es: seq<Option<T>>)
    ensures |es| == len
  {
    seq(len, i requires 0 <= i < len => Get(props, i))
  }

  function Present<T>(items: seq<T>): (es: seq<Option<T>>)
    ensures |es| == |items|
  {
    seq(|items|, i requires 0 <= i < |items| => Some(items[i]))
  }

  ghost predicate Bounded<T>(props: map<nat, T>, len: nat) {
    forall k | k in props :: k < len
  }

  /** On an object with no own index past its length, splice is the splice of sequences. */
  lemma {:induction false} SplicedElements<T>(old_: map<nat, T>, len: nat, s: nat, d: nat, items: seq<T>,
                                              new_: map<nat, T>)
    requires s + d <= len && Bounded(old_, len) && Spliced(old_, len, s, d, items, new_)
    ensures Bounded(new_, len - d + |items|)
    ensures var es := Elements(old_, len);
            Elements(new_, len - d + |items|) == es[..s] + Present(items) + es[s + d..]
  {
    forall k | k in new_
      ensures k < len - d + |items|
    {
      assert Get(new_, k).Some?;
    }
    var es, after := Elements(old_, len), Elements(new_, len - d + |items|);
    var parts := es[..s] + Present(items) + es[s + d..];
    forall k | 0 <= k < len - d + |items|
      ensures after[k] == parts[k]
    {
      assert Get(new_, k) == SplicedAt(old_, len, s, d, items, k);
    }
  }

  /** The result holds the deleted elements; its length counts them unless the last is a hole. */
  lemma {:induction false} RemovedElements<T>(old_: map<nat, T>, len: nat, s: nat, d: nat, removed: map<nat, T>,
                                              length: nat)
    requires s + d <= len && Removed(old_, s, d, removed, length)
    ensures Elements(removed, d) == Elements(old_, len)[s..s + d]
    ensures length == d <==> d == 0 || s + d - 1 in old_
    ensures Elements(removed, length) == Elements(old_, len)[s..s + length]
    ensures forall k | s + length <= k < s + d :: k !in old_
  {
    if d > 0 {
      assert Get(removed, d - 1) == Get(old_, s + d - 1);
    }
    forall k | s + length <= k < s + d
      ensures k !in old_
    {
      assert Get(removed, k - s) == Get(old_, k);
    }
  }

  /** Taking both elements of an array that ends in a hole gives an array of length 1. */
  lemma {:induction false} LastHoleShortens<T>(x: T, removed: map<nat, T>, length: nat)
    requires Removed(map[0 := x], 0, 2, removed, length)
    ensures length == 1
  {
    var old_ := map[0 := x];
    assert Get(removed, 0) == Get(old_, 0) && Get(removed, 1) == Get(old_, 1);
  }

  /** Putting back what one call took out undoes it, when there were no holes. */
  lemma {:induction false} SpliceUndone<T>(old_: map<nat, T>, len: nat, s: nat, d: nat, items: seq<T>,
                                           new_: map<nat, T>,
                        removed: seq<T>, restored: map<nat, T>)
    requires s + d <= len && Bounded(old_, len) && Spliced(old_, len, s, d, items, new_)
    requires Elements(old_, len)[s..s + d] == Present(removed)
    requires Spliced(new_, len - d + |items|, s, |items|, removed, restored)
    ensures restored == old_
  {
    forall k: nat
      ensures Get(restored, k) == Get(old_, k)
    {
      var now := SplicedAt(new_, len - d + |items|, s, |items|, removed, k);
      assert Get(restored, k) == now;
      if s <= k < s + d {
        assert Elements(old_, len)[s..s + d][k - s] == Present(removed)[k - s];
      } else {
        var from := if s + d <= k < len then k - d + |items| else k;
        assert Get(new_, from) == SplicedAt(old_, len, s, d, items, from);
      }
    }
    MapsEqual(restored, old_);
  }

  lemma {:induction false} MapsEqual<T>(a: map<nat, T>, b: map<nat, T>)
    requires forall k: nat :: Get(a, k) == Get(b, k)
    ensures a == b
  {
    forall k: nat
      ensures k in a <==> k in b
      ensures k in a ==> a[k] == b[k]
    {
      assert Get(a, k) == Get(b, k);
    }
  }
}
