/**
 String.prototype.lastIndexOf of doc/swagger/lib/es5-shim.js, which searches
 forwards in windows that it moves backwards by the length of the needle.
 */
module LastIndexOf {
  import opened Numbers

  predicate Occurs(s: string, needle: string, p: int) {
    0 <= p && p + |needle| <= |s| && forall i | 0 <= i < |needle| :: s[p + i] == needle[i]
  }

  /** Section 15.5.4.8 of ECMA-262 5.1: the last occurrence at or before a position, or -1. */
  function Last(s: string, needle: string, p: int): (r: int)
    ensures -1 <= r
    decreases p + 1
  {
    if p < 0 then -1 else if Occurs(s, needle, p) then p else Last(s, needle, p - 1)
  }

  lemma {:induction false} LastIs(s: string, needle: string, p: int, r: int)
    requires -1 <= r <= p && (r >= 0 ==> Occurs(s, needle, r))
    requires forall q | r < q <= p :: !Occurs(s, needle, q)
    ensures Last(s, needle, p) == r
    decreases p
  {
    if r < p {
      LastIs(s, needle, p - 1, r);
    }
  }

  /** Where an occurrence may start: the position as a number, uncut; 0 is never too late. */
  predicate NotAfter(p: nat, position: Number) {
    match position
    case NaN => true
    case PosInfinity => true
    case NegInfinity => p == 0
    case Finite(v) => p == 0 || p as real <= v
  }

  /** min(max(pos, 0), S.length), where a missing position or NaN is infinite */
  function Start(position: Number, len: nat): (start: nat)
    ensures start <= len
    ensures forall i: int | !position.NaN? && ToInteger(position) == Integer(i) ::
              (0 <= i <= len ==> start == i) && (i < 0 ==> start == 0) && (len < i ==> start == len)
    ensures position.NaN? || position.PosInfinity? ==> start == len
    ensures position.NegInfinity? ==> start == 0
    ensures forall p: nat :: p <= start <==> p <= len && NotAfter(p, position)
  {
    if position.NaN? then len
    else match ToInteger(position)
      case MinusInfinity => 0
      case PlusInfinity => len
      case Integer(i) => if i < 0 then 0 else if i < len then i else len
  }

  // ----- the native operations -----

  /** indexOf from a position on */
  function IndexFrom(s: string, needle: string, i: nat): (r: int)
    ensures r == -1 || (i <= r && Occurs(s, needle, r))
    decreases |s| + 1 - i
  {
    if i > |s| then -1 else if Occurs(s, needle, i) then i else IndexFrom(s, needle, i + 1)
  }

  /** It is the first occurrence. */
  lemma {:induction false} IndexMisses(s: string, needle: string, i: nat, p: int)
    requires i <= p && (IndexFrom(s, needle, i) == -1 || p < IndexFrom(s, needle, i))
    ensures !Occurs(s, needle, p)
    decreases |s| + 1 - i
  {
    if i <= |s| && i < p {
      IndexMisses(s, needle, i + 1, p);
    }
  }

  /** strSlice(s, from, to) for from <= to */
  function Slice(s: string, from: nat, to: nat): string
    requires from <= to
  {
    if from >= |s| then "" else s[from..if to < |s| then to else |s|]
  }

  /** An occurrence in a slice is one in the whole that ends in time. */
  lemma {:induction false} OccursInSlice(s: string, needle: string, from: nat, to: nat, p: int)
    requires from <= to && needle != ""
    ensures Occurs(Slice(s, from, to), needle, p)
       <==> 0 <= p && from + p + |needle| <= to && Occurs(s, needle, from + p)
  {
    var w := Slice(s, from, to);
    assert forall i | 0 <= i < |w| :: w[i] == s[from + i];
  }

  // ----- the search -----

  /** Where the window starts that ends k. */
  function Next(needle: string, k: nat): nat {
    if k > |needle| then k - |needle| else 0
  }

  function IndexIn(s: string, needle: string, start: nat, next: nat): int
    requires next <= start + |needle|
  {
    IndexFrom(Slice(s, next, start + |needle|), needle, 0)
  }

  /** The loop from k on. */
  function Search(s: string, needle: string, start: nat, k: nat): int
    requires k <= start + |needle|
    decreases k
  {
    if k == 0 then -1
    else
      var next := Next(needle, k);
      var index := IndexIn(s, needle, start, next);
      if index != -1 then next + index
      else if next == k then -1
      else Search(s, needle, start, next)
  }

  function Found(s: string, needle: string, start: nat): int {
    Search(s, needle, start, start + |needle|)
  }

  /** The empty needle is found at once, so the loop always moves on. */
  lemma {:induction false} EmptyNeedle(s: string, start: nat, k: nat)
    requires k <= start
    ensures IndexFrom(Slice(s, k, start), "", 0) == 0
  {
    assert Occurs(Slice(s, k, start), "", 0);
  }

  lemma {:induction false} SearchStep(s: string, needle: string, start: nat, k: nat)
    requires 0 < k <= start + |needle|
    ensures var next := Next(needle, k);
            var index := IndexIn(s, needle, start, next);
            if index != -1 then Search(s, needle, start, k) == next + index
            else next < k && Search(s, needle, start, k) == Search(s, needle, start, next)
  {
    if needle == "" {
      EmptyNeedle(s, start, k);
    }
  }

  /**
   lastIndexOf.  For a nonempty needle the result is -1 when nothing occurs that
   does not start after the position, and otherwise such an occurrence; it is the
   last of them if the needle has no border.
   */
  method Find(s: string, needle: string, position: Number) returns (r: int)
    ensures r == Found(s, needle, Start(position, |s|))
    ensures needle != "" && r == -1 ==> forall p: nat | NotAfter(p, position) :: !Occurs(s, needle, p)
    ensures needle != "" && r != -1 ==> r >= 0 && NotAfter(r, position) && Occurs(s, needle, r)
    ensures needle != "" && Borderless(needle) ==>
              forall p: nat | NotAfter(p, position) && Occurs(s, needle, p) :: p <= r
    ensures needle == "" ==> r == if |s| == 0 || !NotAfter(1, position) then -1 else Start(position, |s|)
  {
    var start := Start(position, |s|);
    r := FindFrom(s, needle, start);
    if needle == "" {
      EmptyFound(s, start);
    } else {
      FoundOccurs(s, needle, start);
      if Borderless(needle) {
        BorderlessFindsLast(s, needle, start);
        LastBounds(s, needle, start);
      }
    }
  }

  /** Nothing occurs between the last occurrence and the position. */
  lemma {:induction false} LastBounds(s: string, needle: string, start: int)
    ensures forall p: int | 0 <= p <= start && Occurs(s, needle, p) :: p <= Last(s, needle, start)
    decreases start + 1
  {
    if start >= 0 && !Occurs(s, needle, start) {
      LastBounds(s, needle, start - 1);
    }
  }

  method FindFrom(s: string, needle: string, start: nat) returns (r: int)
    ensures r == Found(s, needle, start)
  {
    var k: nat := start + |needle|;
    ghost var goal := Search(s, needle, start, k);
    while k > 0
      invariant k <= start + |needle| && goal == Search(s, needle, start, k)
      decreases k
    {
      SearchStep(s, needle, start, k);
      k := Next(needle, k);
      var index := IndexIn(s, needle, start, k);
      if index != -1 {
        return k + index;
      }
    }
    return -1;
  }

  /** The first occurrence in the window that starts at next. */
  lemma {:induction false} WindowFirst(s: string, needle: string, start: nat, next: nat, index: int)
    requires needle != "" && next <= start + |needle|
    requires index == IndexFrom(Slice(s, next, start + |needle|), needle, 0)
    ensures index == -1 || (0 <= index && next + index <= start && Occurs(s, needle, next + index))
  {
    if index != -1 {
      OccursInSlice(s, needle, next, start + |needle|, index);
    }
  }

  lemma {:induction false} WindowMisses(s: string, needle: string, start: nat, next: nat, index: int, p: int)
    requires needle != "" && next <= start + |needle|
    requires index == IndexFrom(Slice(s, next, start + |needle|), needle, 0)
    requires next <= p <= start && (index == -1 || p < next + index)
    ensures !Occurs(s, needle, p)
  {
    MissedIn(Slice(s, next, start + |needle|), needle, index, p - next);
    OccursInSlice(s, needle, next, start + |needle|, p - next);
  }

  lemma {:induction false} MissedIn(window: string, needle: string, index: int, i: int)
    requires index == IndexFrom(window, needle, 0)
    requires 0 <= i && (index == -1 || i < index)
    ensures !Occurs(window, needle, i)
  {
    IndexMisses(window, needle, 0, i);
  }

  /** A window starting at next, when nothing occurs from k on. */
  lemma {:induction false} Window(s: string, needle: string, start: nat, next: nat, k: nat)
    requires needle != "" && next <= k <= start + |needle|
    requires forall p: int | k <= p <= start :: !Occurs(s, needle, p)
    ensures var index := IndexFrom(Slice(s, next, start + |needle|), needle, 0);
            && (index == -1 ==> forall p: int | next <= p <= start :: !Occurs(s, needle, p))
            && (index != -1 ==>
                  && 0 <= index && next + index <= start && next + index < k && Occurs(s, needle, next + index)
                  && forall p: int | next <= p < next + index :: !Occurs(s, needle, p))
  {
    var index := IndexFrom(Slice(s, next, start + |needle|), needle, 0);
    WindowFirst(s, needle, start, next, index);
    forall p: int | next <= p <= start && (index == -1 || p < next + index)
      ensures !Occurs(s, needle, p)
    {
      WindowMisses(s, needle, start, next, index, p);
    }
  }

  /** What the search finds: an occurrence, with none between it and k except in its own window. */
  lemma {:induction false} SearchFinds(s: string, needle: string, start: nat, k: nat)
    requires needle != "" && k <= start + |needle|
    requires forall p: int | k <= p <= start :: !Occurs(s, needle, p)
    ensures var r := Search(s, needle, start, k);
            && (r == -1 <==> forall p: int | 0 <= p <= start :: !Occurs(s, needle, p))
            && (r != -1 ==> 0 <= r <= start && Occurs(s, needle, r))
            && (forall p: int | r + |needle| <= p <= start && r != -1 :: !Occurs(s, needle, p))
    decreases k
  {
    if k > 0 {
      var next := if k > |needle| then k - |needle| else 0;
      Window(s, needle, start, next, k);
      var index := IndexFrom(Slice(s, next, start + |needle|), needle, 0);
      if index == -1 {
        SearchFinds(s, needle, start, next);
      }
    }
  }

  /** For every nonempty needle: -1 exactly when there is no occurrence, and otherwise an occurrence. */
  lemma {:induction false} FoundOccurs(s: string, needle: string, start: nat)
    requires needle != ""
    ensures var r := Found(s, needle, start);
            && (r == -1 <==> forall p: int | 0 <= p <= start :: !Occurs(s, needle, p))
            && (r != -1 ==> 0 <= r <= start && Occurs(s, needle, r))
  {
    SearchFinds(s, needle, start, start + |needle|);
  }

  // ----- when it is the last occurrence -----

  /** A proper prefix that is also a suffix. */
  predicate Border(needle: string, n: nat) {
    0 < n < |needle| && forall i | 0 <= i < n :: needle[i] == needle[|needle| - n + i]
  }

  predicate Borderless(needle: string) {
    forall n | 0 < n < |needle| :: !Border(needle, n)
  }

  /** Two occurrences that overlap make a border. */
  lemma {:induction false} OverlapIsBorder(s: string, needle: string, p: int, q: int)
    requires Occurs(s, needle, p) && Occurs(s, needle, q) && p < q < p + |needle|
    ensures Border(needle, p + |needle| - q)
  {
    var n := p + |needle| - q;
    forall i | 0 <= i < n
      ensures needle[i] == needle[|needle| - n + i]
    {
      assert s[q + i] == s[p + (|needle| - n + i)];
    }
  }

  lemma {:induction false} NoOverlap(s: string, needle: string, p: int, q: int)
    requires Borderless(needle) && Occurs(s, needle, p) && p < q < p + |needle|
    ensures !Occurs(s, needle, q)
  {
    if Occurs(s, needle, q) {
      OverlapIsBorder(s, needle, p, q);
    }
  }

  lemma {:induction false} BorderlessFindsLast(s: string, needle: string, start: nat)
    requires needle != "" && Borderless(needle)
    ensures Found(s, needle, start) == Last(s, needle, start)
  {
    SearchFinds(s, needle, start, start + |needle|);
    BorderlessIsLast(s, needle, start, Found(s, needle, start));
  }

  lemma {:induction false} BorderlessIsLast(s: string, needle: string, start: nat, r: int)
    requires Borderless(needle) && -1 <= r <= start && (r != -1 ==> Occurs(s, needle, r))
    requires forall p: int | 0 <= p <= start && (r == -1 || r + |needle| <= p) :: !Occurs(s, needle, p)
    ensures Last(s, needle, start) == r
  {
    forall q: int | r < q <= start
      ensures !Occurs(s, needle, q)
    {
      if 0 <= r && q < r + |needle| {
        NoOverlap(s, needle, r, q);
      }
    }
    LastIs(s, needle, start, r);
  }

  /** A text where a needle with a border occurs twice in one window. */
  function Twice(needle: string, n: nat): string
    requires Border(needle, n)
  {
    needle + needle[n..]
  }

  lemma {:induction false} TwiceOccurs(needle: string, n: nat)
    requires Border(needle, n)
    ensures var s, q := Twice(needle, n), |needle| - n;
            Occurs(s, needle, 0) && Occurs(s, needle, q) && !Occurs(s, needle, q + 1) && q + 1 <= |s|
  {
    var s, q := Twice(needle, n), |needle| - n;
    forall i | 0 <= i < |needle|
      ensures s[q + i] == needle[i]
    {
      if i < n {
        assert s[q + i] == needle[q + i];
      } else {
        assert s[q + i] == needle[n..][i - n];
      }
    }
  }

  lemma {:induction false} BorderMisses(needle: string, n: nat)
    requires Border(needle, n)
    ensures var s, start := Twice(needle, n), |needle| - n + 1;
            start <= |s| && Found(s, needle, start) == 0 && Last(s, needle, start) == |needle| - n
  {
    var s, q := Twice(needle, n), |needle| - n;
    var start := q + 1;
    TwiceOccurs(needle, n);
    LastIs(s, needle, start, q);
    SkipsStart(s, needle, start);
    FindsFirst(s, needle, start);
  }

  lemma {:induction false} SkipsStart(s: string, needle: string, start: nat)
    requires needle != "" && !Occurs(s, needle, start)
    ensures Found(s, needle, start) == Search(s, needle, start, start)
  {
    StartMissed(s, needle, start);
    SearchStep(s, needle, start, start + |needle|);
  }

  lemma {:induction false} StartMissed(s: string, needle: string, start: nat)
    requires needle != "" && !Occurs(s, needle, start)
    ensures IndexIn(s, needle, start, start) == -1
  {
    WindowFirst(s, needle, start, start, IndexIn(s, needle, start, start));
  }

  lemma {:induction false} FindsFirst(s: string, needle: string, start: nat)
    requires 0 < start <= |needle| && Occurs(s, needle, 0)
    ensures Search(s, needle, start, start) == 0
  {
    OccursInSlice(s, needle, 0, start + |needle|, 0);
    SearchStep(s, needle, start, start);
  }

  lemma {:induction false} EmptyFound(s: string, start: nat)
    requires start <= |s|
    ensures Found(s, "", start) == (if start > 0 then start else -1) && Last(s, "", start) == start
  {
    assert Occurs(s, "", start);
    if start > 0 {
      EmptyNeedle(s, start, start);
    }
  }

  ghost predicate AlwaysLast(needle: string) {
    forall s: string, start: nat | start <= |s| :: Found(s, needle, start) == Last(s, needle, start)
  }

  /** The search gives the last occurrence in every text from every position exactly for these needles. */
  lemma {:induction false} AlwaysLastIff(needle: string)
    ensures AlwaysLast(needle) <==> needle != "" && Borderless(needle)
  {
    if needle != "" && Borderless(needle) {
      forall s: string, start: nat | start <= |s|
        ensures Found(s, needle, start) == Last(s, needle, start)
      {
        BorderlessFindsLast(s, needle, start);
      }
    } else if needle == "" {
      EmptyFound("", 0);
    } else {
      var n :| 0 < n < |needle| && Border(needle, n);
      BorderMisses(needle, n);
      var s, start := Twice(needle, n), |needle| - n + 1;
      assert Found(s, needle, start) != Last(s, needle, start);
    }
  }
}
