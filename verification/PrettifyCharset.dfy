/**
 The rewriting of character classes in doc/open-extensions/prettify.js.  To fold
 case into a regular expression, the ranges of a class are extended by the other
 case of their letters, sorted, merged and printed again.  Characters are their
 codes throughout.
 */
module PrettifyCharset {

  datatype Pair = Pair(lo: nat, hi: nat)

  predicate Within(p: Pair, c: nat) {
    p.lo <= c <= p.hi
  }

  predicate Covered(ps: seq<Pair>, c: nat) {
    exists i | 0 <= i < |ps| :: Within(ps[i], c)
  }

  /** What a regular expression guarantees of its ranges. */
  predicate Ranges(ps: seq<Pair>) {
    forall i | 0 <= i < |ps| :: ps[i].lo <= ps[i].hi
  }

  lemma {:induction false} CoveredConcat(a: seq<Pair>, b: seq<Pair>, c: nat)
    ensures Covered(a + b, c) <==> Covered(a, c) || Covered(b, c)
  {
    if Covered(a, c) {
      var i :| 0 <= i < |a| && Within(a[i], c);
      assert Within((a + b)[i], c);
    }
    if Covered(b, c) {
      var i :| 0 <= i < |b| && Within(b[i], c);
      assert Within((a + b)[|a| + i], c);
    }
  }

  lemma {:induction false} CoveredOne(p: Pair, c: nat)
    ensures Covered([p], c) <==> Within(p, c)
  {
    if Within(p, c) {
      assert Within([p][0], c);
    }
  }

  // ----- the other case -----

  /** c | 32 and c & -33 */
  function SetBit5(c: nat): nat {
    if c / 32 % 2 == 0 then c + 32 else c
  }

  function ClearBit5(c: nat): nat {
    if c / 32 % 2 == 1 then c - 32 else c
  }

  function Max(a: nat, b: nat): nat {
    if a >= b then a else b
  }

  function Min(a: nat, b: nat): nat {
    if a <= b then a else b
  }

  function OtherCase(c: nat): nat {
    if 65 <= c <= 90 then c + 32 else if 97 <= c <= 122 then c - 32 else c
  }

  /** The ranges pushed for one range: itself, and the other case of its letters. */
  function WithCases(p: Pair): seq<Pair> {
    [p]
    + (if p.hi < 65 || p.lo > 122 || p.hi < 65 || p.lo > 90 then []
       else [Pair(SetBit5(Max(65, p.lo)), SetBit5(Min(p.hi, 90)))])
    + (if p.hi < 65 || p.lo > 122 || p.hi < 97 || p.lo > 122 then []
       else [Pair(ClearBit5(Max(97, p.lo)), ClearBit5(Min(p.hi, 122)))])
  }

  function Closed(ps: seq<Pair>): seq<Pair> {
    if ps == [] then [] else Closed(ps[..|ps| - 1]) + WithCases(ps[|ps| - 1])
  }

  lemma {:induction false} WithCasesCover(p: Pair, c: nat)
    requires p.lo <= p.hi
    ensures Ranges(WithCases(p))
    ensures Covered(WithCases(p), c) <==> Within(p, c) || Within(p, OtherCase(c))
  {
    var upper := if p.hi < 65 || p.lo > 90 then [] else [Pair(Max(65, p.lo) + 32, Min(p.hi, 90) + 32)];
    var lower := if p.hi < 97 || p.lo > 122 then [] else [Pair(Max(97, p.lo) - 32, Min(p.hi, 122) - 32)];
    assert WithCases(p) == [p] + upper + lower;
    CoveredConcat([p] + upper, lower, c);
    CoveredConcat([p], upper, c);
    CoveredOne(p, c);
    if upper != [] {
      CoveredOne(upper[0], c);
    }
    if lower != [] {
      CoveredOne(lower[0], c);
    }
  }

  lemma {:induction false} ClosedCover(ps: seq<Pair>, c: nat)
    requires Ranges(ps)
    ensures Ranges(Closed(ps))
    ensures Covered(Closed(ps), c) <==> Covered(ps, c) || Covered(ps, OtherCase(c))
  {
    if ps != [] {
      var front, last := ps[..|ps| - 1], ps[|ps| - 1];
      assert ps == front + [last];
      ClosedCover(front, c);
      WithCasesCover(last, c);
      CoveredConcat(Closed(front), WithCases(last), c);
      CoveredConcat(front, [last], c);
      CoveredConcat(front, [last], OtherCase(c));
      CoveredOne(last, c);
      CoveredOne(last, OtherCase(c));
    }
  }

  // ----- sorting -----

  predicate Before(a: Pair, b: Pair) {
    a.lo < b.lo || (a.lo == b.lo && a.hi >= b.hi)
  }

  predicate Sorted(ps: seq<Pair>) {
    forall i | 0 <= i < |ps| - 1 :: Before(ps[i], ps[i + 1])
  }

  function Insert(ps: seq<Pair>, p: Pair): (r: seq<Pair>)
    ensures |r| == |ps| + 1 && (r[0] == p || (ps != [] && r[0] == ps[0]))
  {
    if ps == [] || Before(p, ps[0]) then [p] + ps else [ps[0]] + Insert(ps[1..], p)
  }

  lemma {:induction false} InsertSorted(ps: seq<Pair>, p: Pair)
    requires Sorted(ps)
    ensures Sorted(Insert(ps, p)) && multiset(Insert(ps, p)) == multiset(ps) + multiset{p}
  {
    if ps == [] {
    } else if Before(p, ps[0]) {
      PrependSorted(p, ps);
    } else {
      var rest := ps[1..];
      assert ps == [ps[0]] + rest;
      TailSorted(ps);
      InsertSorted(rest, p);
      PrependSorted(ps[0], Insert(rest, p));
    }
  }

  lemma {:induction false} TailSorted(ps: seq<Pair>)
    requires Sorted(ps) && ps != []
    ensures Sorted(ps[1..])
  {
    var rest := ps[1..];
    forall i | 0 <= i < |rest| - 1
      ensures Before(rest[i], rest[i + 1])
    {
      assert Before(ps[i + 1], ps[i + 1 + 1]);
    }
  }

  lemma {:induction false} PrependSorted(p: Pair, ps: seq<Pair>)
    requires Sorted(ps) && (ps != [] ==> Before(p, ps[0]))
    ensures Sorted([p] + ps)
  {
    var r := [p] + ps;
    forall i | 0 <= i < |r| - 1
      ensures Before(r[i], r[i + 1])
    {
      assert i > 0 ==> r[i] == ps[i - 1] && r[i + 1] == ps[i - 1 + 1];
    }
  }

  /** k.sort with the source's comparison */
  function Sort(ps: seq<Pair>): seq<Pair> {
    if ps == [] then [] else Insert(Sort(ps[1..]), ps[0])
  }

  lemma {:induction false} SortSorts(ps: seq<Pair>)
    ensures Sorted(Sort(ps)) && multiset(Sort(ps)) == multiset(ps)
  {
    if ps != [] {
      SortSorts(ps[1..]);
      InsertSorted(Sort(ps[1..]), ps[0]);
      assert ps == [ps[0]] + ps[1..];
    }
  }

  lemma {:induction false} PermutedCover(a: seq<Pair>, b: seq<Pair>, c: nat)
    requires multiset(a) == multiset(b)
    ensures Covered(a, c) ==> Covered(b, c)
    ensures Ranges(a) ==> Ranges(b)
  {
    forall i | 0 <= i < |b|
      ensures b[i] in a
    {
      assert b[i] in multiset(b);
      assert b[i] in multiset(a);
    }
    if Covered(a, c) {
      var i :| 0 <= i < |a| && Within(a[i], c);
      assert a[i] in multiset(a);
      assert a[i] in multiset(b);
      var j :| 0 <= j < |b| && b[j] == a[i];
      assert Within(b[j], c);
    }
  }

  // ----- merging -----

  /** A range joins the last one when it overlaps it or follows it directly. */
  function MergeInto(done: seq<Pair>, p: Pair): seq<Pair> {
    if done != [] && p.lo <= done[|done| - 1].hi + 1 then
      done[..|done| - 1] + [Pair(done[|done| - 1].lo, Max(done[|done| - 1].hi, p.hi))]
    else done + [p]
  }

  function Merged(ps: seq<Pair>): seq<Pair> {
    if ps == [] then [] else MergeInto(Merged(ps[..|ps| - 1]), ps[|ps| - 1])
  }

  /** Sorted, disjoint and not adjacent. */
  predicate Separated(ps: seq<Pair>) {
    Ranges(ps) && forall i, j | 0 <= i < j < |ps| :: ps[i].hi + 1 < ps[j].lo
  }

  lemma {:induction false} SortedPrefix(ps: seq<Pair>)
    requires Sorted(ps) && Ranges(ps) && ps != []
    ensures var front := ps[..|ps| - 1];
            Sorted(front) && Ranges(front) && (front != [] ==> front[|front| - 1].lo <= ps[|ps| - 1].lo)
  {
    var front := ps[..|ps| - 1];
    assert forall i | 0 <= i < |front| :: front[i] == ps[i];
    if front != [] {
      assert Before(ps[|ps| - 2], ps[|ps| - 2 + 1]);
    }
  }

  lemma {:induction false} MergedSeparated(ps: seq<Pair>)
    requires Sorted(ps) && Ranges(ps)
    ensures Separated(Merged(ps)) && (ps != [] ==> Merged(ps) != [])
    ensures ps != [] ==> Merged(ps)[|Merged(ps)| - 1].lo <= ps[|ps| - 1].lo
  {
    if ps != [] {
      var front, last := ps[..|ps| - 1], ps[|ps| - 1];
      SortedPrefix(ps);
      MergedSeparated(front);
      MergeIntoSeparated(Merged(front), last);
    }
  }

  lemma {:induction false} MergeIntoSeparated(done: seq<Pair>, p: Pair)
    requires Separated(done) && p.lo <= p.hi && (done != [] ==> done[|done| - 1].lo <= p.lo)
    ensures Separated(MergeInto(done, p)) && MergeInto(done, p) != []
    ensures MergeInto(done, p)[|MergeInto(done, p)| - 1].lo <= p.lo
  {
    var n, r := |done| - 1, MergeInto(done, p);
    if done != [] && p.lo <= done[n].hi + 1 {
      assert forall i | 0 <= i < n :: r[i] == done[i];
      assert r[n].lo == done[n].lo;
    } else if done != [] {
      assert forall i | 0 <= i <= n :: r[i] == done[i];
      assert forall i | 0 <= i <= n :: done[i].hi <= done[n].hi;
    }
  }

  lemma {:induction false} MergedCover(ps: seq<Pair>, c: nat)
    requires Sorted(ps) && Ranges(ps)
    ensures Covered(Merged(ps), c) <==> Covered(ps, c)
  {
    if ps != [] {
      var front, last := ps[..|ps| - 1], ps[|ps| - 1];
      SortedPrefix(ps);
      MergedCover(front, c);
      MergedSeparated(front);
      MergeIntoCover(Merged(front), last, c);
      CoveredSnoc(ps, c);
    }
  }

  lemma {:induction false} CoveredSnoc(ps: seq<Pair>, c: nat)
    requires ps != []
    ensures Covered(ps, c) <==> Covered(ps[..|ps| - 1], c) || Within(ps[|ps| - 1], c)
  {
    var front, last := ps[..|ps| - 1], ps[|ps| - 1];
    assert ps == front + [last];
    CoveredConcat(front, [last], c);
    CoveredOne(last, c);
  }

  lemma {:induction false} MergeIntoCover(done: seq<Pair>, p: Pair, c: nat)
    requires Ranges(done) && p.lo <= p.hi && (done != [] ==> done[|done| - 1].lo <= p.lo)
    ensures Covered(MergeInto(done, p), c) <==> Covered(done, c) || Within(p, c)
  {
    if done != [] && p.lo <= done[|done| - 1].hi + 1 {
      var front, last := done[..|done| - 1], done[|done| - 1];
      var both := Pair(last.lo, Max(last.hi, p.hi));
      assert done == front + [last];
      CoveredConcat(front, [last], c);
      CoveredConcat(front, [both], c);
      CoveredOne(last, c);
      CoveredOne(both, c);
    } else {
      CoveredConcat(done, [p], c);
      CoveredOne(p, c);
    }
  }

  /** The ranges that are printed: separated, and covering the class and the other case of its letters. */
  lemma {:induction false} RewrittenRanges(ps: seq<Pair>)
    requires Ranges(ps)
    ensures var b := Merged(Sort(Closed(ps)));
            Separated(b) && forall c: nat :: Covered(b, c) <==> Covered(ps, c) || Covered(ps, OtherCase(c))
  {
    var closed := Closed(ps);
    var sorted := Sort(closed);
    ClosedCover(ps, 0);
    SortSorts(closed);
    PermutedCover(closed, sorted, 0);
    MergedSeparated(sorted);
    forall c: nat
      ensures Covered(Merged(sorted), c) <==> Covered(ps, c) || Covered(ps, OtherCase(c))
    {
      ClosedCover(ps, c);
      PermutedCover(closed, sorted, c);
      PermutedCover(sorted, closed, c);
      MergedCover(sorted, c);
    }
  }

  // ----- merging in place -----

  /** A range as the source holds it: a mutable array of two codes. */
  class Range {
    var lo: nat
    var hi: nat

    constructor (p: Pair)
      ensures lo == p.lo && hi == p.hi
    {
      lo, hi := p.lo, p.hi;
    }

    function Value(): Pair
      reads this
    {
      Pair(lo, hi)
    }
  }

  ghost predicate Distinct(rs: seq<Range>) {
    forall i, j | 0 <= i < j < |rs| :: rs[i] != rs[j]
  }

  ghost predicate Holds(rs: seq<Range>, ps: seq<Pair>)
    reads rs
  {
    |rs| == |ps| && forall i | 0 <= i < |rs| :: rs[i].Value() == ps[i]
  }

  lemma {:induction false} MergedNext(ps: seq<Pair>, e: nat)
    requires e < |ps|
    ensures Merged(ps[..e + 1]) == MergeInto(Merged(ps[..e]), ps[e])
  {
    assert ps[..e + 1][..e] == ps[..e];
  }

  /** The merge after e ranges: those still to come are untouched, and the last range is the result's last. */
  ghost predicate Merging(k: seq<Range>, ps: seq<Pair>, b: seq<Range>, last: Range?, e: nat, objects: set<Range>)
    reads objects
  {
    && e <= |k| == |ps| && Distinct(k) && (forall i | 0 <= i < |k| :: k[i] in objects)
    && (forall i | e <= i < |k| :: k[i].Value() == ps[i])
    && (forall i | 0 <= i < |b| :: b[i] in objects)
    && (forall i, j | 0 <= i < |b| && e <= j < |k| :: b[i] != k[j])
    && Distinct(b) && (if b == [] then last == null else last == b[|b| - 1])
    && Holds(b, Merged(ps[..e]))
  }

  /** The merge loop: the last range of the result is updated through its alias. */
  method MergeRanges(k: seq<Range>, ghost ps: seq<Pair>, ghost objects: set<Range>) returns (b: seq<Range>)
    requires Distinct(k) && Holds(k, ps) && forall i | 0 <= i < |k| :: k[i] in objects
    modifies objects
    ensures Holds(b, Merged(ps))
    ensures forall i | 0 <= i < |b| :: b[i] in objects
  {
    b := [];
    var last: Range? := null;
    var e := 0;
    while e < |k|
      invariant Merging(k, ps, b, last, e, objects)
    {
      b, last := TakeNext(k, ps, b, last, e, objects);
      e := e + 1;
    }
    assert ps[..e] == ps;
  }

  method TakeNext(k: seq<Range>, ghost ps: seq<Pair>, b: seq<Range>, last: Range?, e: nat, ghost objects: set<Range>)
    returns (b': seq<Range>, last': Range)
    requires Merging(k, ps, b, last, e, objects) && e < |k|
    modifies objects
    ensures Merging(k, ps, b', last', e + 1, objects)
  {
    MergedNext(ps, e);
    b', last' := Take(b, Merged(ps[..e]), Merged(ps[..e + 1]), last, k[e]);
  }

  /** The loop body: a range extends the last one, E, or becomes it. */
  method Take(b: seq<Range>, ghost done: seq<Pair>, ghost next: seq<Pair>, last: Range?, a: Range)
    returns (b': seq<Range>, last': Range)
    requires Distinct(b) && Holds(b, done) && forall i | 0 <= i < |b| :: b[i] != a
    requires if b == [] then last == null else last == b[|b| - 1]
    requires next == MergeInto(done, a.Value())
    modifies last
    ensures b' == b || b' == b + [a]
    ensures Distinct(b') && b' != [] && last' == b'[|b'| - 1]
    ensures Holds(b', next)
  {
    if last != null && a.lo <= last.hi + 1 {
      last.hi := if last.hi >= a.hi then last.hi else a.hi;
      b', last' := b, last;
    } else {
      b', last' := b + [a], a;
    }
  }
}
