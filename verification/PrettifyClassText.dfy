/**
 How doc/open-extensions/prettify.js prints a rewritten character class, and what
 a regular expression engine reads in the result.
 */
module PrettifyClassText {
  import opened Sequences
  import opened PrettifyCharset

  // ----- printing -----

  /** The codes of [ \ ] ^ - and x. */
  const OPEN: nat := 91
  const BACKSLASH: nat := 92
  const CLOSE: nat := 93
  const CARET: nat := 94
  const DASH: nat := 45
  const X: nat := 120

  function HexDigit(d: nat): nat
    requires d < 16
  {
    if d < 10 then 48 + d else 87 + d
  }

  /** One character of a class, escaped where it has to be; a caret is not. */
  function Code(j: nat): (t: seq<nat>)
    ensures t != [] && t[0] != DASH && t[0] != CLOSE && (t[0] == CARET <==> j == CARET)
  {
    if j < 16 then [BACKSLASH, X, 48, HexDigit(j)]
    else if j < 32 then [BACKSLASH, X, 49, HexDigit(j - 16)]
    else if j == BACKSLASH || j == DASH || j == OPEN || j == CLOSE then [BACKSLASH, j]
    else [j]
  }

  function PrintRange(p: Pair): seq<nat> {
    Code(p.lo) + if p.hi > p.lo then [DASH] + Code(p.hi) else []
  }

  function PrintRanges(b: seq<Pair>): seq<nat> {
    if b == [] then [] else PrintRange(b[0]) + PrintRanges(b[1..])
  }

  /** Class escapes such as \d are kept as they were, in front. */
  function PrintEscapes(letters: seq<nat>): seq<nat> {
    if letters == [] then [] else [BACKSLASH, letters[0]] + PrintEscapes(letters[1..])
  }

  function PrintClass(negated: bool, letters: seq<nat>, b: seq<Pair>): seq<nat> {
    [OPEN] + (if negated then [CARET] else []) + (PrintEscapes(letters) + (PrintRanges(b) + [CLOSE]))
  }

  // ----- reading a class, as a regular expression engine does -----

  const LETTERS: set<nat> := {66, 98, 68, 100, 83, 115, 87, 119}

  function HexValue(c: nat): nat {
    if 48 <= c <= 57 then c - 48 else if 97 <= c <= 102 then c - 87 else 0
  }

  function AtomLength(t: seq<nat>): (n: nat)
    requires t != []
    ensures 0 < n <= |t|
  {
    if t[0] == BACKSLASH && |t| >= 4 && t[1] == X then 4 else if t[0] == BACKSLASH && |t| >= 2 then 2 else 1
  }

  function AtomCode(t: seq<nat>): nat
    requires t != []
  {
    if AtomLength(t) == 4 then 16 * HexValue(t[2]) + HexValue(t[3]) else if AtomLength(t) == 2 then t[1] else t[0]
  }

  datatype ClassBody = Unreadable | ClassBody(ranges: seq<Pair>)

  function ReadRanges(t: seq<nat>): ClassBody {
    if t == [] then Unreadable
    else if t[0] == CLOSE then if |t| == 1 then ClassBody([]) else Unreadable
    else
      var lo, rest := AtomCode(t), t[AtomLength(t)..];
      if |rest| >= 2 && rest[0] == DASH && rest[1] != CLOSE then
        var end := rest[1..];
        Cons(Pair(lo, AtomCode(end)), ReadRanges(end[AtomLength(end)..]))
      else Cons(Pair(lo, lo), ReadRanges(rest))
  }

  function Cons(p: Pair, b: ClassBody): ClassBody {
    if b.Unreadable? then b else ClassBody([p] + b.ranges)
  }

  function EscapesAt(t: seq<nat>): (n: nat)
    ensures 2 * n <= |t|
  {
    if |t| >= 2 && t[0] == BACKSLASH && t[1] in LETTERS then 1 + EscapesAt(t[2..]) else 0
  }

  function LettersIn(t: seq<nat>, n: nat): seq<nat>
    requires 2 * n <= |t|
  {
    if n == 0 then [] else [t[1]] + LettersIn(t[2..], n - 1)
  }

  /** A class as a reader sees it. */
  datatype Class = Class(negated: bool, letters: seq<nat>, body: ClassBody)

  function ReadClass(t: seq<nat>): Class
    requires t != []
  {
    var negated := |t| > 1 && t[1] == CARET;
    var rest := if negated then t[2..] else t[1..];
    var n := EscapesAt(rest);
    Class(negated, LettersIn(rest, n), ReadRanges(rest[2 * n..]))
  }

  // ----- reading what was printed -----

  lemma {:induction false} AtomOf(j: nat, rest: seq<nat>)
    ensures var t := Code(j) + rest;
            AtomLength(t) == |Code(j)| && AtomCode(t) == j && t[AtomLength(t)..] == rest
  {
  }

  lemma {:induction false} RangesReadBack(b: seq<Pair>)
    requires Ranges(b)
    ensures ReadRanges(PrintRanges(b) + [CLOSE]) == ClassBody(b)
  {
    if b == [] {
      assert PrintRanges(b) + [CLOSE] == [CLOSE];
    } else {
      var p, rest := b[0], PrintRanges(b[1..]) + [CLOSE];
      RangesReadBack(b[1..]);
      RestStart(b[1..]);
      assert PrintRanges(b) + [CLOSE] == PrintRange(p) + rest;
      RangeReadBack(p, rest);
      assert [p] + b[1..] == b;
    }
  }

  lemma {:induction false} RestStart(b: seq<Pair>)
    ensures (PrintRanges(b) + [CLOSE])[0] != DASH
  {
    if b != [] {
      assert (PrintRanges(b) + [CLOSE])[0] == Code(b[0].lo)[0];
    }
  }

  lemma {:induction false} RangeReadBack(p: Pair, rest: seq<nat>)
    requires p.lo <= p.hi && rest != [] && rest[0] != DASH
    ensures ReadRanges(PrintRange(p) + rest) == Cons(p, ReadRanges(rest))
  {
    if p.hi > p.lo {
      var end := Code(p.hi) + rest;
      assert PrintRange(p) + rest == Code(p.lo) + ([DASH] + end);
      AtomOf(p.lo, [DASH] + end);
      AtomOf(p.hi, rest);
      assert ([DASH] + end)[1..] == end;
    } else {
      assert PrintRange(p) + rest == Code(p.lo) + rest;
      AtomOf(p.lo, rest);
    }
  }

  lemma {:induction false} EscapesReadBack(letters: seq<nat>, rest: seq<nat>)
    requires forall i | 0 <= i < |letters| :: letters[i] in LETTERS
    requires EscapesAt(rest) == 0
    ensures var t := PrintEscapes(letters) + rest;
            EscapesAt(t) == |letters| && LettersIn(t, |letters|) == letters && t[2 * |letters|..] == rest
  {
    var t := PrintEscapes(letters) + rest;
    if letters == [] {
      assert t == rest;
    } else {
      EscapesReadBack(letters[1..], rest);
      var more := PrintEscapes(letters[1..]) + rest;
      assert t == [BACKSLASH, letters[0]] + more && t[2..] == more;
      assert t[2 * |letters|..] == more[2 * |letters[1..]|..];
    }
  }

  lemma {:induction false} NoEscape(b: seq<Pair>)
    ensures EscapesAt(PrintRanges(b) + [CLOSE]) == 0
  {
    if b != [] {
      var t := PrintRanges(b) + [CLOSE];
      assert t == Code(b[0].lo) + (t[|Code(b[0].lo)|..]);
    }
  }

  /** A printed class reads back as it was meant, unless its first character is a bare caret. */
  lemma {:induction false} ClassReadsBack(negated: bool, letters: seq<nat>, b: seq<Pair>)
    requires Ranges(b) && forall i | 0 <= i < |letters| :: letters[i] in LETTERS
    ensures ReadClass(PrintClass(negated, letters, b)) == Class(negated, letters, ClassBody(b))
       <==> negated || letters != [] || b == [] || b[0].lo != CARET
  {
    var t, body := PrintClass(negated, letters, b), PrintEscapes(letters) + (PrintRanges(b) + [CLOSE]);
    NoEscape(b);
    EscapesReadBack(letters, PrintRanges(b) + [CLOSE]);
    RangesReadBack(b);
    if negated {
      assert t[2..] == body;
    } else {
      assert t[1..] == body && t[1] == body[0];
      assert letters == [] && b != [] ==> body[0] == Code(b[0].lo)[0];
    }
  }

  // ----- the whole rewriting -----

  method Collect(ps: seq<Pair>) returns (k: seq<Pair>)
    ensures k == Closed(ps)
  {
    k := [];
    var e := 0;
    while e < |ps|
      invariant e <= |ps| && k == Closed(ps[..e])
    {
      var u, x := ps[e].lo, ps[e].hi;
      assert ps[..e + 1][..e] == ps[..e];
      ghost var before := k;
      k := k + [Pair(u, x)];
      if !(x < 65 || u > 122) {
        if !(x < 65 || u > 90) {
          k := k + [Pair(SetBit5(Max(65, u)), SetBit5(Min(x, 90)))];
        }
        if !(x < 97 || u > 122) {
          k := k + [Pair(ClearBit5(Max(97, u)), ClearBit5(Min(x, 122)))];
        }
      }
      assert k == before + WithCases(ps[e]);
      e := e + 1;
    }
    assert ps[..e] == ps;
  }

  method Allocate(ps: seq<Pair>) returns (k: seq<Range>)
    ensures fresh(k) && Distinct(k) && Holds(k, ps)
  {
    k := [];
    var e := 0;
    while e < |ps|
      invariant e <= |ps| && fresh(k) && Distinct(k) && Holds(k, ps[..e])
    {
      var r := new Range(ps[e]);
      k := k + [r];
      e := e + 1;
    }
    assert ps[..e] == ps;
  }

  method Print(b: seq<Range>, ghost ps: seq<Pair>) returns (t: seq<nat>)
    requires Holds(b, ps)
    ensures t == PrintRanges(ps)
  {
    t := [];
    var e := 0;
    while e < |b|
      invariant e <= |b| && PrintRanges(ps) == t + PrintRanges(ps[e..])
    {
      assert ps[e..][1..] == ps[e + 1..];
      var piece := PrintOne(b[e]);
      Associate(t, piece, PrintRanges(ps[e + 1..]));
      t := t + piece;
      e := e + 1;
    }
  }

  method PrintOne(a: Range) returns (piece: seq<nat>)
    ensures piece == PrintRange(a.Value())
  {
    piece := Code(a.lo);
    if a.hi > a.lo {
      piece := piece + [DASH] + Code(a.hi);
    }
  }

  /** The rewriting of a class, given as its parts. */
  method Rewrite(negated: bool, letters: seq<nat>, ps: seq<Pair>) returns (t: seq<nat>)
    ensures t == PrintClass(negated, letters, Merged(Sort(Closed(ps))))
  {
    var pairs := Collect(ps);
    var sorted := Sort(pairs);
    var k := Allocate(sorted);
    var b := MergeRanges(k, sorted, set r | r in k);
    var body := Print(b, Merged(sorted));
    t := [OPEN] + (if negated then [CARET] else []) + (PrintEscapes(letters) + (body + [CLOSE]));
  }

  /** The caret is the least character of the class and of the other case of its letters. */
  predicate CaretFirst(ps: seq<Pair>) {
    Covered(ps, CARET) && forall c | 0 <= c < CARET :: !Covered(ps, c) && !Covered(ps, OtherCase(c))
  }

  /**
   The rewritten class matches what the original one matches, in either case,
   exactly when it is negated, has class escapes or does not start at the caret.
   */
  lemma {:induction false} RewriteMeaning(negated: bool, letters: seq<nat>, ps: seq<Pair>)
    requires Ranges(ps) && forall i | 0 <= i < |letters| :: letters[i] in LETTERS
    ensures var b := Merged(Sort(Closed(ps)));
            && Separated(b)
            && (forall c: nat :: Covered(b, c) <==> Covered(ps, c) || Covered(ps, OtherCase(c)))
            && (ReadClass(PrintClass(negated, letters, b)) == Class(negated, letters, ClassBody(b))
                <==> negated || letters != [] || !CaretFirst(ps))
  {
    var b := Merged(Sort(Closed(ps)));
    RewrittenRanges(ps);
    ClassReadsBack(negated, letters, b);
    CaretLeast(ps, b);
  }

  lemma {:induction false} CaretLeast(ps: seq<Pair>, b: seq<Pair>)
    requires Separated(b) && forall c: nat :: Covered(b, c) <==> Covered(ps, c) || Covered(ps, OtherCase(c))
    ensures CaretFirst(ps) <==> b != [] && b[0].lo == CARET
  {
    LeastCovered(b);
    assert OtherCase(CARET) == CARET;
    if b != [] && b[0].lo == CARET {
      assert Covered(b, CARET);
      forall c | 0 <= c < CARET
        ensures !Covered(ps, c) && !Covered(ps, OtherCase(c))
      {
        assert !Covered(b, c);
      }
    }
    if CaretFirst(ps) {
      assert Covered(b, CARET);
      assert Covered(b, b[0].lo);
    }
  }

  lemma {:induction false} LeastCovered(b: seq<Pair>)
    requires Separated(b)
    ensures b != [] ==> Covered(b, b[0].lo)
    ensures forall c: nat | Covered(b, c) :: b != [] && b[0].lo <= c
  {
    if b != [] {
      assert Within(b[0], b[0].lo);
    }
    forall c: nat | Covered(b, c)
      ensures b != [] && b[0].lo <= c
    {
      var i :| 0 <= i < |b| && Within(b[i], c);
      if i > 0 {
        assert b[0].hi + 1 < b[i].lo;
      }
    }
  }

  /** A class of just an escaped caret becomes one that matches every character. */
  lemma {:induction false} CaretMisread()
    ensures ReadClass(PrintClass(false, [], Merged(Sort(Closed([Pair(CARET, CARET)])))))
         == Class(true, [], ClassBody([]))
  {
    var p := Pair(CARET, CARET);
    assert [p][..0] == [] && WithCases(p) == [p];
    assert Closed([p]) == [p];
    assert [p][1..] == [];
    assert Sort([p]) == [p];
    assert Merged([p]) == [p];
    assert PrintRanges([p]) == [CARET];
    var t := PrintClass(false, [], [p]);
    assert t == [OPEN, CARET, CLOSE] && t[2..] == [CLOSE];
  }
}
