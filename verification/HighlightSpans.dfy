/**
 How few tags mergeStreams of doc/swagger/lib/highlight.9.1.0.pack.js writes: the
 order in which it takes events at one offset, and that it takes all original
 ones there at once, save it from opening a span only to close it again.
 */
module HighlightSpans {
  import opened HighlightMerge

  /** Every span that is opened holds a character before one is closed. */
  ghost predicate NoneEmpty(ps: seq<Piece>) {
    forall i, k | 0 <= i < k < |ps| && OpensSpan(ps[i]) && ClosesSpan(ps[k]) :: exists j | i < j < k :: ps[j].Char?
  }

  predicate OpensSpan(p: Piece) {
    p.Open? && p.spans
  }

  predicate ClosesSpan(p: Piece) {
    p.Close? && p.spans
  }

  /** The highlighting stream has no empty span: what starts does so before anything stops later on. */
  predicate NoEmptyEvent(h: seq<Event>) {
    forall i, k | 0 <= i < k < |h| && h[i].Start? && h[k].Stop? :: h[i].offset < h[k].offset
  }

  // ----- reading the tags one by one -----

  /** Whether a span has been opened since the last character. */
  function BareAfter(ps: seq<Piece>, bare: bool): bool
    decreases ps
  {
    if ps == [] then bare
    else BareAfter(ps[1..], if ps[0].Char? then false else if OpensSpan(ps[0]) then true else bare)
  }

  predicate Clean(ps: seq<Piece>, bare: bool)
    decreases ps
  {
    if ps == [] then true
    else
      && (bare ==> !ClosesSpan(ps[0]))
      && Clean(ps[1..], if ps[0].Char? then false else if OpensSpan(ps[0]) then true else bare)
  }

  lemma {:induction false} CleanConcat(a: seq<Piece>, b: seq<Piece>, bare: bool)
    ensures Clean(a + b, bare) <==> Clean(a, bare) && Clean(b, BareAfter(a, bare))
    ensures BareAfter(a + b, bare) == BareAfter(b, BareAfter(a, bare))
    decreases a
  {
    if a == [] {
      assert a + b == b;
    } else {
      assert (a + b)[1..] == a[1..] + b;
      CleanConcat(a[1..], b, if a[0].Char? then false else if OpensSpan(a[0]) then true else bare);
    }
  }

  /** No span is closed before the first character. */
  ghost predicate CharFirst(ps: seq<Piece>) {
    forall k | 0 <= k < |ps| && ClosesSpan(ps[k]) :: exists j | 0 <= j < k :: ps[j].Char?
  }

  lemma {:induction false} CleanIff(ps: seq<Piece>, bare: bool)
    ensures Clean(ps, bare) <==> NoneEmpty(ps) && (bare ==> CharFirst(ps))
  {
    if ps != [] {
      var rest, next := ps[1..], if ps[0].Char? then false else if OpensSpan(ps[0]) then true else bare;
      CleanIff(rest, next);
      NoneEmptyCons(ps);
      if bare {
        CharFirstCons(ps);
      }
    }
  }

  lemma {:induction false} NoneEmptyCons(ps: seq<Piece>)
    requires ps != []
    ensures NoneEmpty(ps) <==> NoneEmpty(ps[1..]) && (OpensSpan(ps[0]) ==> CharFirst(ps[1..]))
  {
    var rest := ps[1..];
    assert forall i | 0 <= i < |rest| :: rest[i] == ps[i + 1];
    if NoneEmpty(ps) {
      forall i, k | 0 <= i < k < |rest| && OpensSpan(rest[i]) && ClosesSpan(rest[k])
        ensures exists j | i < j < k :: rest[j].Char?
      {
        var j :| i + 1 < j < k + 1 && ps[j].Char?;
        assert rest[j - 1].Char?;
      }
      if OpensSpan(ps[0]) {
        forall k | 0 <= k < |rest| && ClosesSpan(rest[k])
          ensures exists j | 0 <= j < k :: rest[j].Char?
        {
          var j :| 0 < j < k + 1 && ps[j].Char?;
          assert rest[j - 1].Char?;
        }
      }
    }
    if NoneEmpty(rest) && (OpensSpan(ps[0]) ==> CharFirst(rest)) {
      forall i, k | 0 <= i < k < |ps| && OpensSpan(ps[i]) && ClosesSpan(ps[k])
        ensures exists j | i < j < k :: ps[j].Char?
      {
        assert ClosesSpan(rest[k - 1]);
        if i == 0 {
          var j :| 0 <= j < k - 1 && rest[j].Char?;
          assert ps[j + 1].Char?;
        } else {
          assert OpensSpan(rest[i - 1]);
          var j :| i - 1 < j < k - 1 && rest[j].Char?;
          assert ps[j + 1].Char?;
        }
      }
    }
  }

  lemma {:induction false} CharFirstCons(ps: seq<Piece>)
    requires ps != []
    ensures CharFirst(ps) <==> !ClosesSpan(ps[0]) && (ps[0].Char? || CharFirst(ps[1..]))
  {
    var rest := ps[1..];
    assert forall i | 0 <= i < |rest| :: rest[i] == ps[i + 1];
    if CharFirst(ps) && !ps[0].Char? {
      forall k | 0 <= k < |rest| && ClosesSpan(rest[k])
        ensures exists j | 0 <= j < k :: rest[j].Char?
      {
        var j :| 0 <= j < k + 1 && ps[j].Char?;
        assert rest[j - 1].Char?;
      }
    }
    if !ClosesSpan(ps[0]) && (ps[0].Char? || CharFirst(rest)) {
      forall k | 0 <= k < |ps| && ClosesSpan(ps[k])
        ensures exists j | 0 <= j < k :: ps[j].Char?
      {
        if !ps[0].Char? {
          assert ClosesSpan(rest[k - 1]);
          var j :| 0 <= j < k - 1 && rest[j].Char?;
          assert ps[j + 1].Char?;
        }
      }
    }
  }

  // ----- the pieces of the output -----

  lemma {:induction false} CharsClean(s: string, bare: bool)
    ensures Clean(Chars(s), bare) && BareAfter(Chars(s), bare) == (bare && s == "")
  {
    if s != "" {
      CharsClean(s[1..], false);
    }
  }

  lemma {:induction false} ClosesClean(stack: seq<Node>, bare: bool)
    ensures Clean(Closes(stack), bare) <==> !bare || stack == []
    ensures BareAfter(Closes(stack), bare) == bare
    decreases stack
  {
    if stack != [] {
      ClosesClean(stack[1..], bare);
      CleanConcat(Closes(stack[1..]), [Close(true, stack[0])], bare);
      assert [Close(true, stack[0])][1..] == [];
    }
  }

  lemma {:induction false} TagsClean(events: seq<Event>, bare: bool)
    ensures Clean(Tags(events), bare) && BareAfter(Tags(events), bare) == bare
    decreases events
  {
    if events != [] {
      TagsClean(events[1..], bare);
      assert Tags(events)[1..] == Tags(events[1..]);
    }
  }

  lemma {:induction false} OpensClean(stack: seq<Node>, bare: bool)
    ensures Clean(Opens(stack), bare) && BareAfter(Opens(stack), bare) == (bare || stack != [])
    decreases stack
  {
    if stack != [] {
      OpensClean(stack[1..], true);
      assert Opens(stack)[1..] == Opens(stack[1..]);
    }
  }

  lemma {:induction false} OriginalClean(events: seq<Event>, text: string, from: nat, to: nat, stack: seq<Node>,
                                         bare: bool)
    requires bare ==> stack != []
    ensures var still := bare && Between(text, from, to) == "";
            var out := OriginalOutput(events, text, from, to, stack);
            && (Clean(out, bare) <==> !still)
            && BareAfter(out, bare) == (stack != [])
  {
    var chars := Chars(Between(text, from, to));
    var still := bare && Between(text, from, to) == "";
    CharsClean(Between(text, from, to), bare);
    ClosesClean(stack, still);
    TagsClean(events, still);
    OpensClean(stack, still);
    CleanConcat(chars, Closes(stack), bare);
    CleanConcat(chars + Closes(stack), Tags(events), bare);
    CleanConcat(chars + Closes(stack) + Tags(events), Opens(stack), bare);
  }

  lemma {:induction false} SpanClean(e: Event, text: string, from: nat, bare: bool)
    ensures var still := bare && Between(text, from, e.offset) == "";
            && (Clean(SpanOutput(e, text, from), bare) <==> !(still && e.Stop?))
            && BareAfter(SpanOutput(e, text, from), bare) == (e.Start? || still)
  {
    CharsClean(Between(text, from, e.offset), bare);
    CleanConcat(Chars(Between(text, from, e.offset)), [Tag(true, e)], bare);
    assert [Tag(true, e)][1..] == [];
  }

  // ----- the merge -----

  /** All stops come after an offset. */
  predicate StopsAfter(h: seq<Event>, from: nat) {
    forall k | 0 <= k < |h| && h[k].Stop? :: from < h[k].offset
  }

  /** What holds at each round: a span opened just now is neither closed here nor interrupted. */
  predicate Ready(o: seq<Event>, h: seq<Event>, text: string, from: nat, stack: seq<Node>, bare: bool) {
    && from <= |text| && Ordered(o, from, |text|) && Ordered(h, from, |text|) && NoEmptyEvent(h)
    && (bare ==> stack != [] && StopsAfter(h, from) && (o != [] ==> from < o[0].offset))
  }

  lemma {:induction false} StopsLater(h: seq<Event>, from: nat, to: nat)
    requires Ordered(h, from, to) && NoEmptyEvent(h) && h != [] && (h[0].Start? || from < h[0].offset)
    ensures StopsAfter(h, from)
  {
    forall k | 0 <= k < |h| && h[k].Stop?
      ensures from < h[k].offset
    {
      OffsetAtLeast(h, from, to, k);
      if k > 0 && h[0].Start? {
        assert h[0].offset < h[k].offset;
      }
    }
  }

  lemma {:induction false} OffsetAtLeast(h: seq<Event>, from: nat, to: nat, k: nat)
    requires Ordered(h, from, to) && k < |h|
    ensures h[0].offset <= h[k].offset
    decreases k
  {
    if k > 0 {
      OffsetAtLeast(h[1..], h[0].offset, to, k - 1);
    }
  }

  lemma {:induction false} NoEmptyTail(h: seq<Event>)
    requires h != [] && NoEmptyEvent(h)
    ensures NoEmptyEvent(h[1..])
  {
    assert forall i | 0 <= i < |h| - 1 :: h[1..][i] == h[i + 1];
  }

  /** The burst takes all original events at its offset. */
  lemma {:induction false} BurstTakesAll(o: seq<Event>, h: seq<Event>, offset: nat, to: nat)
    requires Ordered(o, offset, to) && (h != [] ==> offset < h[0].offset || (offset == h[0].offset && h[0].Start?))
    ensures var rest := o[Burst(o, h, offset)..];
            Ordered(rest, offset, to) && (rest != [] ==> offset < rest[0].offset)
    decreases o
  {
    if o != [] && o[0].offset == offset {
      BurstTakesAll(o[1..], h, offset, to);
      assert o[Burst(o, h, offset)..] == o[1..][Burst(o[1..], h, offset)..];
    }
  }

  lemma {:induction false} AfterOriginalReady(o: seq<Event>, h: seq<Event>, text: string, from: nat, stack: seq<Node>,
                                              bare: bool)
    requires Ready(o, h, text, from, stack, bare) && o != [] && TakesOriginal(o, h)
    ensures Ready(o[Taken(o, h)..], h, text, o[0].offset, stack, stack != [])
  {
    var to := o[0].offset;
    BurstTakesAll(o[1..], h, to, |text|);
    assert o[Taken(o, h)..] == o[1..][Burst(o[1..], h, to)..];
    assert Ordered(h, to, |text|);
    if h != [] {
      StopsLater(h, to, |text|);
    }
  }

  lemma {:induction false} AfterSpanReady(o: seq<Event>, h: seq<Event>, text: string, from: nat, stack: seq<Node>,
                                          bare: bool)
    requires Ready(o, h, text, from, stack, bare) && h != [] && !TakesOriginal(o, h)
    ensures Ready(o, h[1..], text, h[0].offset, Stacked(stack, h[0]),
                  h[0].Start? || (bare && Between(text, from, h[0].offset) == ""))
  {
    var e := h[0];
    NoEmptyTail(h);
    if e.Start? {
      forall k | 0 <= k < |h| - 1 && h[1..][k].Stop?
        ensures e.offset < h[1..][k].offset
      {
        assert h[1..][k] == h[k + 1];
      }
    } else if bare {
      assert from < e.offset;
      assert Between(text, from, e.offset) != "";
    }
  }

  lemma {:induction false} MergeClean(o: seq<Event>, h: seq<Event>, text: string, from: nat, stack: seq<Node>,
                                      bare: bool)
    requires Ready(o, h, text, from, stack, bare)
    ensures Clean(MergeFrom(o, h, text, from, stack), bare)
    decreases |o| + |h|
  {
    if o == [] && h == [] {
      CharsClean(Between(text, from, |text|), bare);
    } else if TakesOriginal(o, h) {
      var k, to := Taken(o, h), o[0].offset;
      var now := OriginalOutput(o[..k], text, from, to, stack);
      OriginalClean(o[..k], text, from, to, stack, bare);
      AfterOriginalReady(o, h, text, from, stack, bare);
      MergeClean(o[k..], h, text, to, stack, stack != []);
      CleanConcat(now, MergeFrom(o[k..], h, text, to, stack), bare);
    } else {
      var e := h[0];
      var next := e.Start? || (bare && Between(text, from, e.offset) == "");
      SpanClean(e, text, from, bare);
      AfterSpanReady(o, h, text, from, stack, bare);
      MergeClean(o, h[1..], text, e.offset, Stacked(stack, e), next);
      CleanConcat(SpanOutput(e, text, from), MergeFrom(o, h[1..], text, e.offset, Stacked(stack, e)), bare);
    }
  }

  // ----- an empty span in the stream -----

  /** A start with its stop right behind it, at the same offset. */
  predicate EmptyAt(h: seq<Event>, j: nat) {
    j + 1 < |h| && h[j].Start? && h[j + 1].Stop? && h[j].offset == h[j + 1].offset
  }

  lemma {:induction false} OffsetsBetween(h: seq<Event>, from: nat, to: nat, i: nat, k: nat)
    requires Ordered(h, from, to) && i <= k < |h|
    ensures h[i].offset <= h[k].offset
    decreases i
  {
    if i == 0 {
      OffsetAtLeast(h, from, to, k);
    } else {
      OffsetsBetween(h[1..], h[0].offset, to, i - 1, k - 1);
    }
  }

  lemma {:induction false} FindEmpty(h: seq<Event>, from: nat, to: nat, i: nat, k: nat) returns (j: nat)
    requires Ordered(h, from, to) && i < k < |h| && h[i].Start? && h[k].Stop? && h[i].offset >= h[k].offset
    ensures EmptyAt(h, j)
  {
    j := i;
    while h[j + 1].Start?
      invariant i <= j < k && h[j].Start?
      decreases k - j
    {
      j := j + 1;
    }
    OffsetsBetween(h, from, to, i, j);
    OffsetsBetween(h, from, to, j, j + 1);
    OffsetsBetween(h, from, to, j + 1, k);
  }

  lemma {:induction false} OrderedTail(o: seq<Event>, k: nat, from: nat, to: nat)
    requires k <= |o| && Ordered(o, from, to)
    ensures Ordered(o[k..], if k == 0 then from else o[k - 1].offset, to)
    decreases k
  {
    if k > 0 {
      OrderedTail(o[1..], k - 1, o[0].offset, to);
      assert o[k..] == o[1..][k - 1..];
    } else {
      assert o[0..] == o;
    }
  }

  lemma {:induction false} EmptyNow(o: seq<Event>, h: seq<Event>, text: string, from: nat, stack: seq<Node>)
    requires h != [] && h[0].Stop? && h[0].offset == from && (o != [] ==> from < o[0].offset)
    ensures !Clean(MergeFrom(o, h, text, from, stack), true)
  {
    var e := h[0];
    SpanClean(e, text, from, true);
    CleanConcat(SpanOutput(e, text, from), MergeFrom(o, h[1..], text, e.offset, Stacked(stack, e)), true);
  }

  lemma {:induction false} EmptyLater(o: seq<Event>, h: seq<Event>, text: string, from: nat, stack: seq<Node>,
                                      bare: bool, j: nat)
    requires Ordered(o, from, |text|) && Ordered(h, from, |text|) && EmptyAt(h, j)
    ensures !Clean(MergeFrom(o, h, text, from, stack), bare)
    decreases |o| + |h|
  {
    if TakesOriginal(o, h) {
      var k, to := Taken(o, h), o[0].offset;
      var now := OriginalOutput(o[..k], text, from, to, stack);
      BurstEnd(o, h, to);
      OrderedTail(o, k, from, |text|);
      EmptyLater(o[k..], h, text, to, stack, BareAfter(now, bare), j);
      CleanConcat(now, MergeFrom(o[k..], h, text, to, stack), bare);
    } else {
      var e, more := h[0], h[1..];
      var now := SpanOutput(e, text, from);
      if j == 0 {
        SpanClean(e, text, from, bare);
        EmptyNow(o, more, text, e.offset, Stacked(stack, e));
      } else {
        assert EmptyAt(more, j - 1);
        EmptyLater(o, more, text, e.offset, Stacked(stack, e), BareAfter(now, bare), j - 1);
      }
      CleanConcat(now, MergeFrom(o, more, text, e.offset, Stacked(stack, e)), bare);
    }
  }

  lemma {:induction false} BurstEnd(o: seq<Event>, h: seq<Event>, offset: nat)
    requires o != [] && o[0].offset == offset
    ensures o[Taken(o, h) - 1].offset == offset
  {
    BurstOffsets(o[1..], h, offset);
  }

  /**
   Every span that is opened in the output holds a character before one is closed,
   exactly when no span of the highlighting stream is empty; original markup, however
   it lies, adds no empty spans.
   */
  lemma {:induction false} NoneEmptyIff(original: seq<Event>, spans: seq<Event>, text: string)
    requires Ordered(original, 0, |text|) && Ordered(spans, 0, |text|)
    ensures NoneEmpty(Merge(original, spans, text)) <==> NoEmptyEvent(spans)
  {
    CleanIff(Merge(original, spans, text), false);
    if NoEmptyEvent(spans) {
      MergeClean(original, spans, text, 0, [], false);
    } else {
      var i, k :| 0 <= i < k < |spans| && spans[i].Start? && spans[k].Stop? && spans[i].offset >= spans[k].offset;
      var j := FindEmpty(spans, 0, |text|, i, k);
      EmptyLater(original, spans, text, 0, [], false, j);
    }
  }
}
