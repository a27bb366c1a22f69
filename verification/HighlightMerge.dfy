/**
 The stream merge of doc/swagger/lib/highlight.9.1.0.pack.js.  Highlighting a
 piece of text loses the markup that was in it; nodeStream lists the start and
 stop events of that markup and of the highlighting spans, each with its offset
 in the text, and mergeStreams writes the text once with both.
 */
module HighlightMerge {
  import opened Sequences

  /** A DOM element's lower-case name and attributes. */
  datatype Node = Node(name: string, attributes: seq<Attribute>)

  datatype Attribute = Attribute(name: string, value: string)

  datatype Event = Start(offset: nat, node: Node) | Stop(offset: nat, node: Node)

  /** A tag or a character of the output; spans tells highlighting from original markup. */
  datatype Piece = Open(spans: bool, node: Node) | Close(spans: bool, node: Node) | Char(c: char)

  // ----- names without a closing tag -----

  predicate OccursAt(s: string, t: string, i: nat) {
    i + |t| <= |s| && s[i..i + |t|] == t
  }

  predicate Contains(s: string, t: string) {
    exists i: nat | i <= |s| :: OccursAt(s, t, i)
  }

  /** The source's test: a name that matches /br|hr|img|input/ anywhere. */
  predicate Unclosed(name: string) {
    Contains(name, "br") || Contains(name, "hr") || Contains(name, "img") || Contains(name, "input")
  }

  lemma {:induction false} ContainsIff(s: string, t: string)
    ensures Contains(s, t) <==> exists before, after :: s == before + t + after
  {
    if Contains(s, t) {
      var i: nat :| i <= |s| && OccursAt(s, t, i);
      assert s == s[..i] + t + s[i + |t|..];
    }
    if exists before, after :: s == before + t + after {
      var before, after :| s == before + t + after;
      assert OccursAt(s, t, |before|);
    }
  }

  /** The names that are taken for those of elements without a closing tag. */
  lemma {:induction false} UnclosedIff(name: string)
    ensures Unclosed(name)
       <==> exists before, middle, after ::
              name == before + middle + after
              && (middle == "br" || middle == "hr" || middle == "img" || middle == "input")
  {
    ContainsIff(name, "br");
    ContainsIff(name, "hr");
    ContainsIff(name, "img");
    ContainsIff(name, "input");
  }

  // ----- the output as text -----

  function EscapeChar(c: char): string {
    match c
    case '&' => "&amp;"
    case '<' => "&lt;"
    case '>' => "&gt;"
    case _ => [c]
  }

  function Escape(s: string): string {
    if s == "" then "" else EscapeChar(s[0]) + Escape(s[1..])
  }

  function AttributeHtml(a: Attribute): string {
    " " + a.name + "=\"" + Escape(a.value) + "\""
  }

  function AttributesHtml(attributes: seq<Attribute>): string {
    if attributes == [] then "" else AttributeHtml(attributes[0]) + AttributesHtml(attributes[1..])
  }

  function OpenHtml(n: Node): string {
    "<" + n.name + AttributesHtml(n.attributes) + ">"
  }

  function CloseHtml(n: Node): string {
    "</" + n.name + ">"
  }

  function PieceHtml(p: Piece): string {
    match p
    case Open(_, n) => OpenHtml(n)
    case Close(_, n) => CloseHtml(n)
    case Char(c) => EscapeChar(c)
  }

  function Flatten<T>(f: T -> string, xs: seq<T>): string {
    if xs == [] then "" else f(xs[0]) + Flatten(f, xs[1..])
  }

  lemma {:induction false} FlattenConcat<T>(f: T -> string, a: seq<T>, b: seq<T>)
    ensures Flatten(f, a + b) == Flatten(f, a) + Flatten(f, b)
  {
    if a == [] {
      assert a + b == b;
    } else {
      FlattenConcat(f, a[1..], b);
      assert (a + b)[1..] == a[1..] + b;
      Associate(f(a[0]), Flatten(f, a[1..]), Flatten(f, b));
    }
  }

  lemma {:induction false} FlattenOne<T>(f: T -> string, x: T)
    ensures Flatten(f, [x]) == f(x)
  {
    assert [x][1..] == [];
    assert f(x) + "" == f(x);
  }

  lemma {:induction false} FlattenCons<T>(f: T -> string, x: T, xs: seq<T>)
    ensures Flatten(f, [x] + xs) == f(x) + Flatten(f, xs)
  {
    assert ([x] + xs)[1..] == xs;
  }

  function Html(ps: seq<Piece>): string {
    Flatten(PieceHtml, ps)
  }

  function Chars(s: string): seq<Piece> {
    if s == "" then [] else [Char(s[0])] + Chars(s[1..])
  }

  lemma {:induction false} HtmlChars(s: string)
    ensures Html(Chars(s)) == Escape(s)
  {
    if s != "" {
      HtmlChars(s[1..]);
      FlattenCons(PieceHtml, Char(s[0]), Chars(s[1..]));
    }
  }

  // ----- the merge -----

  /** text.substr(from, to - from) */
  function Between(text: string, from: nat, to: nat): string {
    if from >= |text| || to <= from then ""
    else text[from..if to <= |text| then to else |text|]
  }

  /** selectStream: whether the next event is taken from the original stream */
  predicate TakesOriginal(original: seq<Event>, spans: seq<Event>) {
    if original != [] && spans != [] then
      if original[0].offset != spans[0].offset then original[0].offset < spans[0].offset
      else spans[0].Start?
    else original != []
  }

  function Tag(spans: bool, e: Event): Piece {
    if e.Start? then Open(spans, e.node) else Close(spans, e.node)
  }

  /** The open spans are closed from the innermost out, and opened again from the outermost in. */
  function Closes(stack: seq<Node>): seq<Piece> {
    if stack == [] then [] else Closes(stack[1..]) + [Close(true, stack[0])]
  }

  function Opens(stack: seq<Node>): seq<Piece> {
    if stack == [] then [] else [Open(true, stack[0])] + Opens(stack[1..])
  }

  /** How many more original events the inner loop takes at one offset. */
  function Burst(original: seq<Event>, spans: seq<Event>, offset: nat): (k: nat)
    ensures k <= |original|
    decreases original
  {
    if original != [] && TakesOriginal(original, spans) && original[0].offset == offset
    then 1 + Burst(original[1..], spans, offset)
    else 0
  }

  function Tags(events: seq<Event>): seq<Piece> {
    if events == [] then [] else [Tag(false, events[0])] + Tags(events[1..])
  }

  /** nodeStack after an event of the highlighting stream */
  function Stacked(stack: seq<Node>, e: Event): seq<Node> {
    if e.Start? then stack + [e.node] else if stack == [] then [] else stack[..|stack| - 1]
  }

  /** The original events that one iteration of the outer loop takes. */
  function Taken(original: seq<Event>, spans: seq<Event>): (k: nat)
    requires original != []
    ensures 0 < k <= |original|
  {
    1 + Burst(original[1..], spans, original[0].offset)
  }

  /** What an iteration on the original stream writes. */
  function OriginalOutput(events: seq<Event>, text: string, from: nat, to: nat, stack: seq<Node>): seq<Piece> {
    Chars(Between(text, from, to)) + Closes(stack) + Tags(events) + Opens(stack)
  }

  /** What an iteration on the highlighting stream writes. */
  function SpanOutput(e: Event, text: string, from: nat): seq<Piece> {
    Chars(Between(text, from, e.offset)) + [Tag(true, e)]
  }

  /** The output from position `from` on, with the spans in `stack` open. */
  function MergeFrom(original: seq<Event>, spans: seq<Event>, text: string, from: nat, stack: seq<Node>): seq<Piece>
    decreases |original| + |spans|
  {
    if original == [] && spans == [] then Chars(Between(text, from, |text|))
    else if TakesOriginal(original, spans) then
      var k, to := Taken(original, spans), original[0].offset;
      OriginalOutput(original[..k], text, from, to, stack) + MergeFrom(original[k..], spans, text, to, stack)
    else
      SpanOutput(spans[0], text, from)
      + MergeFrom(original, spans[1..], text, spans[0].offset, Stacked(stack, spans[0]))
  }

  function Merge(original: seq<Event>, spans: seq<Event>, text: string): seq<Piece> {
    MergeFrom(original, spans, text, 0, [])
  }

  // ----- mergeStreams itself -----

  function ClosesInOrder(s: seq<Node>): seq<Piece> {
    if s == [] then [] else [Close(true, s[0])] + ClosesInOrder(s[1..])
  }

  lemma {:induction false} ClosesReversed(s: seq<Node>)
    ensures ClosesInOrder(Reversed(s)) == Closes(s)
  {
    if s != [] {
      ClosesReversed(s[1..]);
      ClosesSnoc(Reversed(s[1..]), s[0]);
    }
  }

  lemma {:induction false} ClosesSnoc(s: seq<Node>, n: Node)
    ensures ClosesInOrder(s + [n]) == ClosesInOrder(s) + [Close(true, n)]
  {
    if s != [] {
      ClosesSnoc(s[1..], n);
      assert (s + [n])[1..] == s[1..] + [n];
    }
  }

  method MergeStreams(original: seq<Event>, highlighted: seq<Event>, text: string) returns (l: string)
    ensures l == Html(Merge(original, highlighted, text))
  {
    var o, h, processed: nat, nodeStack: seq<Node> := original, highlighted, 0, [];
    l := "";
    while o != [] || h != []
      invariant Html(Merge(original, highlighted, text)) == l + Html(MergeFrom(o, h, text, processed, nodeStack))
      decreases |o| + |h|
    {
      var out;
      if TakesOriginal(o, h) {
        var offset := o[0].offset;
        out, nodeStack, o := RenderOriginal(o, h, text, processed, nodeStack);
        Associate(l, out, Html(MergeFrom(o, h, text, offset, nodeStack)));
        processed := offset;
      } else {
        var offset := h[0].offset;
        out, nodeStack, h := RenderSpan(o, h, text, processed, nodeStack);
        Associate(l, out, Html(MergeFrom(o, h, text, offset, nodeStack)));
        processed := offset;
      }
      l := l + out;
    }
    var tail := Between(text, processed, |text|);
    HtmlChars(tail);
    l := l + Escape(tail);
  }

  /** An iteration on the original stream: the open spans are closed around its events. */
  method RenderOriginal(o: seq<Event>, h: seq<Event>, text: string, from: nat, stack: seq<Node>)
    returns (out: string, nodeStack: seq<Node>, rest: seq<Event>)
    requires TakesOriginal(o, h)
    ensures nodeStack == stack && |rest| < |o|
    ensures Html(MergeFrom(o, h, text, from, stack)) == out + Html(MergeFrom(rest, h, text, o[0].offset, nodeStack))
  {
    var offset := o[0].offset;
    var chunk := Between(text, from, offset);
    HtmlChars(chunk);
    nodeStack := Reversed(stack);
    ClosesReversed(stack);
    ReversedTwice(stack);
    var closing := CloseAll(nodeStack);
    var events;
    events, rest := RenderBurst(o, h, offset);
    nodeStack := Reversed(nodeStack);
    var reopening := OpenAll(nodeStack);
    out := Escape(chunk) + closing + events + reopening;
    ghost var now := OriginalOutput(o[..Taken(o, h)], text, from, offset, stack);
    HtmlOfOutput(Chars(chunk), Closes(stack), Tags(o[..Taken(o, h)]), Opens(stack));
    FlattenConcat(PieceHtml, now, MergeFrom(rest, h, text, offset, stack));
  }

  /** An iteration on the highlighting stream. */
  method RenderSpan(o: seq<Event>, h: seq<Event>, text: string, from: nat, stack: seq<Node>)
    returns (out: string, nodeStack: seq<Node>, rest: seq<Event>)
    requires h != [] && !TakesOriginal(o, h)
    ensures nodeStack == Stacked(stack, h[0]) && rest == h[1..]
    ensures Html(MergeFrom(o, h, text, from, stack)) == out + Html(MergeFrom(o, rest, text, h[0].offset, nodeStack))
  {
    var e := h[0];
    var chunk := Between(text, from, e.offset);
    HtmlChars(chunk);
    FlattenConcat(PieceHtml, Chars(chunk), [Tag(true, e)]);
    FlattenOne(PieceHtml, Tag(true, e));
    FlattenConcat(PieceHtml, SpanOutput(e, text, from), MergeFrom(o, h[1..], text, e.offset, Stacked(stack, e)));
    nodeStack := Stacked(stack, e);
    out := Escape(chunk) + PieceHtml(Tag(true, e));
    rest := h[1..];
  }

  /** The do-while loop: events of the original stream at one offset. */
  method RenderBurst(original: seq<Event>, highlighted: seq<Event>, offset: nat)
    returns (l: string, rest: seq<Event>)
    requires original != []
    requires offset == original[0].offset
    ensures var k := Taken(original, highlighted);
            rest == original[k..] && l == Html(Tags(original[..k]))
  {
    l, rest := PieceHtml(Tag(false, original[0])), original[1..];
    ghost var done := 1;
    assert original[..1] == [original[0]] && Tags(original[..1]) == [Tag(false, original[0])];
    FlattenOne(PieceHtml, Tag(false, original[0]));
    while TakesOriginal(rest, highlighted) && rest[0].offset == offset
      invariant 1 <= done <= |original| && rest == original[done..]
      invariant done + Burst(rest, highlighted, offset) == 1 + Burst(original[1..], highlighted, offset)
      invariant l == Html(Tags(original[..done]))
      decreases rest
    {
      TagsSnoc(original, done);
      l := l + PieceHtml(Tag(false, rest[0]));
      rest := rest[1..];
      done := done + 1;
    }
  }

  lemma {:induction false} TagsSnoc(events: seq<Event>, k: nat)
    requires k < |events|
    ensures Html(Tags(events[..k + 1])) == Html(Tags(events[..k])) + PieceHtml(Tag(false, events[k]))
  {
    assert events[..k + 1] == events[..k] + [events[k]];
    TagsConcat(events[..k], [events[k]]);
    assert Tags([events[k]]) == [Tag(false, events[k])];
    FlattenConcat(PieceHtml, Tags(events[..k]), [Tag(false, events[k])]);
    FlattenOne(PieceHtml, Tag(false, events[k]));
  }

  lemma {:induction false} TagsConcat(a: seq<Event>, b: seq<Event>)
    ensures Tags(a + b) == Tags(a) + Tags(b)
  {
    if a == [] {
      assert a + b == b;
    } else {
      TagsConcat(a[1..], b);
      assert (a + b)[1..] == a[1..] + b;
      Associate([Tag(false, a[0])], Tags(a[1..]), Tags(b));
    }
  }

  method CloseAll(nodes: seq<Node>) returns (l: string)
    ensures l == Html(ClosesInOrder(nodes))
  {
    l := "";
    assert nodes[0..] == nodes;
    for i := 0 to |nodes|
      invariant Html(ClosesInOrder(nodes)) == l + Html(ClosesInOrder(nodes[i..]))
    {
      assert nodes[i..][0] == nodes[i] && nodes[i..][1..] == nodes[i + 1..];
      FlattenCons(PieceHtml, Close(true, nodes[i]), ClosesInOrder(nodes[i + 1..]));
      Associate(l, PieceHtml(Close(true, nodes[i])), Html(ClosesInOrder(nodes[i + 1..])));
      l := l + CloseHtml(nodes[i]);
    }
  }

  method OpenAll(nodes: seq<Node>) returns (l: string)
    ensures l == Html(Opens(nodes))
  {
    l := "";
    assert nodes[0..] == nodes;
    for i := 0 to |nodes|
      invariant Html(Opens(nodes)) == l + Html(Opens(nodes[i..]))
    {
      assert nodes[i..][0] == nodes[i] && nodes[i..][1..] == nodes[i + 1..];
      FlattenCons(PieceHtml, Open(true, nodes[i]), Opens(nodes[i + 1..]));
      Associate(l, PieceHtml(Open(true, nodes[i])), Html(Opens(nodes[i + 1..])));
      l := l + OpenHtml(nodes[i]);
    }
  }

  lemma {:induction false} HtmlOfOutput(a: seq<Piece>, b: seq<Piece>, c: seq<Piece>, d: seq<Piece>)
    ensures Html(a + b + c + d) == Html(a) + Html(b) + Html(c) + Html(d)
  {
    FlattenConcat(PieceHtml, a + b + c, d);
    FlattenConcat(PieceHtml, a + b, c);
    FlattenConcat(PieceHtml, a, b);
  }

  // ----- what a reader of the output sees -----

  datatype Mark = Mark(spans: bool, node: Node)

  /** The elements that enclose each character, and those still open at the end. */
  datatype Reading = Malformed | Reading(cover: seq<(char, seq<Mark>)>, open: seq<Mark>)

  type Voids = Node -> bool

  /**
   Reads the output with a stack of open elements.  A closing tag that does not
   match the innermost open element is malformed; void elements are never open.
   */
  function Read(void: Voids, ps: seq<Piece>, open: seq<Mark>): Reading
    decreases ps
  {
    if ps == [] then Reading([], open)
    else match ps[0]
      case Open(spans, n) => Read(void, ps[1..], if void(n) then open else open + [Mark(spans, n)])
      case Close(spans, n) =>
        if open != [] && open[|open| - 1] == Mark(spans, n) then Read(void, ps[1..], open[..|open| - 1])
        else Malformed
      case Char(c) =>
        match Read(void, ps[1..], open)
        case Malformed => Malformed
        case Reading(cover, rest) => Reading([(c, open)] + cover, rest)
  }

  function Join(a: Reading, b: Reading): Reading {
    if a.Malformed? || b.Malformed? then Malformed else Reading(a.cover + b.cover, b.open)
  }

  lemma {:induction false} ReadConcat(void: Voids, a: seq<Piece>, b: seq<Piece>, open: seq<Mark>)
    ensures Read(void, a + b, open)
         == match Read(void, a, open)
            case Malformed => Malformed
            case Reading(cover, rest) => Join(Reading(cover, rest), Read(void, b, rest))
    decreases a
  {
    if a == [] {
      assert a + b == b;
      if Read(void, b, open).Reading? {
        assert [] + Read(void, b, open).cover == Read(void, b, open).cover;
      }
    } else {
      assert (a + b)[1..] == a[1..] + b;
      match a[0]
      case Open(spans, n) => ReadConcat(void, a[1..], b, if void(n) then open else open + [Mark(spans, n)]);
      case Close(spans, n) =>
        if open != [] && open[|open| - 1] == Mark(spans, n) {
          ReadConcat(void, a[1..], b, open[..|open| - 1]);
        }
      case Char(c) =>
        ReadConcat(void, a[1..], b, open);
        var r := Read(void, a[1..], open);
        if r.Reading? && Read(void, b, r.open).Reading? {
          assert [(c, open)] + (r.cover + Read(void, b, r.open).cover)
              == [(c, open)] + r.cover + Read(void, b, r.open).cover;
        }
    }
  }

  // ----- well-nested streams -----

  /** The elements open after an event. */
  function AfterEvent(void: Voids, e: Event, open: seq<Node>): seq<Node> {
    if e.Start? then if void(e.node) then open else open + [e.node]
    else if open == [] then [] else open[..|open| - 1]
  }

  /** Each stop event is for the innermost open element, and none is open at the end. */
  predicate Nested(void: Voids, events: seq<Event>, open: seq<Node>)
    decreases events
  {
    if events == [] then open == []
    else
      && (events[0].Stop? ==> open != [] && open[|open| - 1] == events[0].node)
      && Nested(void, events[1..], AfterEvent(void, events[0], open))
  }

  /** Offsets never decrease, from `from` up to `to`. */
  predicate Ordered(events: seq<Event>, from: nat, to: nat)
    decreases events
  {
    events != [] ==> from <= events[0].offset <= to && Ordered(events[1..], events[0].offset, to)
  }

  /** The elements of a stream that are open around the character at position p. */
  function OpenAt(void: Voids, events: seq<Event>, open: seq<Node>, p: nat): seq<Node>
    decreases events
  {
    if events == [] || events[0].offset > p then open
    else OpenAt(void, events[1..], AfterEvent(void, events[0], open), p)
  }

  predicate NoVoids(void: Voids, events: seq<Event>) {
    forall i | 0 <= i < |events| :: !void(events[i].node)
  }

  predicate NoVoidNodes(void: Voids, nodes: seq<Node>) {
    forall i | 0 <= i < |nodes| :: !void(nodes[i])
  }

  function Marks(spans: bool, nodes: seq<Node>): (ms: seq<Mark>)
    ensures |ms| == |nodes| && forall i | 0 <= i < |nodes| :: ms[i] == Mark(spans, nodes[i])
  {
    seq(|nodes|, i requires 0 <= i < |nodes| => Mark(spans, nodes[i]))
  }

  /** Original elements outside, highlighting spans inside. */
  function Enclosing(outer: seq<Node>, inner: seq<Node>): seq<Mark> {
    Marks(false, outer) + Marks(true, inner)
  }

  /** The characters of a string, all enclosed alike. */
  function Cover(s: string, open: seq<Mark>): (c: seq<(char, seq<Mark>)>)
    ensures |c| == |s| && forall i | 0 <= i < |s| :: c[i] == (s[i], open)
  {
    seq(|s|, i requires 0 <= i < |s| => (s[i], open))
  }

  lemma {:induction false} ReadChars(void: Voids, s: string, open: seq<Mark>)
    ensures Read(void, Chars(s), open) == Reading(Cover(s, open), open)
  {
    if s != "" {
      ReadChars(void, s[1..], open);
      assert Chars(s)[1..] == Chars(s[1..]);
      assert [(s[0], open)] + Cover(s[1..], open) == Cover(s, open);
    }
  }

  lemma {:induction false} ReadCloses(void: Voids, below: seq<Mark>, inner: seq<Node>)
    ensures Read(void, Closes(inner), below + Marks(true, inner)) == Reading([], below)
    decreases inner
  {
    if inner == [] {
      assert below + Marks(true, inner) == below;
    } else {
      var open := below + Marks(true, inner);
      var next := below + [Mark(true, inner[0])];
      assert open == next + Marks(true, inner[1..]);
      ReadCloses(void, next, inner[1..]);
      ReadConcat(void, Closes(inner[1..]), [Close(true, inner[0])], open);
      assert next[..|below|] == below;
      assert [Close(true, inner[0])][1..] == [];
    }
  }

  lemma {:induction false} ReadOpens(void: Voids, below: seq<Mark>, inner: seq<Node>)
    requires NoVoidNodes(void, inner)
    ensures Read(void, Opens(inner), below) == Reading([], below + Marks(true, inner))
    decreases inner
  {
    if inner == [] {
      assert below + Marks(true, inner) == below;
    } else {
      assert Opens(inner)[1..] == Opens(inner[1..]);
      ReadOpens(void, below + [Mark(true, inner[0])], inner[1..]);
      assert below + [Mark(true, inner[0])] + Marks(true, inner[1..]) == below + Marks(true, inner);
    }
  }

  // ----- the merge is correct -----

  /** What the output must say from position `from` on. */
  function Expected(void: Voids, o: seq<Event>, outer: seq<Node>, h: seq<Event>, inner: seq<Node>, text: string,
                    from: nat)
    : seq<(char, seq<Mark>)>
    requires from <= |text|
  {
    seq(|text| - from,
        i requires 0 <= i < |text| - from =>
          (text[from + i], Enclosing(OpenAt(void, o, outer, from + i), OpenAt(void, h, inner, from + i))))
  }

  /** The state of a merge: both streams nested and ordered from `from` on. */
  predicate Mergeable(void: Voids, o: seq<Event>, outer: seq<Node>, h: seq<Event>, inner: seq<Node>, text: string,
                      from: nat) {
    && from <= |text|
    && Ordered(o, from, |text|) && Ordered(h, from, |text|)
    && Nested(void, o, outer) && Nested(void, h, inner)
    && NoVoids(void, h) && NoVoidNodes(void, inner)
  }

  /** The characters up to the next event are enclosed by what is open now. */
  lemma {:induction false} ReadGap(void: Voids, o: seq<Event>, outer: seq<Node>, h: seq<Event>, inner: seq<Node>,
                                   text: string, from: nat, to: nat)
    requires from <= to <= |text|
    requires o != [] ==> to <= o[0].offset
    requires h != [] ==> to <= h[0].offset
    ensures Read(void, Chars(Between(text, from, to)), Enclosing(outer, inner))
         == Reading(Expected(void, o, outer, h, inner, text, from)[..to - from], Enclosing(outer, inner))
  {
    var chunk, open := Between(text, from, to), Enclosing(outer, inner);
    ReadChars(void, chunk, open);
    assert |chunk| == to - from;
    var cover := Expected(void, o, outer, h, inner, text, from)[..to - from];
    assert cover == Cover(chunk, open) by {
      forall i | 0 <= i < to - from
        ensures cover[i] == (chunk[i], open)
      {
        assert OpenAt(void, o, outer, from + i) == outer;
        assert OpenAt(void, h, inner, from + i) == inner;
      }
    }
  }

  lemma {:induction false} ReadEvent(void: Voids, e: Event, below: seq<Mark>, open: seq<Node>, spans: bool)
    requires e.Stop? ==> open != [] && open[|open| - 1] == e.node
    ensures Read(void, [Tag(spans, e)], below + Marks(spans, open))
         == Reading([], below + Marks(spans, AfterEvent(void, e, open)))
  {
    var now, after := below + Marks(spans, open), AfterEvent(void, e, open);
    assert [Tag(spans, e)][1..] == [];
    if e.Stop? {
      assert now[|now| - 1] == Mark(spans, e.node);
      assert now[..|now| - 1] == below + Marks(spans, after);
    } else if !void(e.node) {
      assert now + [Mark(spans, e.node)] == below + Marks(spans, after);
    }
  }

  function AfterAll(void: Voids, events: seq<Event>, open: seq<Node>): seq<Node>
    decreases events
  {
    if events == [] then open else AfterAll(void, events[1..], AfterEvent(void, events[0], open))
  }

  lemma {:induction false} NestedAfter(void: Voids, o: seq<Event>, k: nat, open: seq<Node>)
    requires k <= |o| && Nested(void, o, open)
    ensures Nested(void, o[k..], AfterAll(void, o[..k], open))
    decreases k
  {
    if k == 0 {
      assert o[..0] == [] && o[0..] == o;
    } else {
      assert o[..k][1..] == o[1..][..k - 1] && o[k..] == o[1..][k - 1..];
      NestedAfter(void, o[1..], k - 1, AfterEvent(void, o[0], open));
    }
  }

  lemma {:induction false} OpenAfterBurst(void: Voids, o: seq<Event>, k: nat, open: seq<Node>, p: nat)
    requires k <= |o| && forall i | 0 <= i < k :: o[i].offset <= p
    ensures OpenAt(void, o, open, p) == OpenAt(void, o[k..], AfterAll(void, o[..k], open), p)
    decreases k
  {
    if k == 0 {
      assert o[..0] == [] && o[0..] == o;
    } else {
      assert o[..k][1..] == o[1..][..k - 1] && o[k..] == o[1..][k - 1..];
      OpenAfterBurst(void, o[1..], k - 1, AfterEvent(void, o[0], open), p);
    }
  }

  /** Each stop event is for the innermost open element. */
  predicate Matched(void: Voids, events: seq<Event>, open: seq<Node>)
    decreases events
  {
    events != [] ==>
      && (events[0].Stop? ==> open != [] && open[|open| - 1] == events[0].node)
      && Matched(void, events[1..], AfterEvent(void, events[0], open))
  }

  lemma {:induction false} MatchedPrefix(void: Voids, o: seq<Event>, k: nat, open: seq<Node>)
    requires k <= |o| && Nested(void, o, open)
    ensures Matched(void, o[..k], open)
    decreases k
  {
    if k > 0 {
      assert o[..k][1..] == o[1..][..k - 1];
      MatchedPrefix(void, o[1..], k - 1, AfterEvent(void, o[0], open));
    }
  }

  /** A burst of original events, read with only original elements open. */
  lemma {:induction false} ReadBurst(void: Voids, events: seq<Event>, open: seq<Node>)
    requires Matched(void, events, open)
    ensures Read(void, Tags(events), Marks(false, open)) == Reading([], Marks(false, AfterAll(void, events, open)))
    decreases events
  {
    if events != [] {
      var e := events[0];
      var next := AfterEvent(void, e, open);
      ReadBurst(void, events[1..], next);
      assert [] + Marks(false, open) == Marks(false, open) && [] + Marks(false, next) == Marks(false, next);
      ReadEvent(void, e, [], open, false);
      ReadConcat(void, [Tag(false, e)], Tags(events[1..]), Marks(false, open));
    }
  }

  lemma {:induction false} BurstOffsets(o: seq<Event>, h: seq<Event>, offset: nat)
    ensures forall i | 0 <= i < Burst(o, h, offset) :: o[i].offset == offset
    decreases o
  {
    if Burst(o, h, offset) > 0 {
      BurstOffsets(o[1..], h, offset);
      forall i | 0 <= i < Burst(o, h, offset)
        ensures o[i].offset == offset
      {
        assert i > 0 ==> o[i] == o[1..][i - 1];
      }
    }
  }

  /**
   From any reachable state of the merge: the rest of the output is well formed,
   closes everything, and encloses each character by exactly the original
   elements and, inside them, the highlighting spans that are open there.
   */
  lemma {:induction false} MergeFromCorrect(void: Voids, o: seq<Event>, outer: seq<Node>, h: seq<Event>,
                                            inner: seq<Node>,
                                            text: string, from: nat)
    requires Mergeable(void, o, outer, h, inner, text, from)
    ensures Read(void, MergeFrom(o, h, text, from, inner), Enclosing(outer, inner))
         == Reading(Expected(void, o, outer, h, inner, text, from), [])
    decreases |o| + |h|
  {
    if o == [] && h == [] {
      ReadGap(void, o, outer, h, inner, text, from, |text|);
      var all := Expected(void, o, outer, h, inner, text, from);
      assert all[..|text| - from] == all;
      assert Enclosing(outer, inner) == [];
    } else if TakesOriginal(o, h) {
      OriginalStep(void, o, outer, h, inner, text, from);
    } else {
      SpanStep(void, o, outer, h, inner, text, from);
    }
  }

  /** The output of one iteration, followed by the rest. */
  lemma {:induction false} JoinReading(void: Voids, now: seq<Piece>, rest: seq<Piece>, open: seq<Mark>, next: seq<Mark>,
                    cover: seq<(char, seq<Mark>)>, more: seq<(char, seq<Mark>)>)
    requires Read(void, now, open) == Reading(cover, next)
    requires Read(void, rest, next) == Reading(more, [])
    ensures Read(void, now + rest, open) == Reading(cover + more, [])
  {
    ReadConcat(void, now, rest, open);
  }

  lemma {:induction false} SpanStep(void: Voids, o: seq<Event>, outer: seq<Node>, h: seq<Event>, inner: seq<Node>,
                                    text: string, from: nat)
    requires Mergeable(void, o, outer, h, inner, text, from) && h != [] && !TakesOriginal(o, h)
    ensures Read(void, MergeFrom(o, h, text, from, inner), Enclosing(outer, inner))
         == Reading(Expected(void, o, outer, h, inner, text, from), [])
    decreases |o| + |h|, 0
  {
    var e := h[0];
    var next := Stacked(inner, e);
    ReadSpan(void, o, outer, h, inner, text, from);
    AfterSpan(void, o, outer, h, inner, text, from);
    MergeFromCorrect(void, o, outer, h[1..], next, text, e.offset);
    JoinReading(void, SpanOutput(e, text, from), MergeFrom(o, h[1..], text, e.offset, next), Enclosing(outer, inner),
                Enclosing(outer, next),
                Expected(void, o, outer, h, inner, text, from)[..e.offset - from],
                Expected(void, o, outer, h[1..], next, text, e.offset));
    SplitExpected(void, o, outer, h, inner, o, outer, h[1..], next, text, from, e.offset);
  }

  lemma {:induction false} ReadSpan(void: Voids, o: seq<Event>, outer: seq<Node>, h: seq<Event>, inner: seq<Node>,
                                    text: string, from: nat)
    requires Mergeable(void, o, outer, h, inner, text, from) && h != [] && !TakesOriginal(o, h)
    ensures var e := h[0];
            Read(void, SpanOutput(e, text, from), Enclosing(outer, inner))
            == Reading(Expected(void, o, outer, h, inner, text, from)[..e.offset - from],
                       Enclosing(outer, Stacked(inner, e)))
  {
    var e, open := h[0], Enclosing(outer, inner);
    assert Stacked(inner, e) == AfterEvent(void, e, inner);
    ReadGap(void, o, outer, h, inner, text, from, e.offset);
    ReadEvent(void, e, Marks(false, outer), inner, true);
    ReadTwo(void, Chars(Between(text, from, e.offset)), [Tag(true, e)], open, Enclosing(outer, Stacked(inner, e)),
            Expected(void, o, outer, h, inner, text, from)[..e.offset - from]);
  }

  lemma {:induction false} ReadTwo(void: Voids, gap: seq<Piece>, tag: seq<Piece>, open: seq<Mark>, next: seq<Mark>,
                                   cover: seq<(char, seq<Mark>)>)
    requires Read(void, gap, open) == Reading(cover, open) && Read(void, tag, open) == Reading([], next)
    ensures Read(void, gap + tag, open) == Reading(cover, next)
  {
    ReadConcat(void, gap, tag, open);
    assert cover + [] == cover;
  }

  lemma {:induction false} AfterSpan(void: Voids, o: seq<Event>, outer: seq<Node>, h: seq<Event>, inner: seq<Node>,
                                     text: string, from: nat)
    requires Mergeable(void, o, outer, h, inner, text, from) && h != [] && !TakesOriginal(o, h)
    ensures var e := h[0];
            && Mergeable(void, o, outer, h[1..], Stacked(inner, e), text, e.offset)
            && forall p: nat | p >= e.offset ::
                 OpenAt(void, h, inner, p) == OpenAt(void, h[1..], Stacked(inner, e), p)
  {
    assert Stacked(inner, h[0]) == AfterEvent(void, h[0], inner);
  }

  lemma {:induction false} OriginalStep(void: Voids, o: seq<Event>, outer: seq<Node>, h: seq<Event>, inner: seq<Node>,
                                        text: string, from: nat)
    requires Mergeable(void, o, outer, h, inner, text, from) && o != [] && TakesOriginal(o, h)
    ensures Read(void, MergeFrom(o, h, text, from, inner), Enclosing(outer, inner))
         == Reading(Expected(void, o, outer, h, inner, text, from), [])
    decreases |o| + |h|, 0
  {
    var to, k := o[0].offset, Taken(o, h);
    var next := AfterAll(void, o[..k], outer);
    BurstOfOriginal(void, o, outer, h, inner, text, from);
    ReadOriginal(void, o, outer, h, inner, text, from, k);
    AfterOriginal(void, o, outer, h, inner, text, from, k);
    MergeFromCorrect(void, o[k..], next, h, inner, text, to);
    JoinReading(void, OriginalOutput(o[..k], text, from, to, inner), MergeFrom(o[k..], h, text, to, inner),
                Enclosing(outer, inner), Enclosing(next, inner),
                Expected(void, o, outer, h, inner, text, from)[..to - from],
                Expected(void, o[k..], next, h, inner, text, to));
    SplitExpected(void, o, outer, h, inner, o[k..], next, h, inner, text, from, to);
  }

  lemma {:induction false} BurstOfOriginal(void: Voids, o: seq<Event>, outer: seq<Node>, h: seq<Event>,
                                           inner: seq<Node>, text: string, from: nat)
    requires Mergeable(void, o, outer, h, inner, text, from) && o != [] && TakesOriginal(o, h)
    ensures var to, k := o[0].offset, Taken(o, h);
            && from <= to <= |text| && Ordered(o, to, |text|) && Ordered(h, to, |text|)
            && forall i | 0 <= i < k :: o[i].offset == to
  {
    var to := o[0].offset;
    BurstOffsets(o[1..], h, to);
    forall i | 0 <= i < 1 + Burst(o[1..], h, to)
      ensures o[i].offset == to
    {
      assert i > 0 ==> o[i] == o[1..][i - 1];
    }
  }

  /** The read of one iteration on the original stream, from the reads of its four parts. */
  lemma {:induction false} ReadFour(void: Voids, gap: seq<Piece>, closes: seq<Piece>, tags: seq<Piece>,
                                    opens: seq<Piece>,
                 open: seq<Mark>, outside: seq<Mark>, moved: seq<Mark>, next: seq<Mark>, cover: seq<(char, seq<Mark>)>)
    requires Read(void, gap, open) == Reading(cover, open)
    requires Read(void, closes, open) == Reading([], outside)
    requires Read(void, tags, outside) == Reading([], moved)
    requires Read(void, opens, moved) == Reading([], next)
    ensures Read(void, gap + closes + tags + opens, open) == Reading(cover, next)
  {
    assert cover + [] == cover;
    ReadConcat(void, gap, closes, open);
    ReadConcat(void, gap + closes, tags, open);
    ReadConcat(void, gap + closes + tags, opens, open);
  }

  lemma {:induction false} ReadOriginal(void: Voids, o: seq<Event>, outer: seq<Node>, h: seq<Event>, inner: seq<Node>,
                                        text: string, from: nat, k: nat)
    requires Mergeable(void, o, outer, h, inner, text, from) && o != [] && from <= o[0].offset <= |text|
    requires h != [] ==> o[0].offset <= h[0].offset
    requires k <= |o|
    ensures var to, next := o[0].offset, AfterAll(void, o[..k], outer);
            Read(void, OriginalOutput(o[..k], text, from, to, inner), Enclosing(outer, inner))
            == Reading(Expected(void, o, outer, h, inner, text, from)[..to - from], Enclosing(next, inner))
  {
    var to, next, open := o[0].offset, AfterAll(void, o[..k], outer), Enclosing(outer, inner);
    ReadGap(void, o, outer, h, inner, text, from, to);
    ReadCloses(void, Marks(false, outer), inner);
    MatchedPrefix(void, o, k, outer);
    ReadBurst(void, o[..k], outer);
    ReadOpens(void, Marks(false, next), inner);
    ReadFour(void, Chars(Between(text, from, to)), Closes(inner), Tags(o[..k]), Opens(inner), open,
             Marks(false, outer), Marks(false, next), Enclosing(next, inner),
             Expected(void, o, outer, h, inner, text, from)[..to - from]);
  }

  lemma {:induction false} AfterOriginal(void: Voids, o: seq<Event>, outer: seq<Node>, h: seq<Event>, inner: seq<Node>,
                                         text: string, from: nat, k: nat)
    requires Mergeable(void, o, outer, h, inner, text, from) && o != [] && from <= o[0].offset <= |text|
    requires 0 < k <= |o| && Ordered(o, o[0].offset, |text|) && Ordered(h, o[0].offset, |text|)
    requires forall i | 0 <= i < k :: o[i].offset == o[0].offset
    ensures var to, next := o[0].offset, AfterAll(void, o[..k], outer);
            && Mergeable(void, o[k..], next, h, inner, text, to)
            && forall p: nat | p >= to :: OpenAt(void, o, outer, p) == OpenAt(void, o[k..], next, p)
  {
    var to, next := o[0].offset, AfterAll(void, o[..k], outer);
    NestedAfter(void, o, k, outer);
    OrderedAfter(o, k, to, |text|);
    forall p: nat | p >= to
      ensures OpenAt(void, o, outer, p) == OpenAt(void, o[k..], next, p)
    {
      OpenAfterBurst(void, o, k, outer, p);
    }
  }

  lemma {:induction false} SplitExpected(void: Voids, o: seq<Event>, outer: seq<Node>, h: seq<Event>, inner: seq<Node>,
                      o': seq<Event>, outer': seq<Node>, h': seq<Event>, inner': seq<Node>, text: string, from: nat,
                        to: nat)
    requires from <= to <= |text|
    requires forall p: nat | p >= to :: OpenAt(void, o, outer, p) == OpenAt(void, o', outer', p)
    requires forall p: nat | p >= to :: OpenAt(void, h, inner, p) == OpenAt(void, h', inner', p)
    ensures Expected(void, o, outer, h, inner, text, from)
         == Expected(void, o, outer, h, inner, text, from)[..to - from]
           + Expected(void, o', outer', h', inner', text, to)
  {
  }

  /**
   For every text and every two well-nested, ordered event streams over it, the
   merged output is well formed, is the text once its tags are removed, and
   encloses each character by the elements that enclosed it in either stream.
   */
  lemma {:induction false} MergeIsCorrect(void: Voids, original: seq<Event>, spans: seq<Event>, text: string)
    requires Ordered(original, 0, |text|) && Nested(void, original, [])
    requires Ordered(spans, 0, |text|) && Nested(void, spans, []) && NoVoids(void, spans)
    ensures var r := Read(void, Merge(original, spans, text), []);
            && r.Reading? && r.open == [] && |r.cover| == |text|
            && forall i | 0 <= i < |text| ::
                 r.cover[i] == (text[i], Enclosing(OpenAt(void, original, [], i), OpenAt(void, spans, [], i)))
  {
    MergeFromCorrect(void, original, [], spans, [], text, 0);
    assert Enclosing([], []) == [];
  }

  // ----- the original markup survives -----

  function StripSpans(ps: seq<Piece>): seq<Piece> {
    if ps == [] then []
    else if !ps[0].Char? && ps[0].spans then StripSpans(ps[1..])
    else [ps[0]] + StripSpans(ps[1..])
  }

  /** The original stream written out alone. */
  function Plain(original: seq<Event>, text: string, from: nat): seq<Piece>
    decreases original
  {
    if original == [] then Chars(Between(text, from, |text|))
    else
      var e := original[0];
      Chars(Between(text, from, e.offset)) + ([Tag(false, e)] + Plain(original[1..], text, e.offset))
  }

  lemma {:induction false} StripConcat(a: seq<Piece>, b: seq<Piece>)
    ensures StripSpans(a + b) == StripSpans(a) + StripSpans(b)
  {
    if a == [] {
      assert a + b == b;
    } else {
      StripConcat(a[1..], b);
      assert (a + b)[1..] == a[1..] + b;
      Associate([a[0]], StripSpans(a[1..]), StripSpans(b));
    }
  }

  lemma {:induction false} StripChars(s: string)
    ensures StripSpans(Chars(s)) == Chars(s)
  {
    if s != "" {
      StripChars(s[1..]);
      assert Chars(s)[1..] == Chars(s[1..]);
    }
  }

  lemma {:induction false} StripTags(events: seq<Event>)
    ensures StripSpans(Tags(events)) == Tags(events)
  {
    if events != [] {
      StripTags(events[1..]);
      assert Tags(events)[1..] == Tags(events[1..]);
    }
  }

  lemma {:induction false} StripOpens(stack: seq<Node>)
    ensures StripSpans(Opens(stack)) == []
  {
    if stack != [] {
      StripOpens(stack[1..]);
      assert Opens(stack)[1..] == Opens(stack[1..]);
    }
  }

  lemma {:induction false} StripCloses(stack: seq<Node>)
    ensures StripSpans(Closes(stack)) == []
  {
    if stack != [] {
      StripCloses(stack[1..]);
      StripConcat(Closes(stack[1..]), [Close(true, stack[0])]);
      assert [Close(true, stack[0])][1..] == [];
    }
  }

  lemma {:induction false} CharsConcat(a: string, b: string)
    ensures Chars(a + b) == Chars(a) + Chars(b)
  {
    if a == "" {
      assert a + b == b;
    } else {
      CharsConcat(a[1..], b);
      assert (a + b)[1..] == a[1..] + b;
      Associate([Char(a[0])], Chars(a[1..]), Chars(b));
    }
  }

  /** Text written up to a position before the next event belongs to that event's text. */
  lemma {:induction false} PlainFrom(o: seq<Event>, text: string, from: nat, to: nat)
    requires from <= to <= |text| && (o != [] ==> to <= o[0].offset <= |text|)
    ensures Chars(Between(text, from, to)) + Plain(o, text, to) == Plain(o, text, from)
  {
    var end := if o == [] then |text| else o[0].offset;
    assert Between(text, from, to) + Between(text, to, end) == Between(text, from, end);
    CharsConcat(Between(text, from, to), Between(text, to, end));
    if o != [] {
      Associate(Chars(Between(text, from, to)), Chars(Between(text, to, end)),
                      [Tag(false, o[0])] + Plain(o[1..], text, end));
    }
  }

  lemma {:induction false} PlainBurst(o: seq<Event>, k: nat, text: string, from: nat)
    requires k <= |o| && forall i | 0 <= i < k :: o[i].offset == from
    ensures Tags(o[..k]) + Plain(o[k..], text, from) == Plain(o, text, from)
    decreases k
  {
    if k == 0 {
      assert o[..0] == [] && o[0..] == o;
    } else {
      assert o[..k][1..] == o[1..][..k - 1] && o[k..] == o[1..][k - 1..];
      PlainBurst(o[1..], k - 1, text, from);
      Associate([Tag(false, o[0])], Tags(o[1..][..k - 1]), Plain(o[k..], text, from));
      assert Between(text, from, from) == "";
    }
  }

  /**
   Without the highlighting tags, the output is the original markup: every
   original event once, in order, and at its place in the text.
   */
  lemma {:induction false} OriginalSurvives(o: seq<Event>, h: seq<Event>, text: string, from: nat, stack: seq<Node>)
    requires from <= |text| && Ordered(o, from, |text|) && Ordered(h, from, |text|)
    ensures StripSpans(MergeFrom(o, h, text, from, stack)) == Plain(o, text, from)
    decreases |o| + |h|
  {
    if o == [] && h == [] {
      StripChars(Between(text, from, |text|));
    } else if TakesOriginal(o, h) {
      var to, k := o[0].offset, Taken(o, h);
      BurstOffsets(o[1..], h, to);
      assert forall i | 0 < i < k :: o[i] == o[1..][i - 1];
      OrderedAfter(o, k, to, |text|);
      OriginalSurvives(o[k..], h, text, to, stack);
      StripConcat(OriginalOutput(o[..k], text, from, to, stack), MergeFrom(o[k..], h, text, to, stack));
      StripOriginal(o[..k], text, from, to, stack);
      PlainBurst(o, k, text, to);
      PlainFrom(o, text, from, to);
      Associate(Chars(Between(text, from, to)), Tags(o[..k]), Plain(o[k..], text, to));
    } else {
      var e := h[0];
      OriginalSurvives(o, h[1..], text, e.offset, Stacked(stack, e));
      StripConcat(SpanOutput(e, text, from), MergeFrom(o, h[1..], text, e.offset, Stacked(stack, e)));
      StripSpan(e, text, from);
      PlainFrom(o, text, from, e.offset);
    }
  }

  lemma {:induction false} StripSpan(e: Event, text: string, from: nat)
    ensures StripSpans(SpanOutput(e, text, from)) == Chars(Between(text, from, e.offset))
  {
    StripConcat(Chars(Between(text, from, e.offset)), [Tag(true, e)]);
    StripChars(Between(text, from, e.offset));
    assert [Tag(true, e)][1..] == [];
  }

  lemma {:induction false} StripFour(a: seq<Piece>, b: seq<Piece>, c: seq<Piece>, d: seq<Piece>)
    requires StripSpans(a) == a && StripSpans(b) == [] && StripSpans(c) == c && StripSpans(d) == []
    ensures StripSpans(a + b + c + d) == a + c
  {
    StripConcat(a + b + c, d);
    StripConcat(a + b, c);
    StripConcat(a, b);
    assert a + [] == a && a + c + [] == a + c;
  }

  lemma {:induction false} StripOriginal(events: seq<Event>, text: string, from: nat, to: nat, stack: seq<Node>)
    ensures StripSpans(OriginalOutput(events, text, from, to, stack)) == Chars(Between(text, from, to)) + Tags(events)
  {
    StripChars(Between(text, from, to));
    StripCloses(stack);
    StripTags(events);
    StripOpens(stack);
    StripFour(Chars(Between(text, from, to)), Closes(stack), Tags(events), Opens(stack));
  }

  lemma {:induction false} OrderedAfter(o: seq<Event>, k: nat, from: nat, to: nat)
    requires 0 < k <= |o| && Ordered(o, from, to) && forall i | 0 <= i < k :: o[i].offset == from
    ensures Ordered(o[k..], from, to)
    decreases k
  {
    if k > 1 {
      OrderedAfter(o[1..], k - 1, from, to);
      assert o[k..] == o[1..][k - 1..];
    }
  }
}
