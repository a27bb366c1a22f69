/**
 nodeStream of doc/swagger/lib/highlight.9.1.0.pack.js, which lists the events
 of a DOM subtree, composed with the merge of two such lists.
 */
module HighlightStream {
  import opened HighlightMerge

  /** The children of an element; Other stands for comments and the like. */
  datatype Dom = Text(value: string) | Other | Element(node: Node, children: seq<Dom>)

  /** The text content of a list of siblings. */
  function TextOf(forest: seq<Dom>): string {
    if forest == [] then ""
    else match forest[0]
      case Text(value) => value + TextOf(forest[1..])
      case Other => TextOf(forest[1..])
      case Element(_, children) => TextOf(children) + TextOf(forest[1..])
  }

  /** A test on element names. */
  type Names = string -> bool

  /** The stop event, which elements with certain names do not get. */
  function Ending(lone: Names, n: Node, offset: nat): seq<Event> {
    if lone(n.name) then [] else [Stop(offset, n)]
  }

  /** The events of a list of siblings whose text starts at an offset. */
  function Events(lone: Names, forest: seq<Dom>, offset: nat): seq<Event>
    decreases forest
  {
    if forest == [] then []
    else match forest[0]
      case Text(value) => Events(lone, forest[1..], offset + |value|)
      case Other => Events(lone, forest[1..], offset)
      case Element(n, children) =>
        var end := offset + |TextOf(children)|;
        [Start(offset, n)] + Events(lone, children, offset) + Ending(lone, n, end) + Events(lone, forest[1..], end)
  }

  class NodeStream {
    var events: seq<Event>

    constructor ()
      ensures events == []
    {
      events := [];
    }

    /** The recursive walk over an element's children and their siblings. */
    method Walk(children: seq<Dom>, from: nat) returns (offset: nat)
      modifies this
      ensures events == old(events) + Events(Unclosed, children, from)
      ensures offset == from + |TextOf(children)|
      decreases children
    {
      offset := from;
      var i := 0;
      while i < |children|
        invariant i <= |children|
        invariant events + Events(Unclosed, children[i..], offset) == old(events) + Events(Unclosed, children, from)
        invariant offset + |TextOf(children[i..])| == from + |TextOf(children)|
      {
        ghost var rest := children[i..];
        assert rest[0] == children[i] && rest[1..] == children[i + 1..];
        var child := children[i];
        if child.Text? {
          offset := offset + |child.value|;
        } else if child.Element? {
          ghost var before, start := events, offset;
          events := events + [Start(offset, child.node)];
          offset := Walk(child.children, offset);
          if !Unclosed(child.node.name) {
            events := events + [Stop(offset, child.node)];
          }
          ElementEvents(Unclosed, before, child.node, start, Events(Unclosed, child.children, start), offset,
                        Events(Unclosed, rest[1..], offset));
          assert events == before + [Start(start, child.node)] + Events(Unclosed, child.children, start)
              + Ending(Unclosed, child.node, offset);
        }
        i := i + 1;
      }
    }
  }

  lemma {:induction false} ElementEvents(lone: Names, before: seq<Event>, n: Node, start: nat, inner: seq<Event>,
                                         end: nat, rest: seq<Event>)
    ensures before + ([Start(start, n)] + inner + Ending(lone, n, end) + rest)
         == before + [Start(start, n)] + inner + Ending(lone, n, end) + rest
  {
  }

  /** nodeStream: the events of a DOM element. */
  method ListEvents(children: seq<Dom>) returns (events: seq<Event>)
    ensures events == Events(Unclosed, children, 0)
  {
    var stream := new NodeStream();
    var _ := stream.Walk(children, 0);
    events := stream.events;
    assert [] + Events(Unclosed, children, 0) == Events(Unclosed, children, 0);
  }

  // ----- events followed by more events -----

  function Closing(lone: Names, n: Node, end: nat, after: seq<Event>): seq<Event> {
    if lone(n.name) then after else [Stop(end, n)] + after
  }

  /** The events of a list of siblings, followed by more events. */
  function Emit(lone: Names, forest: seq<Dom>, offset: nat, after: seq<Event>): seq<Event>
    decreases forest
  {
    if forest == [] then after
    else match forest[0]
      case Text(value) => Emit(lone, forest[1..], offset + |value|, after)
      case Other => Emit(lone, forest[1..], offset, after)
      case Element(n, children) =>
        var end := offset + |TextOf(children)|;
        [Start(offset, n)] + Emit(lone, children, offset, Closing(lone, n, end, Emit(lone, forest[1..], end, after)))
  }

  lemma {:induction false} EmitIsEvents(lone: Names, forest: seq<Dom>, offset: nat, after: seq<Event>)
    ensures Emit(lone, forest, offset, after) == Events(lone, forest, offset) + after
    decreases forest
  {
    if forest == [] {
    } else if forest[0].Text? {
      EmitIsEvents(lone, forest[1..], offset + |forest[0].value|, after);
    } else if forest[0].Other? {
      EmitIsEvents(lone, forest[1..], offset, after);
    } else {
      var n, children := forest[0].node, forest[0].children;
      var end := offset + |TextOf(children)|;
      var inner, rest := Events(lone, children, offset), Events(lone, forest[1..], end);
      EmitIsEvents(lone, forest[1..], end, after);
      EmitIsEvents(lone, children, offset, Closing(lone, n, end, rest + after));
      ClosingEnds(lone, n, offset, inner, end, rest, after);
    }
  }

  lemma {:induction false} ClosingEnds(lone: Names, n: Node, start: nat, inner: seq<Event>, end: nat, rest: seq<Event>,
                                       after: seq<Event>)
    ensures [Start(start, n)] + (inner + Closing(lone, n, end, rest + after))
         == [Start(start, n)] + inner + Ending(lone, n, end) + rest + after
  {
  }

  // ----- the events are in order -----

  lemma {:induction false} EventsOrdered(lone: Names, forest: seq<Dom>, offset: nat, after: seq<Event>, to: nat)
    requires offset + |TextOf(forest)| <= to && Ordered(after, offset + |TextOf(forest)|, to)
    ensures Ordered(Emit(lone, forest, offset, after), offset, to)
    decreases forest
  {
    if forest == [] {
    } else if forest[0].Text? {
      EventsOrdered(lone, forest[1..], offset + |forest[0].value|, after, to);
      OrderedFromEarlier(Emit(lone, forest, offset, after), offset, offset + |forest[0].value|, to);
    } else if forest[0].Other? {
      EventsOrdered(lone, forest[1..], offset, after, to);
    } else {
      var n, children := forest[0].node, forest[0].children;
      var end := offset + |TextOf(children)|;
      var rest := Emit(lone, forest[1..], end, after);
      EventsOrdered(lone, forest[1..], end, after, to);
      var closing := Closing(lone, n, end, rest);
      assert ([Stop(end, n)] + rest)[1..] == rest;
      EventsOrdered(lone, children, offset, closing, to);
      var inside := Emit(lone, children, offset, closing);
      assert ([Start(offset, n)] + inside)[1..] == inside;
    }
  }

  lemma {:induction false} OrderedFromEarlier(events: seq<Event>, from: nat, later: nat, to: nat)
    requires from <= later && Ordered(events, later, to)
    ensures Ordered(events, from, to)
  {
  }

  // ----- they are nested exactly when the name test is right -----

  /** The name test agrees with the reader about which elements are void. */
  predicate Faithful(lone: Names, void: Voids, forest: seq<Dom>) {
    forest != [] ==>
      && (forest[0].Element? ==>
            && (void(forest[0].node) <==> lone(forest[0].node.name))
            && Faithful(lone, void, forest[0].children))
      && Faithful(lone, void, forest[1..])
  }

  lemma {:induction false} EventsNested(lone: Names, void: Voids, forest: seq<Dom>, offset: nat, after: seq<Event>,
                                        open: seq<Node>)
    requires Faithful(lone, void, forest)
    ensures Nested(void, Emit(lone, forest, offset, after), open) == Nested(void, after, open)
    decreases forest
  {
    if forest == [] {
    } else if forest[0].Text? {
      EventsNested(lone, void, forest[1..], offset + |forest[0].value|, after, open);
    } else if forest[0].Other? {
      EventsNested(lone, void, forest[1..], offset, after, open);
    } else {
      var n, children := forest[0].node, forest[0].children;
      var end := offset + |TextOf(children)|;
      var rest := Emit(lone, forest[1..], end, after);
      EventsNested(lone, void, forest[1..], end, after, open);
      var inner := AfterEvent(void, Start(offset, n), open);
      EventsNested(lone, void, children, offset, Closing(lone, n, end, rest), inner);
      NestedStart(void, Start(offset, n), Emit(lone, children, offset, Closing(lone, n, end, rest)), open);
      NestedEnding(lone, void, n, end, rest, open);
    }
  }

  lemma {:induction false} NestedStart(void: Voids, e: Event, rest: seq<Event>, open: seq<Node>)
    requires e.Start?
    ensures Nested(void, [e] + rest, open) == Nested(void, rest, AfterEvent(void, e, open))
  {
    assert ([e] + rest)[1..] == rest;
  }

  lemma {:induction false} NestedEnding(lone: Names, void: Voids, n: Node, end: nat, rest: seq<Event>, open: seq<Node>)
    requires void(n) <==> lone(n.name)
    ensures Nested(void, Closing(lone, n, end, rest), AfterEvent(void, Start(end, n), open)) == Nested(void, rest, open)
  {
    if !lone(n.name) {
      assert Closing(lone, n, end, rest)[1..] == rest;
      assert (open + [n])[..|open|] == open;
    }
  }

  predicate Started(events: seq<Event>, n: Node) {
    exists i | 0 <= i < |events| :: events[i].Start? && events[i].node == n
  }

  predicate Stopped(events: seq<Event>, n: Node) {
    exists i | 0 <= i < |events| :: events[i].Stop? && events[i].node == n
  }

  lemma {:induction false} StoppedConcat(a: seq<Event>, b: seq<Event>, n: Node)
    ensures Stopped(a + b, n) <==> Stopped(a, n) || Stopped(b, n)
  {
    if Stopped(a, n) {
      var i :| 0 <= i < |a| && a[i].Stop? && a[i].node == n;
      assert (a + b)[i] == a[i];
    }
    if Stopped(b, n) {
      var i :| 0 <= i < |b| && b[i].Stop? && b[i].node == n;
      assert (a + b)[|a| + i] == b[i];
    }
  }

  lemma {:induction false} StartedConcat(a: seq<Event>, b: seq<Event>, n: Node)
    ensures Started(a + b, n) <==> Started(a, n) || Started(b, n)
  {
    if Started(a, n) {
      var i :| 0 <= i < |a| && a[i].Start? && a[i].node == n;
      assert (a + b)[i] == a[i];
    }
    if Started(b, n) {
      var i :| 0 <= i < |b| && b[i].Start? && b[i].node == n;
      assert (a + b)[|a| + i] == b[i];
    }
  }

  /** In a nested stream only elements that are not void are stopped. */
  lemma {:induction false} VoidsNeverStop(void: Voids, events: seq<Event>, open: seq<Node>, n: Node)
    requires Nested(void, events, open) && NoVoidNodes(void, open) && Stopped(events, n)
    ensures !void(n)
    decreases events
  {
    if !(events[0].Stop? && events[0].node == n) {
      StoppedConcat([events[0]], events[1..], n);
      assert events == [events[0]] + events[1..];
      VoidsNeverStop(void, events[1..], AfterEvent(void, events[0], open), n);
    }
  }

  /** In a nested stream every open element that is not void is stopped. */
  lemma {:induction false} OpenElementsStop(void: Voids, events: seq<Event>, open: seq<Node>, n: Node)
    requires Nested(void, events, open) && (n in open || (Started(events, n) && !void(n)))
    ensures Stopped(events, n)
    decreases events
  {
    if events != [] && !(events[0].Stop? && events[0].node == n) {
      assert events == [events[0]] + events[1..];
      StartedConcat([events[0]], events[1..], n);
      StoppedConcat([events[0]], events[1..], n);
      var next := AfterEvent(void, events[0], open);
      if n in open {
        assert events[0].Stop? ==> open == next + [open[|open| - 1]];
        assert n in next;
      }
      OpenElementsStop(void, events[1..], next, n);
    }
  }

  /** An element is stopped exactly when its name is not in the list. */
  lemma {:induction false} StoppedEvents(lone: Names, forest: seq<Dom>, offset: nat, n: Node)
    ensures Stopped(Events(lone, forest, offset), n) <==> Started(Events(lone, forest, offset), n) && !lone(n.name)
    decreases forest
  {
    if forest == [] {
    } else if forest[0].Text? {
      StoppedEvents(lone, forest[1..], offset + |forest[0].value|, n);
    } else if forest[0].Other? {
      StoppedEvents(lone, forest[1..], offset, n);
    } else {
      var m, children := forest[0].node, forest[0].children;
      var end := offset + |TextOf(children)|;
      StoppedEvents(lone, children, offset, n);
      StoppedEvents(lone, forest[1..], end, n);
      StartStop(lone, m, n, offset, Events(lone, children, offset), end, Events(lone, forest[1..], end));
    }
  }

  lemma {:induction false} StartStop(lone: Names, m: Node, n: Node, offset: nat, inner: seq<Event>, end: nat,
                                     rest: seq<Event>)
    ensures Started([Start(offset, m)] + inner + Ending(lone, m, end) + rest, n)
       <==> m == n || Started(inner, n) || Started(rest, n)
    ensures Stopped([Start(offset, m)] + inner + Ending(lone, m, end) + rest, n)
       <==> (m == n && !lone(m.name)) || Stopped(inner, n) || Stopped(rest, n)
  {
    var a, b, c := [Start(offset, m)], [Start(offset, m)] + inner, [Start(offset, m)] + inner + Ending(lone, m, end);
    StartedConcat(a, inner, n);
    StartedConcat(b, Ending(lone, m, end), n);
    StartedConcat(c, rest, n);
    StoppedConcat(a, inner, n);
    StoppedConcat(b, Ending(lone, m, end), n);
    StoppedConcat(c, rest, n);
    assert a[0].Start? && a[0].node == m;
    if !lone(m.name) {
      assert Ending(lone, m, end)[0].Stop? && Ending(lone, m, end)[0].node == m;
    }
  }

  lemma {:induction false} FaithfulWhenElementsAre(lone: Names, void: Voids, forest: seq<Dom>, offset: nat)
    requires forall n: Node | Started(Events(lone, forest, offset), n) :: void(n) <==> lone(n.name)
    ensures Faithful(lone, void, forest)
    decreases forest
  {
    if forest == [] {
    } else if forest[0].Text? {
      FaithfulWhenElementsAre(lone, void, forest[1..], offset + |forest[0].value|);
    } else if forest[0].Other? {
      FaithfulWhenElementsAre(lone, void, forest[1..], offset);
    } else {
      var m, children := forest[0].node, forest[0].children;
      var end := offset + |TextOf(children)|;
      forall n: Node
        ensures Started(Events(lone, forest, offset), n) <==>
                m == n || Started(Events(lone, children, offset), n) || Started(Events(lone, forest[1..], end), n)
      {
        StartStop(lone, m, n, offset, Events(lone, children, offset), end, Events(lone, forest[1..], end));
      }
      FaithfulWhenElementsAre(lone, void, children, offset);
      FaithfulWhenElementsAre(lone, void, forest[1..], end);
    }
  }

  /** nodeStream's events are well nested exactly when its name test agrees with the reader. */
  lemma {:induction false} EventsNestedIffFaithful(lone: Names, void: Voids, forest: seq<Dom>)
    ensures Nested(void, Events(lone, forest, 0), []) <==> Faithful(lone, void, forest)
  {
    var events := Events(lone, forest, 0);
    EmitIsEvents(lone, forest, 0, []);
    assert events + [] == events;
    if Faithful(lone, void, forest) {
      EventsNested(lone, void, forest, 0, [], []);
    }
    if Nested(void, events, []) {
      forall n: Node | Started(events, n)
        ensures void(n) <==> lone(n.name)
      {
        StoppedEvents(lone, forest, 0, n);
        if void(n) && Stopped(events, n) {
          VoidsNeverStop(void, events, [], n);
        }
        if !void(n) {
          OpenElementsStop(void, events, [], n);
        }
      }
      FaithfulWhenElementsAre(lone, void, forest, 0);
    }
  }

  // ----- what encloses a character -----

  /** The elements around the character at position p of the text, void ones aside. */
  function Ancestors(void: Voids, forest: seq<Dom>, p: nat): seq<Node>
    requires p < |TextOf(forest)|
    decreases forest
  {
    match forest[0]
    case Text(value) => if p < |value| then [] else Ancestors(void, forest[1..], p - |value|)
    case Other => Ancestors(void, forest[1..], p)
    case Element(n, children) =>
      if p < |TextOf(children)| then (if void(n) then [] else [n]) + Ancestors(void, children, p)
      else Ancestors(void, forest[1..], p - |TextOf(children)|)
  }

  lemma {:induction false} OpenAfterStart(void: Voids, e: Event, rest: seq<Event>, open: seq<Node>, q: nat)
    requires e.offset <= q
    ensures OpenAt(void, [e] + rest, open, q) == OpenAt(void, rest, AfterEvent(void, e, open), q)
  {
    assert ([e] + rest)[1..] == rest;
  }

  lemma {:induction false} OpenAfterEnding(lone: Names, void: Voids, n: Node, end: nat, rest: seq<Event>,
                                           open: seq<Node>, q: nat)
    requires void(n) <==> lone(n.name)
    requires end <= q
    ensures OpenAt(void, Closing(lone, n, end, rest), AfterEvent(void, Start(end, n), open), q)
         == OpenAt(void, rest, open, q)
  {
    if !lone(n.name) {
      OpenAfterStart(void, Stop(end, n), rest, open + [n], q);
      assert (open + [n])[..|open|] == open;
    }
  }

  /** Past the end of a list of siblings, its events have opened nothing. */
  lemma {:induction false} OpenPast(lone: Names, void: Voids, forest: seq<Dom>, offset: nat, after: seq<Event>,
                                    open: seq<Node>, q: nat)
    requires Faithful(lone, void, forest) && offset + |TextOf(forest)| <= q
    ensures OpenAt(void, Emit(lone, forest, offset, after), open, q) == OpenAt(void, after, open, q)
    decreases forest
  {
    if forest == [] {
    } else if forest[0].Text? {
      OpenPast(lone, void, forest[1..], offset + |forest[0].value|, after, open, q);
    } else if forest[0].Other? {
      OpenPast(lone, void, forest[1..], offset, after, open, q);
    } else {
      var n, children := forest[0].node, forest[0].children;
      var end := offset + |TextOf(children)|;
      var rest := Emit(lone, forest[1..], end, after);
      OpenAfterStart(void, Start(offset, n), Emit(lone, children, offset, Closing(lone, n, end, rest)), open, q);
      OpenPast(lone, void, children, offset, Closing(lone, n, end, rest), AfterEvent(void, Start(offset, n), open), q);
      OpenAfterEnding(lone, void, n, end, rest, open, q);
      OpenPast(lone, void, forest[1..], end, after, open, q);
    }
  }

  /** Inside a list of siblings, its events have opened the ancestors. */
  lemma {:induction false} OpenInside(lone: Names, void: Voids, forest: seq<Dom>, offset: nat, after: seq<Event>,
                                      open: seq<Node>, p: nat)
    requires Faithful(lone, void, forest) && p < |TextOf(forest)|
    requires after != [] ==> after[0].offset >= offset + |TextOf(forest)|
    ensures OpenAt(void, Emit(lone, forest, offset, after), open, offset + p) == open + Ancestors(void, forest, p)
    decreases forest
  {
    if forest[0].Text? {
      var end := offset + |forest[0].value|;
      if p < |forest[0].value| {
        FirstOffset(lone, forest[1..], end, after);
      } else {
        OpenInside(lone, void, forest[1..], end, after, open, p - |forest[0].value|);
      }
    } else if forest[0].Other? {
      OpenInside(lone, void, forest[1..], offset, after, open, p);
    } else if p < |TextOf(forest[0].children)| {
      OpenInsideChild(lone, void, forest, offset, after, open, p);
    } else {
      OpenInsideSibling(lone, void, forest, offset, after, open, p);
    }
  }

  lemma {:induction false} FirstOffset(lone: Names, forest: seq<Dom>, offset: nat, after: seq<Event>)
    requires after != [] ==> after[0].offset >= offset + |TextOf(forest)|
    ensures var events := Emit(lone, forest, offset, after); events != [] ==> events[0].offset >= offset
    decreases forest
  {
    if forest != [] && forest[0].Text? {
      FirstOffset(lone, forest[1..], offset + |forest[0].value|, after);
    } else if forest != [] && forest[0].Other? {
      FirstOffset(lone, forest[1..], offset, after);
    }
  }

  lemma {:induction false} OpenInsideChild(lone: Names, void: Voids, forest: seq<Dom>, offset: nat, after: seq<Event>,
                                           open: seq<Node>, p: nat)
    requires Faithful(lone, void, forest) && forest != [] && forest[0].Element? && p < |TextOf(forest[0].children)|
    requires after != [] ==> after[0].offset >= offset + |TextOf(forest)|
    ensures OpenAt(void, Emit(lone, forest, offset, after), open, offset + p) == open + Ancestors(void, forest, p)
    decreases forest, 0
  {
    var n, children := forest[0].node, forest[0].children;
    var end := offset + |TextOf(children)|;
    var rest := Emit(lone, forest[1..], end, after);
    var closing, inner, q := Closing(lone, n, end, rest), AfterEvent(void, Start(offset, n), open), offset + p;
    calc {
      OpenAt(void, Emit(lone, forest, offset, after), open, q);
      { UnfoldElement(lone, void, forest, offset, after, open, q); }
      OpenAt(void, Emit(lone, children, offset, closing), inner, q);
      {
        FirstOffset(lone, forest[1..], end, after);
        ClosingOffset(lone, n, end, rest);
        OpenInside(lone, void, children, offset, closing, inner, p);
      }
      inner + Ancestors(void, children, p);
      { InnerAncestors(void, n, open, Ancestors(void, children, p)); }
      open + Ancestors(void, forest, p);
    }
  }

  lemma {:induction false} OpenInsideSibling(lone: Names, void: Voids, forest: seq<Dom>, offset: nat,
                                             after: seq<Event>, open: seq<Node>, p: nat)
    requires Faithful(lone, void, forest) && forest != [] && forest[0].Element?
    requires |TextOf(forest[0].children)| <= p < |TextOf(forest)|
    requires after != [] ==> after[0].offset >= offset + |TextOf(forest)|
    ensures OpenAt(void, Emit(lone, forest, offset, after), open, offset + p) == open + Ancestors(void, forest, p)
    decreases forest, 0
  {
    var n, children := forest[0].node, forest[0].children;
    var end := offset + |TextOf(children)|;
    var rest := Emit(lone, forest[1..], end, after);
    var closing, inner, q := Closing(lone, n, end, rest), AfterEvent(void, Start(offset, n), open), offset + p;
    calc {
      OpenAt(void, Emit(lone, forest, offset, after), open, q);
      { UnfoldElement(lone, void, forest, offset, after, open, q); }
      OpenAt(void, Emit(lone, children, offset, closing), inner, q);
      { OpenPast(lone, void, children, offset, closing, inner, q); }
      OpenAt(void, closing, inner, q);
      { OpenAfterEnding(lone, void, n, end, rest, open, q); }
      OpenAt(void, rest, open, q);
      { OpenInside(lone, void, forest[1..], end, after, open, p - |TextOf(children)|); }
      open + Ancestors(void, forest, p);
    }
  }

  lemma {:induction false} UnfoldElement(lone: Names, void: Voids, forest: seq<Dom>, offset: nat, after: seq<Event>,
                                         open: seq<Node>, q: nat)
    requires forest != [] && forest[0].Element? && offset <= q
    ensures var n, children := forest[0].node, forest[0].children;
            var end := offset + |TextOf(children)|;
            var closing := Closing(lone, n, end, Emit(lone, forest[1..], end, after));
            OpenAt(void, Emit(lone, forest, offset, after), open, q)
            == OpenAt(void, Emit(lone, children, offset, closing), AfterEvent(void, Start(offset, n), open), q)
  {
    var n, children := forest[0].node, forest[0].children;
    var end := offset + |TextOf(children)|;
    OpenAfterStart(void, Start(offset, n),
                   Emit(lone, children, offset, Closing(lone, n, end, Emit(lone, forest[1..], end, after))), open, q);
  }

  lemma {:induction false} ClosingOffset(lone: Names, n: Node, end: nat, rest: seq<Event>)
    requires rest != [] ==> rest[0].offset >= end
    ensures var closing := Closing(lone, n, end, rest); closing != [] ==> closing[0].offset >= end
  {
  }

  lemma {:induction false} InnerAncestors(void: Voids, n: Node, open: seq<Node>, inside: seq<Node>)
    ensures AfterEvent(void, Start(0, n), open) + inside == open + ((if void(n) then [] else [n]) + inside)
  {
  }

  // ----- the two functions together -----

  predicate WellFormed(void: Voids, ps: seq<Piece>) {
    var r := Read(void, ps, []);
    r.Reading? && r.open == []
  }

  lemma {:induction false} EventsInOrder(lone: Names, forest: seq<Dom>)
    ensures Ordered(Events(lone, forest, 0), 0, |TextOf(forest)|)
  {
    EmitIsEvents(lone, forest, 0, []);
    assert Events(lone, forest, 0) + [] == Events(lone, forest, 0);
    EventsOrdered(lone, forest, 0, [], |TextOf(forest)|);
  }

  lemma {:induction false} OpenIsAncestors(lone: Names, void: Voids, forest: seq<Dom>, p: nat)
    requires Faithful(lone, void, forest) && p < |TextOf(forest)|
    ensures OpenAt(void, Events(lone, forest, 0), [], p) == Ancestors(void, forest, p)
  {
    EmitIsEvents(lone, forest, 0, []);
    assert Events(lone, forest, 0) + [] == Events(lone, forest, 0);
    OpenInside(lone, void, forest, 0, [], [], p);
  }

  /** What the highlighter writes for the markup of a block and its highlighted copy. */
  function Highlighted(lone: Names, original: seq<Dom>, spans: seq<Dom>): seq<Piece> {
    Merge(Events(lone, original, 0), Events(lone, spans, 0), TextOf(original))
  }

  predicate NoVoidElements(lone: Names, void: Voids, forest: seq<Dom>) {
    NoVoids(void, Events(lone, forest, 0))
  }

  /**
   Where the name test is right, every character ends up inside its own ancestors
   of the original block and, within those, of the highlighted copy.
   */
  lemma {:induction false} HighlightedCover(lone: Names, void: Voids, original: seq<Dom>, spans: seq<Dom>)
    requires TextOf(original) == TextOf(spans)
    requires Faithful(lone, void, original) && Faithful(lone, void, spans) && NoVoidElements(lone, void, spans)
    ensures WellFormed(void, Highlighted(lone, original, spans))
    ensures var cover := Read(void, Highlighted(lone, original, spans), []).cover;
            && |cover| == |TextOf(original)|
            && forall i | 0 <= i < |cover| ::
                 cover[i] == (TextOf(original)[i], Enclosing(Ancestors(void, original, i), Ancestors(void, spans, i)))
  {
    var o, h, text := Events(lone, original, 0), Events(lone, spans, 0), TextOf(original);
    EventsInOrder(lone, original);
    EventsInOrder(lone, spans);
    EventsNestedIffFaithful(lone, void, original);
    EventsNestedIffFaithful(lone, void, spans);
    MergeIsCorrect(void, o, h, text);
    forall i | 0 <= i < |text|
      ensures OpenAt(void, o, [], i) == Ancestors(void, original, i)
      ensures OpenAt(void, h, [], i) == Ancestors(void, spans, i)
    {
      OpenIsAncestors(lone, void, original, i);
      OpenIsAncestors(lone, void, spans, i);
    }
  }

  // ----- and where the name test is wrong -----

  /** The marks of the original stream among those open. */
  function Outer(marks: seq<Mark>): seq<Mark> {
    if marks == [] then []
    else if marks[|marks| - 1].spans then Outer(marks[..|marks| - 1])
    else Outer(marks[..|marks| - 1]) + [marks[|marks| - 1]]
  }

  lemma {:induction false} OuterSnoc(marks: seq<Mark>, m: Mark)
    ensures Outer(marks + [m]) == if m.spans then Outer(marks) else Outer(marks) + [m]
  {
    assert (marks + [m])[..|marks|] == marks;
  }

  /** Output that reads well still does once the spans are stripped. */
  lemma {:induction false} ReadStripped(void: Voids, ps: seq<Piece>, open: seq<Mark>)
    requires Read(void, ps, open).Reading?
    ensures var r := Read(void, StripSpans(ps), Outer(open));
            r.Reading? && r.open == Outer(Read(void, ps, open).open)
    decreases ps
  {
    if ps != [] {
      var p, rest := ps[0], StripSpans(ps[1..]);
      assert ([p] + rest)[1..] == rest;
      if p.Open? {
        if void(p.node) {
          ReadStripped(void, ps[1..], open);
        } else {
          OuterSnoc(open, Mark(p.spans, p.node));
          ReadStripped(void, ps[1..], open + [Mark(p.spans, p.node)]);
        }
      } else if p.Close? {
        var below := open[..|open| - 1];
        assert open == below + [Mark(p.spans, p.node)];
        OuterSnoc(below, Mark(p.spans, p.node));
        ReadStripped(void, ps[1..], below);
        assert (Outer(below) + [Mark(p.spans, p.node)])[..|Outer(below)|] == Outer(below);
      } else {
        ReadStripped(void, ps[1..], open);
      }
    }
  }

  /** An original stream that reads well was nested. */
  lemma {:induction false} PlainNested(void: Voids, o: seq<Event>, text: string, from: nat, open: seq<Node>)
    requires var r := Read(void, Plain(o, text, from), Marks(false, open)); r.Reading? && r.open == []
    ensures Nested(void, o, open)
    decreases o
  {
    var marks := Marks(false, open);
    if o == [] {
      ReadChars(void, Between(text, from, |text|), marks);
    } else {
      var e := o[0];
      var rest := [Tag(false, e)] + Plain(o[1..], text, e.offset);
      ReadChars(void, Between(text, from, e.offset), marks);
      ReadConcat(void, Chars(Between(text, from, e.offset)), rest, marks);
      assert rest[1..] == Plain(o[1..], text, e.offset);
      var next := AfterEvent(void, e, open);
      if e.Start? {
        assert Marks(false, next) == if void(e.node) then marks else marks + [Mark(false, e.node)];
      } else {
        assert marks[|marks| - 1] == Mark(false, e.node);
        assert Marks(false, next) == marks[..|marks| - 1];
      }
      PlainNested(void, o[1..], text, e.offset, next);
    }
  }

  /**
   The output is well-formed exactly when, for every element of the block, the
   name test agrees with the reader about whether the element is void.
   */
  lemma {:induction false} HighlightedWellFormedIff(lone: Names, void: Voids, original: seq<Dom>, spans: seq<Dom>)
    requires TextOf(original) == TextOf(spans)
    requires Faithful(lone, void, spans) && NoVoidElements(lone, void, spans)
    ensures WellFormed(void, Highlighted(lone, original, spans)) <==> Faithful(lone, void, original)
  {
    if Faithful(lone, void, original) {
      HighlightedCover(lone, void, original, spans);
    }
    var ps := Highlighted(lone, original, spans);
    if WellFormed(void, ps) {
      var o, h, text := Events(lone, original, 0), Events(lone, spans, 0), TextOf(original);
      EventsInOrder(lone, original);
      EventsInOrder(lone, spans);
      OriginalSurvives(o, h, text, 0, []);
      ReadStripped(void, ps, []);
      assert Marks(false, []) == [];
      PlainNested(void, o, text, 0, []);
      EventsNestedIffFaithful(lone, void, original);
    }
  }

  const VOID_NAMES := ["area", "base", "br", "col", "embed", "hr", "img", "input", "link", "meta", "param", "source",
                       "track", "wbr"]

  /** The void elements of HTML. */
  predicate HtmlVoid(n: Node) {
    n.name in VOID_NAMES
  }

  /** An abbreviation in the block is never closed: its name contains "br". */
  lemma {:induction false} AbbreviationStaysOpen(text: string)
    ensures !WellFormed(HtmlVoid, Highlighted(Unclosed, [Element(Node("abbr", []), [Text(text)])], [Text(text)]))
  {
    var abbr, content := Node("abbr", []), [Text(text)];
    var original := [Element(abbr, content)];
    assert OccursAt("abbr", "br", 2);
    assert original[1..] == [] && content[1..] == [];
    assert TextOf(content) == text + "";
    assert TextOf(original) == TextOf(content) + "";
    assert Events(Unclosed, content, 0) == [];
    HighlightedWellFormedIff(Unclosed, HtmlVoid, original, content);
  }
}
