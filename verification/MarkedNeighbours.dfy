/**
 How far the blocks of a document depend on each other in
 doc/swagger/lib/marked.js.  One inline lexer renders them all, and its inLink
 flag is never reset, so a text that leaves an anchor open changes how bare
 addresses in later blocks are rendered.
 */
module MarkedNeighbours {
  import opened Wrappers
  import opened MarkedBlocks
  import opened MarkedAnchors
  import MarkedInline

  // ----- a document in two parts -----

  /** There is no text on both sides of the border, which would become one text. */
  predicate Apart(a: seq<Block>, b: seq<Block>) {
    a != [] && b != [] && a[|a| - 1].Text? ==> !b[0].Text?
  }

  /** The rest of a document, with the flag that its first part leaves. */
  function Continue(first: Rendered, r: Renderer, tight: bool, rest: seq<Block>): Rendered {
    if first.Stuck? then first else MarkedInline.Then(first.out, Render(r, tight, rest, first.inLink))
  }

  lemma {:induction false} ContinueStep(s: string, first: Rendered, r: Renderer, tight: bool, rest: seq<Block>)
    ensures MarkedInline.Then(s, Continue(first, r, tight, rest))
         == Continue(MarkedInline.Then(s, first), r, tight, rest)
  {
    if first.Out? {
      MarkedInline.ThenTwice(s, first.out, Render(r, tight, rest, first.inLink));
    }
  }

  lemma {:induction false} TextRunConcat(a: seq<Block>, b: seq<Block>)
    requires Apart(a, b)
    ensures a != [] ==> TextRun(a + b) == TextRun(a)
    decreases a
  {
    if a != [] {
      assert (a + b)[1..] == a[1..] + b;
      TextRunConcat(a[1..], b);
      assert a[1..] == [] ==> a[1..] + b == b;
    }
  }

  /** The first text of the first part is the first text of the whole. */
  lemma {:induction false} FirstTextConcat(a: seq<Block>, b: seq<Block>)
    requires Apart(a, b) && a != [] && a[0].Text?
    ensures var n, rest := TextRun(a[1..]), (a + b)[1..];
            && TextRun(rest) == n && rest[..n] == a[1..][..n] && rest[n..] == a[1..][n..] + b
            && Apart(a[1..][n..], b)
  {
    var n, rest := TextRun(a[1..]), (a + b)[1..];
    assert rest == a[1..] + b;
    TextRunConcat(a[1..], b);
    assert a[1..] == [] ==> rest == b;
    assert rest[n..] == a[1..][n..] + b;
  }

  lemma {:induction false} RenderConcat(r: Renderer, tight: bool, a: seq<Block>, b: seq<Block>, inLink: bool)
    requires Apart(a, b)
    ensures Render(r, tight, a + b, inLink) == Continue(Render(r, tight, a, inLink), r, tight, b)
    decreases a
  {
    if a == [] {
      assert a + b == b;
      MarkedInline.ThenNothing(Render(r, tight, b, inLink));
    } else if a[0].Text? {
      var n := TextRun(a[1..]);
      FirstTextConcat(a, b);
      var first := RenderTexts(r, tight, a[0].text + JoinTexts(a[1..][..n]), inLink);
      if first.Out? {
        RenderConcat(r, tight, a[1..][n..], b, first.inLink);
        ContinueStep(first.out, Render(r, tight, a[1..][n..], first.inLink), r, tight, b);
      }
    } else {
      assert (a + b)[1..] == a[1..] + b;
      var first := RenderBlock(r, a[0], inLink);
      if first.Out? {
        RenderConcat(r, tight, a[1..], b, first.inLink);
        ContinueStep(first.out, Render(r, tight, a[1..], first.inLink), r, tight, b);
      }
    }
  }

  // ----- when the first part does not matter to the second -----

  function Text(o: Rendered): Option<string> {
    if o.Stuck? then None else Some(o.out)
  }

  function Appended(s: string, t: Option<string>): Option<string> {
    if t.None? then None else Some(s + t.value)
  }

  // ----- the texts of a document -----

  function RowTexts(cells: seq<seq<string>>, i: nat): seq<string>
    decreases |cells| - i
  {
    if i >= |cells| then [] else cells[i] + RowTexts(cells, i + 1)
  }

  function TextsOfLeaf(pedantic: bool, leaf: Leaf): seq<string> {
    match leaf
    case Heading(_, text) => [text]
    case Table(header, _, cells) => header + RowTexts(cells, 0)
    case Html(pre, text) => if !pre && !pedantic then [text] else []
    case Paragraph(text) => [text]
    case _ => []
  }

  /** What the inline lexer is given, in order. */
  function TextsOf(pedantic: bool, blocks: seq<Block>): seq<string>
    decreases blocks
  {
    if blocks == [] then []
    else if blocks[0].Text? then
      var n := TextRun(blocks[1..]);
      [blocks[0].text + JoinTexts(blocks[1..][..n])] + TextsOf(pedantic, blocks[1..][n..])
    else TextsOfBlock(pedantic, blocks[0]) + TextsOf(pedantic, blocks[1..])
  }

  function TextsOfBlock(pedantic: bool, b: Block): seq<string>
    decreases b
  {
    match b
    case Single(leaf) => TextsOfLeaf(pedantic, leaf)
    case Text(text) => [text]
    case Quote(blocks) => TextsOf(pedantic, blocks)
    case List(_, items) => TextsOfItems(pedantic, items)
  }

  function TextsOfItems(pedantic: bool, items: seq<Item>): seq<string>
    decreases items
  {
    if items == [] then [] else TextsOf(pedantic, items[0].blocks) + TextsOfItems(pedantic, items[1..])
  }

  /** The anchors and links matched in texts, each lexed with the flag that those before it leave. */
  function MarksOfAll(rules: MarkedInline.Rules, links: MarkedInline.Links, texts: seq<string>, inLink: bool): seq<Mark>
    decreases texts
  {
    if texts == [] then []
    else
      var first := MarksOf(rules, links, texts[0], inLink);
      first + MarksOfAll(rules, links, texts[1..], FlagAfter(first, inLink))
  }

  function CourseOfAll(rules: MarkedInline.Rules, links: MarkedInline.Links, texts: seq<string>): Course
    decreases texts
  {
    if texts == [] then Unsettled
    else Before(CourseOf(rules, links, texts[0]), CourseOfAll(rules, links, texts[1..]))
  }

  lemma {:induction false} CourseConcat(rules: MarkedInline.Rules, links: MarkedInline.Links, s: seq<string>,
                                        t: seq<string>)
    ensures CourseOfAll(rules, links, s + t) == Before(CourseOfAll(rules, links, s), CourseOfAll(rules, links, t))
    decreases s
  {
    if s == [] {
      assert s + t == t;
    } else {
      assert (s + t)[1..] == s[1..] + t;
      CourseConcat(rules, links, s[1..], t);
    }
  }

  lemma {:induction false} MarksConcat(rules: MarkedInline.Rules, links: MarkedInline.Links, s: seq<string>,
                                       t: seq<string>, inLink: bool)
    ensures var marks := MarksOfAll(rules, links, s, inLink);
            MarksOfAll(rules, links, s + t, inLink) == marks + MarksOfAll(rules, links, t, FlagAfter(marks, inLink))
    decreases s
  {
    if s == [] {
      assert s + t == t;
    } else {
      assert (s + t)[1..] == s[1..] + t;
      var first := MarksOf(rules, links, s[0], inLink);
      var flag := FlagAfter(first, inLink);
      MarksConcat(rules, links, s[1..], t, flag);
      FlagAfterBoth(first, MarksOfAll(rules, links, s[1..], flag), inLink);
    }
  }

  // ----- documents outside and inside a link -----

  /** A renderer that writes a given character for each link and everything else as it is. */
  ghost predicate Plainly(r: Renderer, told: Option<char>) {
    && Tells(r.rules, r.spans, told)
    && (told.Some? ==>
          && (forall s, n, text :: r.heading(s, n, text) == s)
          && (forall s, t :: r.table(s, t) == s + t)
          && (forall s, header, align :: r.tablecell(s, header, align) == s)
          && (forall s, ordered :: r.list(s, ordered) == s)
          && Same(r.html) && Same(r.tablerow) && Same(r.paragraph) && Same(r.blockquote) && Same(r.listitem))
  }

  ghost predicate Same(f: string -> string) {
    forall s :: f(s) == s
  }

  predicate FlagFrom(r: Renderer, texts: seq<string>, inLink: bool, o: Rendered) {
    o.Out? ==> o.inLink == FlagAfter(MarksOfAll(r.rules, r.spans.links, texts, inLink), inLink)
  }

  /** What the texts of a part of a document say about its rendering outside and inside a link. */
  ghost predicate Follows(r: Renderer, texts: seq<string>, a: Rendered, b: Rendered, told: Option<char>) {
    && Related(CourseOfAll(r.rules, r.spans.links, texts), a, b, told)
    && FlagFrom(r, texts, false, a) && FlagFrom(r, texts, true, b)
  }

  lemma {:induction false} OneText(r: Renderer, text: string, told: Option<char>)
    requires Plainly(r, told)
    ensures Follows(r, [text], Inline(r, text, false), Inline(r, text, true), told)
  {
    CourseIsRight(r.rules, r.spans, text, told);
    assert [text][1..] == [];
    forall inLink | Inline(r, text, inLink).Out?
      ensures FlagFrom(r, [text], inLink, Inline(r, text, inLink))
    {
      FlagIsLastMark(r.rules, r.spans, text, inLink);
      var marks := MarksOf(r.rules, r.spans.links, text, inLink);
      assert marks + [] == marks;
    }
  }

  lemma {:induction false} FollowsMapped(r: Renderer, texts: seq<string>, a: Rendered, b: Rendered, told: Option<char>,
                                         f: string -> string)
    requires Follows(r, texts, a, b, told) && (told.Some? ==> Same(f))
    ensures Follows(r, texts, Mapped(f, a), Mapped(f, b), told)
  {
  }

  lemma {:induction false} FollowsJoined(r: Renderer, s: seq<string>, t: seq<string>, a: Rendered, b: Rendered,
                                         outside: Rendered, inside: Rendered, told: Option<char>)
    requires Follows(r, s, a, b, told) && Follows(r, t, outside, inside, told)
    ensures Follows(r, s + t, From(a, outside, inside), From(b, outside, inside), told)
  {
    CourseConcat(r.rules, r.spans.links, s, t);
    RelatedJoined(CourseOfAll(r.rules, r.spans.links, s), CourseOfAll(r.rules, r.spans.links, t), a, b, outside, inside,
                  told);
    FlagJoined(r, s, t, false, a, outside, inside);
    FlagJoined(r, s, t, true, b, outside, inside);
  }

  lemma {:induction false} FlagJoined(r: Renderer, s: seq<string>, t: seq<string>, inLink: bool, first: Rendered,
                                      outside: Rendered, inside: Rendered)
    requires FlagFrom(r, s, inLink, first) && FlagFrom(r, t, false, outside) && FlagFrom(r, t, true, inside)
    ensures FlagFrom(r, s + t, inLink, From(first, outside, inside))
  {
    if first.Out? {
      var marks := MarksOfAll(r.rules, r.spans.links, s, inLink);
      MarksConcat(r.rules, r.spans.links, s, t, inLink);
      FlagAfterBoth(marks, MarksOfAll(r.rules, r.spans.links, t, FlagAfter(marks, inLink)), inLink);
    }
  }

  function RenderCell(r: Renderer, text: string, header: bool, align: string, inLink: bool): Rendered {
    Mapped((s: string) => r.tablecell(s, header, align), Inline(r, text, inLink))
  }

  lemma {:induction false} CellFollows(r: Renderer, text: string, header: bool, align: string, told: Option<char>)
    requires Plainly(r, told)
    ensures Follows(r, [text], RenderCell(r, text, header, align, false), RenderCell(r, text, header, align, true),
                    told)
  {
    var cell := (s: string) => r.tablecell(s, header, align);
    if told.Some? {
      forall s
        ensures cell(s) == s
      {
        assert r.tablecell(s, header, align) == s;
      }
    }
    OneText(r, text, told);
    FollowsMapped(r, [text], Inline(r, text, false), Inline(r, text, true), told, cell);
  }

  lemma {:induction false} CellsStep(r: Renderer, texts: seq<string>, i: nat, header: bool, align: seq<string>,
                                     inLink: bool)
    requires i < |texts|
    ensures RenderCells(r, texts, i, header, align, inLink)
         == From(RenderCell(r, texts[i], header, AlignAt(align, i), inLink),
                 RenderCells(r, texts, i + 1, header, align, false), RenderCells(r, texts, i + 1, header, align, true))
  {
  }

  lemma {:induction false} CellsFollow(r: Renderer, texts: seq<string>, i: nat, header: bool, align: seq<string>,
                                       told: Option<char>)
    requires Plainly(r, told) && i <= |texts|
    ensures Follows(r, texts[i..], RenderCells(r, texts, i, header, align, false),
                    RenderCells(r, texts, i, header, align, true), told)
    decreases |texts| - i
  {
    if i < |texts| {
      var cell := AlignAt(align, i);
      CellsStep(r, texts, i, header, align, false);
      CellsStep(r, texts, i, header, align, true);
      CellFollows(r, texts[i], header, cell, told);
      CellsFollow(r, texts, i + 1, header, align, told);
      assert texts[i..] == [texts[i]] + texts[i + 1..];
      FollowsJoined(r, [texts[i]], texts[i + 1..], RenderCell(r, texts[i], header, cell, false),
                    RenderCell(r, texts[i], header, cell, true), RenderCells(r, texts, i + 1, header, align, false),
                    RenderCells(r, texts, i + 1, header, align, true), told);
    }
  }

  lemma {:induction false} RowFollows(r: Renderer, texts: seq<string>, header: bool, align: seq<string>,
                                      told: Option<char>)
    requires Plainly(r, told)
    ensures Follows(r, texts, RenderRow(r, texts, header, align, false), RenderRow(r, texts, header, align, true), told)
  {
    CellsFollow(r, texts, 0, header, align, told);
    assert texts[0..] == texts;
    FollowsMapped(r, texts, RenderCells(r, texts, 0, header, align, false),
                  RenderCells(r, texts, 0, header, align, true), told, r.tablerow);
  }

  lemma {:induction false} RowsFollow(r: Renderer, cells: seq<seq<string>>, i: nat, align: seq<string>,
                                      told: Option<char>)
    requires Plainly(r, told)
    ensures Follows(r, RowTexts(cells, i), RenderRows(r, cells, i, align, false), RenderRows(r, cells, i, align, true),
                    told)
    decreases |cells| - i
  {
    if i < |cells| {
      RowFollows(r, cells[i], false, align, told);
      RowsFollow(r, cells, i + 1, align, told);
      FollowsJoined(r, cells[i], RowTexts(cells, i + 1), RenderRow(r, cells[i], false, align, false),
                    RenderRow(r, cells[i], false, align, true), RenderRows(r, cells, i + 1, align, false),
                    RenderRows(r, cells, i + 1, align, true), told);
    }
  }

  /** A table is made of its head and what follows it. */
  function Tabled(r: Renderer, head: Rendered, outside: Rendered, inside: Rendered): Rendered {
    if head.Stuck? then head
    else
      var body := if head.inLink then inside else outside;
      if body.Stuck? then body else MarkedInline.Out(r.table(head.out, body.out), body.inLink)
  }

  lemma {:induction false} FollowsTabled(r: Renderer, s: seq<string>, t: seq<string>, a: Rendered, b: Rendered,
                                         outside: Rendered, inside: Rendered, told: Option<char>)
    requires Plainly(r, told) && Follows(r, s, a, b, told) && Follows(r, t, outside, inside, told)
    ensures Follows(r, s + t, Tabled(r, a, outside, inside), Tabled(r, b, outside, inside), told)
  {
    FollowsJoined(r, s, t, a, b, outside, inside, told);
    CourseConcat(r.rules, r.spans.links, s, t);
  }

  lemma {:induction false} LeafFollows(r: Renderer, leaf: Leaf, told: Option<char>)
    requires Plainly(r, told)
    ensures Follows(r, TextsOfLeaf(r.pedantic, leaf), RenderLeaf(r, leaf, false), RenderLeaf(r, leaf, true), told)
  {
    match leaf
    case Heading(depth, text) =>
      OneText(r, text, told);
      FollowsMapped(r, [text], Inline(r, text, false), Inline(r, text, true), told, s => r.heading(s, depth, text));
    case Table(header, align, cells) =>
      RowFollows(r, header, true, align, told);
      RowsFollow(r, cells, 0, align, told);
      FollowsTabled(r, header, RowTexts(cells, 0), RenderRow(r, header, true, align, false),
                    RenderRow(r, header, true, align, true), RenderRows(r, cells, 0, align, false),
                    RenderRows(r, cells, 0, align, true), told);
    case Html(pre, text) =>
      OneText(r, text, told);
      FollowsMapped(r, [text], Inline(r, text, false), Inline(r, text, true), told, r.html);
    case Paragraph(text) =>
      OneText(r, text, told);
      FollowsMapped(r, [text], Inline(r, text, false), Inline(r, text, true), told, r.paragraph);
    case _ =>
  }

  lemma {:induction false} BlockFollows(r: Renderer, b: Block, told: Option<char>)
    requires Plainly(r, told) && !b.Text?
    ensures Follows(r, TextsOfBlock(r.pedantic, b), RenderBlock(r, b, false), RenderBlock(r, b, true), told)
    decreases b
  {
    match b
    case Single(leaf) => LeafFollows(r, leaf, told);
    case Quote(blocks) =>
      DocumentFollows(r, false, blocks, told);
      FollowsMapped(r, TextsOf(r.pedantic, blocks), Render(r, false, blocks, false), Render(r, false, blocks, true),
                    told, r.blockquote);
    case List(ordered, items) =>
      ItemsFollow(r, items, told);
      FollowsMapped(r, TextsOfItems(r.pedantic, items), RenderItems(r, items, false), RenderItems(r, items, true), told,
                    (body: string) => r.list(body, ordered));
  }

  lemma {:induction false} ItemsFollow(r: Renderer, items: seq<Item>, told: Option<char>)
    requires Plainly(r, told)
    ensures Follows(r, TextsOfItems(r.pedantic, items), RenderItems(r, items, false), RenderItems(r, items, true), told)
    decreases items
  {
    if items != [] {
      var texts, tight := TextsOf(r.pedantic, items[0].blocks), !items[0].loose;
      var a, b := Render(r, tight, items[0].blocks, false), Render(r, tight, items[0].blocks, true);
      DocumentFollows(r, tight, items[0].blocks, told);
      FollowsMapped(r, texts, a, b, told, r.listitem);
      ItemsFollow(r, items[1..], told);
      FollowsJoined(r, texts, TextsOfItems(r.pedantic, items[1..]), Mapped(r.listitem, a), Mapped(r.listitem, b),
                    RenderItems(r, items[1..], false), RenderItems(r, items[1..], true), told);
    }
  }

  lemma {:induction false} TextsFollow(r: Renderer, tight: bool, text: string, told: Option<char>)
    requires Plainly(r, told)
    ensures Follows(r, [text], RenderTexts(r, tight, text, false), RenderTexts(r, tight, text, true), told)
  {
    OneText(r, text, told);
    FollowsMapped(r, [text], Inline(r, text, false), Inline(r, text, true), told, r.paragraph);
  }

  /** What the texts of a document say is right, for the flag that it leaves and for what is written. */
  lemma {:induction false} DocumentFollows(r: Renderer, tight: bool, blocks: seq<Block>, told: Option<char>)
    requires Plainly(r, told)
    ensures Follows(r, TextsOf(r.pedantic, blocks), Render(r, tight, blocks, false), Render(r, tight, blocks, true),
                    told)
    decreases blocks
  {
    if blocks != [] {
      if blocks[0].Text? {
        var n := TextRun(blocks[1..]);
        var text, rest := blocks[0].text + JoinTexts(blocks[1..][..n]), blocks[1..][n..];
        TextsFollow(r, tight, text, told);
        DocumentFollows(r, tight, rest, told);
        FollowsJoined(r, [text], TextsOf(r.pedantic, rest), RenderTexts(r, tight, text, false),
                      RenderTexts(r, tight, text, true), Render(r, tight, rest, false), Render(r, tight, rest, true),
                      told);
      } else {
        BlockFollows(r, blocks[0], told);
        DocumentFollows(r, tight, blocks[1..], told);
        FollowsJoined(r, TextsOfBlock(r.pedantic, blocks[0]), TextsOf(r.pedantic, blocks[1..]),
                      RenderBlock(r, blocks[0], false), RenderBlock(r, blocks[0], true),
                      Render(r, tight, blocks[1..], false), Render(r, tight, blocks[1..], true), told);
      }
    }
  }

  // ----- when the first part matters to the second -----

  /** What the inline lexer makes of texts: its rules, the definitions, and whether it is given HTML. */
  datatype Reading = Reading(rules: MarkedInline.Rules, links: MarkedInline.Links, pedantic: bool)

  function ReadingOf(r: Renderer): Reading {
    Reading(r.rules, r.spans.links, r.pedantic)
  }

  /** The last anchor or link that is matched in the blocks is an opening anchor. */
  predicate LeavesOpen(reading: Reading, blocks: seq<Block>, inLink: bool) {
    FlagAfter(MarksOfAll(reading.rules, reading.links, TextsOf(reading.pedantic, blocks), inLink), inLink)
  }

  /** A bare address is found before any anchor or link. */
  predicate IsSensitive(reading: Reading, blocks: seq<Block>) {
    CourseOfAll(reading.rules, reading.links, TextsOf(reading.pedantic, blocks)).Sensitive?
  }

  lemma {:induction false} FlagIsLastAnchor(r: Renderer, tight: bool, blocks: seq<Block>, inLink: bool)
    requires Render(r, tight, blocks, inLink).Out?
    ensures Render(r, tight, blocks, inLink).inLink == LeavesOpen(ReadingOf(r), blocks, inLink)
  {
    DocumentFollows(r, tight, blocks, None);
  }

  /** Without such an address, blocks come out alike outside and inside a link. */
  lemma {:induction false} InsensitiveAlike(r: Renderer, tight: bool, blocks: seq<Block>)
    requires !IsSensitive(ReadingOf(r), blocks)
    ensures Text(Render(r, tight, blocks, false)) == Text(Render(r, tight, blocks, true))
  {
    DocumentFollows(r, tight, blocks, None);
  }

  /** With one, some renderer tells: one that writes a certain character for each link. */
  function Telling(reading: Reading, told: char): Renderer {
    Renderer(reading.rules,
             MarkedInline.Renderer((target, text) => [told], (target, text) => "", (span, text) => text, reading.links),
             reading.pedantic, (s, n, text) => s, (text, lang) => "", "", s => s, (s, t) => s + t, s => s,
             (s, header, align) => s, s => s, s => s, (s, ordered) => s, s => s)
  }

  function ToldFor(reading: Reading, blocks: seq<Block>): char
    requires IsSensitive(reading, blocks)
  {
    var found := CourseOfAll(reading.rules, reading.links, TextsOf(reading.pedantic, blocks)).found;
    if found == 'a' then 'b' else 'a'
  }

  lemma {:induction false} SensitiveTold(reading: Reading, tight: bool, blocks: seq<Block>)
    requires Grammar(reading.rules) && IsSensitive(reading, blocks)
    ensures var r := Telling(reading, ToldFor(reading, blocks));
            && ReadingOf(r) == reading
            && Render(r, tight, blocks, false).Out? && Render(r, tight, blocks, true).Out?
            && Differ(Render(r, tight, blocks, false).out, Render(r, tight, blocks, true).out)
  {
    var told := ToldFor(reading, blocks);
    DocumentFollows(Telling(reading, told), tight, blocks, Some(told));
  }

  /** The blocks are rendered as they are on their own. */
  ghost predicate Alone(r: Renderer, tight: bool, before: seq<Block>, blocks: seq<Block>) {
    var first := Render(r, tight, before, false);
    first.Out? ==>
      Text(Render(r, tight, before + blocks, false)) == Appended(first.out, Text(Render(r, tight, blocks, false)))
  }

  /** They are unless an anchor is left open in front of them and they contain a bare address. */
  lemma {:induction false} AloneUnless(r: Renderer, tight: bool, before: seq<Block>, blocks: seq<Block>)
    requires Apart(before, blocks)
    requires !(LeavesOpen(ReadingOf(r), before, false) && IsSensitive(ReadingOf(r), blocks))
    ensures Alone(r, tight, before, blocks)
  {
    RenderConcat(r, tight, before, blocks, false);
    if Render(r, tight, before, false).Out? {
      FlagIsLastAnchor(r, tight, before, false);
      if Render(r, tight, before, false).inLink {
        InsensitiveAlike(r, tight, blocks);
      }
    }
  }

  /** ... and then some renderer tells. */
  lemma {:induction false} NotAlone(reading: Reading, tight: bool, before: seq<Block>, blocks: seq<Block>)
    requires Apart(before, blocks) && Grammar(reading.rules)
    requires LeavesOpen(reading, before, false) && IsSensitive(reading, blocks)
    ensures !Alone(Telling(reading, ToldFor(reading, blocks)), tight, before, blocks)
  {
    var told := ToldFor(reading, blocks);
    var r := Telling(reading, told);
    DocumentFollows(r, tight, before, Some(told));
    SensitiveTold(reading, tight, blocks);
    RenderConcat(r, tight, before, blocks, false);
    var first := Render(r, tight, before, false);
    SamePrefix(first.out, Text(Render(r, tight, blocks, true)), Text(Render(r, tight, blocks, false)));
  }

  /**
   Blocks are rendered as they are on their own, whatever the renderer, exactly
   when the last anchor or link in front of them is not an opening anchor, or no
   bare address is found in them before their first anchor or link.
   */
  lemma {:induction false} RenderedAloneIff(reading: Reading, tight: bool, before: seq<Block>, blocks: seq<Block>)
    requires Apart(before, blocks) && Grammar(reading.rules)
    ensures (forall r | ReadingOf(r) == reading :: Alone(r, tight, before, blocks))
        <==> !LeavesOpen(reading, before, false) || !IsSensitive(reading, blocks)
  {
    if LeavesOpen(reading, before, false) && IsSensitive(reading, blocks) {
      NotAlone(reading, tight, before, blocks);
      assert ReadingOf(Telling(reading, ToldFor(reading, blocks))) == reading;
    } else {
      forall r | ReadingOf(r) == reading
        ensures Alone(r, tight, before, blocks)
      {
        AloneUnless(r, tight, before, blocks);
      }
    }
  }

  lemma {:induction false} SamePrefix(s: string, t: Option<string>, u: Option<string>)
    ensures Appended(s, t) == Appended(s, u) <==> t == u
  {
    if t.Some? && u.Some? && s + t.value == s + u.value {
      assert t.value == (s + t.value)[|s|..] == (s + u.value)[|s|..] == u.value;
    }
  }

  // ----- documents without opening anchors -----

  /** No opening anchor is matched in the blocks. */
  predicate OpensNothing(reading: Reading, blocks: seq<Block>) {
    forall mark <- MarksOfAll(reading.rules, reading.links, TextsOf(reading.pedantic, blocks), false) :: !mark.Opens?
  }

  predicate Clear(o: Rendered) {
    o.Out? ==> !o.inLink
  }

  lemma {:induction false} TextsConcat(pedantic: bool, a: seq<Block>, b: seq<Block>)
    requires Apart(a, b)
    ensures TextsOf(pedantic, a + b) == TextsOf(pedantic, a) + TextsOf(pedantic, b)
    decreases a
  {
    if a == [] {
      assert a + b == b;
    } else if a[0].Text? {
      FirstTextConcat(a, b);
      TextsConcat(pedantic, a[1..][TextRun(a[1..])..], b);
    } else {
      assert (a + b)[1..] == a[1..] + b;
      TextsConcat(pedantic, a[1..], b);
    }
  }

  /** Such a document is rendered with the flag clear from start to end: after each of its parts. */
  lemma {:induction false} StaysClear(r: Renderer, tight: bool, before: seq<Block>, blocks: seq<Block>)
    requires Apart(before, blocks) && OpensNothing(ReadingOf(r), before + blocks)
    ensures Clear(Render(r, tight, before, false)) && !LeavesOpen(ReadingOf(r), before, false)
  {
    var reading := ReadingOf(r);
    var marks := MarksOfAll(reading.rules, reading.links, TextsOf(reading.pedantic, before), false);
    TextsConcat(reading.pedantic, before, blocks);
    MarksConcat(reading.rules, reading.links, TextsOf(reading.pedantic, before), TextsOf(reading.pedantic, blocks),
                false);
    assert forall mark <- marks ::
        mark in MarksOfAll(reading.rules, reading.links, TextsOf(reading.pedantic, before + blocks), false);
    if Render(r, tight, before, false).Out? {
      FlagIsLastAnchor(r, tight, before, false);
    }
  }

  /** ... so that each part is rendered as it is on its own. */
  lemma {:induction false} RenderedAlone(r: Renderer, tight: bool, before: seq<Block>, blocks: seq<Block>)
    requires Apart(before, blocks) && OpensNothing(ReadingOf(r), before + blocks)
    ensures Alone(r, tight, before, blocks)
  {
    StaysClear(r, tight, before, blocks);
    AloneUnless(r, tight, before, blocks);
  }

  // ----- equal blocks that are rendered differently -----

  const ADDRESS := "http://e.com"
  const ANCHOR := "<a href=\"x\">"
  const LINKED := MarkedInline.Address(MarkedInline.Target(ADDRESS, ""), ADDRESS)

  /** What the rules find in these two texts. */
  ghost predicate FindsAnchor(rules: MarkedInline.Rules) {
    && MarkedInline.Match(rules, ADDRESS, false) == MarkedInline.Cap(|ADDRESS|, LINKED)
    && MarkedInline.Match(rules, ADDRESS, true) == MarkedInline.Cap(|ADDRESS|, MarkedInline.Literal(ADDRESS))
    && MarkedInline.Match(rules, ANCHOR, false) == MarkedInline.Cap(|ANCHOR|, MarkedInline.Tag(ANCHOR, true, false))
  }

  lemma {:induction false} WholeText(r: Renderer, text: string, inLink: bool, action: MarkedInline.Action)
    requires text != "" && MarkedInline.Match(r.rules, text, inLink) == MarkedInline.Cap(|text|, action)
    requires action.Literal? || action.Address? || action.Tag?
    ensures Inline(r, text, inLink) == MarkedInline.Act(r.rules, r.spans, action, inLink, |text|)
  {
    var act := MarkedInline.Act(r.rules, r.spans, action, inLink, |text|);
    assert MarkedInline.Output(r.rules, r.spans, text[|text|..], act.inLink) == MarkedInline.Out("", act.inLink);
    assert act.out + "" == act.out;
  }

  /** The same paragraph becomes a link before the open anchor and stays plain after it. */
  lemma {:induction false} AnchorChangesNeighbour(r: Renderer)
    requires FindsAnchor(r.rules)
    ensures var p, a := Single(Paragraph(ADDRESS)), Single(Paragraph(ANCHOR));
            Render(r, false, [p] + [a] + [p], false)
            == MarkedInline.Out(r.paragraph(r.spans.link(MarkedInline.Target(ADDRESS, ""), ADDRESS))
                                + r.paragraph(ANCHOR) + r.paragraph(ADDRESS), true)
  {
    var p, a := Single(Paragraph(ADDRESS)), Single(Paragraph(ANCHOR));
    WholeText(r, ADDRESS, false, LINKED);
    WholeText(r, ADDRESS, true, MarkedInline.Literal(ADDRESS));
    WholeText(r, ANCHOR, false, MarkedInline.Tag(ANCHOR, true, false));
    OneParagraph(r, ADDRESS, false);
    OneParagraph(r, ADDRESS, true);
    OneParagraph(r, ANCHOR, false);
    RenderConcat(r, false, [p], [a], false);
    RenderConcat(r, false, [p] + [a], [p], false);
  }

  lemma {:induction false} OneParagraph(r: Renderer, text: string, inLink: bool)
    ensures Render(r, false, [Single(Paragraph(text))], inLink) == Mapped(r.paragraph, Inline(r, text, inLink))
  {
    var blocks, first := [Single(Paragraph(text))], Mapped(r.paragraph, Inline(r, text, inLink));
    assert RenderBlock(r, blocks[0], inLink) == first;
    if first.Out? {
      assert Render(r, false, blocks[1..], first.inLink) == MarkedInline.Out("", first.inLink);
      assert first.out + "" == first.out;
    }
  }

  /** Rules that do so on these texts, in the order of the inline lexer. */
  const RULES: MarkedInline.RuleSet :=
    MarkedInline.NO_RULES.(
      url := s => if s == ADDRESS then MarkedInline.Cap(|s|, LINKED) else MarkedInline.NoCap,
      tag := s => if s == ANCHOR then MarkedInline.Cap(|s|, MarkedInline.Tag(s, true, false)) else MarkedInline.NoCap,
      text := s => if s == "" then MarkedInline.NoCap else MarkedInline.Cap(|s|, MarkedInline.Literal(s)))

  lemma {:induction false} RulesAreSound()
    ensures MarkedInline.Sound(RULES)
  {
  }

  lemma {:induction false} RulesAreGrammar()
    ensures Grammar(RULES)
  {
    assert ADDRESS[0] == 'h' && ANCHOR[0] == '<';
  }

  lemma {:induction false} AnchorFound()
    ensures MarkedInline.Sound(RULES) && Grammar(RULES) && FindsAnchor(RULES)
  {
    RulesAreSound();
    RulesAreGrammar();
    assert ADDRESS[0] == 'h' && ANCHOR[0] == '<';
    AddressMatches(RULES, ADDRESS);
    MatchOrder(RULES, ANCHOR);
  }
}
