/**
 The block parser of doc/swagger/lib/marked.js: it takes the flat list of tokens
 that the block lexer made and rebuilds the document by popping them one by one.
 */
module MarkedBlocks {
  import opened Sequences
  import MarkedInline

  /** Tokens that are rendered on their own. */
  datatype Leaf =
    | Space
    | Hr
    | Heading(depth: nat, text: string)
    | Code(text: string, lang: string)
    | Table(header: seq<string>, align: seq<string>, cells: seq<seq<string>>)
    | Html(pre: bool, text: string)
    | Paragraph(text: string)

  datatype Token =
    | Plain(leaf: Leaf)
    | TextToken(text: string)
    | QuoteStart | QuoteEnd
    | ListStart(ordered: bool) | ListEnd
    | ItemStart | LooseItemStart | ItemEnd

  // ----- documents -----

  datatype Block =
    | Single(leaf: Leaf)
    | Text(text: string)
    | Quote(blocks: seq<Block>)
    | List(ordered: bool, items: seq<Item>)

  datatype Item = Item(loose: bool, blocks: seq<Block>)

  function FlattenBlock(b: Block): seq<Token>
    decreases b
  {
    match b
    case Single(leaf) => [Plain(leaf)]
    case Text(text) => [TextToken(text)]
    case Quote(blocks) => [QuoteStart] + Flatten(blocks) + [QuoteEnd]
    case List(ordered, items) => [ListStart(ordered)] + FlattenItems(items) + [ListEnd]
  }

  /** The tokens of a document, nesting written as brackets. */
  function Flatten(blocks: seq<Block>): seq<Token>
    decreases blocks
  {
    if blocks == [] then [] else FlattenBlock(blocks[0]) + Flatten(blocks[1..])
  }

  function FlattenItems(items: seq<Item>): seq<Token>
    decreases items
  {
    if items == [] then []
    else [ItemOpening(items[0].loose)] + Flatten(items[0].blocks) + [ItemEnd] + FlattenItems(items[1..])
  }

  function ItemOpening(loose: bool): Token {
    if loose then LooseItemStart else ItemStart
  }

  // ----- rendering a document by its structure -----

  /** The renderer, with the rules and the spans of the inline lexer behind it. */
  datatype Renderer = Renderer(
    rules: MarkedInline.Rules,
    spans: MarkedInline.Renderer,
    pedantic: bool,
    heading: (string, nat, string) -> string,
    code: (string, string) -> string,
    hr: string,
    html: string -> string,
    table: (string, string) -> string,
    tablerow: string -> string,
    tablecell: (string, bool, string) -> string,
    paragraph: string -> string,
    blockquote: string -> string,
    list: (string, bool) -> string,
    listitem: string -> string)

  /** What is written, and the inLink flag after it. */
  type Rendered = MarkedInline.Outcome

  /** All blocks share one inline lexer, so its flag goes from each text to the next. */
  function Inline(r: Renderer, text: string, inLink: bool): Rendered {
    MarkedInline.Output(r.rules, r.spans, text, inLink)
  }

  function Mapped(f: string -> string, o: Rendered): Rendered {
    if o.Stuck? then o else MarkedInline.Out(f(o.out), o.inLink)
  }

  function AlignAt(align: seq<string>, i: nat): string {
    if i < |align| then align[i] else ""
  }

  function RenderCells(r: Renderer, texts: seq<string>, i: nat, header: bool, align: seq<string>, inLink: bool)
    : Rendered
    decreases |texts| - i
  {
    if i >= |texts| then MarkedInline.Out("", inLink)
    else
      var cell := Inline(r, texts[i], inLink);
      if cell.Stuck? then cell
      else
        MarkedInline.Then(r.tablecell(cell.out, header, AlignAt(align, i)),
                          RenderCells(r, texts, i + 1, header, align, cell.inLink))
  }

  function RenderRow(r: Renderer, texts: seq<string>, header: bool, align: seq<string>, inLink: bool): Rendered {
    Mapped(r.tablerow, RenderCells(r, texts, 0, header, align, inLink))
  }

  function RenderRows(r: Renderer, cells: seq<seq<string>>, i: nat, align: seq<string>, inLink: bool): Rendered
    decreases |cells| - i
  {
    if i >= |cells| then MarkedInline.Out("", inLink)
    else
      var row := RenderRow(r, cells[i], false, align, inLink);
      if row.Stuck? then row else MarkedInline.Then(row.out, RenderRows(r, cells, i + 1, align, row.inLink))
  }

  function RenderTable(r: Renderer, header: seq<string>, align: seq<string>, cells: seq<seq<string>>, inLink: bool)
    : Rendered
  {
    var head := RenderRow(r, header, true, align, inLink);
    if head.Stuck? then head
    else
      var body := RenderRows(r, cells, 0, align, head.inLink);
      if body.Stuck? then body else MarkedInline.Out(r.table(head.out, body.out), body.inLink)
  }

  function RenderLeaf(r: Renderer, leaf: Leaf, inLink: bool): Rendered {
    match leaf
    case Space => MarkedInline.Out("", inLink)
    case Hr => MarkedInline.Out(r.hr, inLink)
    case Heading(depth, text) =>
      var title := Inline(r, text, inLink);
      if title.Stuck? then title else MarkedInline.Out(r.heading(title.out, depth, text), title.inLink)
    case Code(text, lang) => MarkedInline.Out(r.code(text, lang), inLink)
    case Table(header, align, cells) => RenderTable(r, header, align, cells, inLink)
    case Html(pre, text) =>
      if !pre && !r.pedantic then Mapped(r.html, Inline(r, text, inLink))
      else MarkedInline.Out(r.html(text), inLink)
    case Paragraph(text) => Mapped(r.paragraph, Inline(r, text, inLink))
  }

  /** How many text blocks a list of blocks starts with. */
  function TextRun(blocks: seq<Block>): (n: nat)
    ensures n <= |blocks| && (forall i | 0 <= i < n :: blocks[i].Text?)
    ensures n < |blocks| ==> !blocks[n].Text?
  {
    if blocks == [] || !blocks[0].Text? then 0
    else
      var n := TextRun(blocks[1..]);
      assert forall i | 0 < i < 1 + n :: blocks[i] == blocks[1..][i - 1];
      1 + n
  }

  function JoinTexts(blocks: seq<Block>): string
    requires forall i | 0 <= i < |blocks| :: blocks[i].Text?
  {
    if blocks == [] then "" else "\n" + blocks[0].text + JoinTexts(blocks[1..])
  }

  /** Neighbouring texts are one text, which is a paragraph except in a tight item. */
  function RenderTexts(r: Renderer, tight: bool, text: string, inLink: bool): Rendered {
    if tight then Inline(r, text, inLink) else Mapped(r.paragraph, Inline(r, text, inLink))
  }

  function Render(r: Renderer, tight: bool, blocks: seq<Block>, inLink: bool): Rendered
    decreases blocks
  {
    if blocks == [] then MarkedInline.Out("", inLink)
    else if blocks[0].Text? then
      var n := TextRun(blocks[1..]);
      var first := RenderTexts(r, tight, blocks[0].text + JoinTexts(blocks[1..][..n]), inLink);
      if first.Stuck? then first
      else MarkedInline.Then(first.out, Render(r, tight, blocks[1..][n..], first.inLink))
    else
      var first := RenderBlock(r, blocks[0], inLink);
      if first.Stuck? then first
      else MarkedInline.Then(first.out, Render(r, tight, blocks[1..], first.inLink))
  }

  function RenderBlock(r: Renderer, b: Block, inLink: bool): Rendered
    requires !b.Text?
    decreases b
  {
    match b
    case Single(leaf) => RenderLeaf(r, leaf, inLink)
    case Quote(blocks) => Mapped(r.blockquote, Render(r, false, blocks, inLink))
    case List(ordered, items) => Mapped((body: string) => r.list(body, ordered), RenderItems(r, items, inLink))
  }

  function RenderItems(r: Renderer, items: seq<Item>, inLink: bool): Rendered
    decreases items
  {
    if items == [] then MarkedInline.Out("", inLink)
    else
      var first := Mapped(r.listitem, Render(r, !items[0].loose, items[0].blocks, inLink));
      if first.Stuck? then first else MarkedInline.Then(first.out, RenderItems(r, items[1..], first.inLink))
  }

  // ----- what the parser does with any list of tokens -----

  /** A property of undefined is read, or the inline lexer finds no rule that matches. */
  datatype Error = Undefined | InfiniteLoop

  datatype Outcome = Failed(error: Error) | Done(out: string, rest: seq<Token>, inLink: bool)

  /** Something was rendered, and tokens are left. */
  function With(o: Rendered, rest: seq<Token>): Outcome {
    if o.Stuck? then Failed(InfiniteLoop) else Done(o.out, rest, o.inLink)
  }

  function TokenRun(ts: seq<Token>): (n: nat)
    ensures n <= |ts|
  {
    if ts == [] || !ts[0].TextToken? then 0 else 1 + TokenRun(ts[1..])
  }

  /** parseText: the texts of the tokens that follow, each after a newline. */
  function FollowingTexts(ts: seq<Token>): string {
    if ts == [] || !ts[0].TextToken? then "" else "\n" + ts[0].text + FollowingTexts(ts[1..])
  }

  function Wrapped(f: string -> string, o: Outcome): Outcome {
    if o.Failed? then o else Done(f(o.out), o.rest, o.inLink)
  }

  /** What a loop wrote so far, and the outcome for the rest. */
  function After(body: string, o: Outcome): Outcome {
    if o.Failed? then o else Done(body + o.out, o.rest, o.inLink)
  }

  /** tok, with the current token first */
  function Tok(r: Renderer, ts: seq<Token>, inLink: bool): (o: Outcome)
    requires ts != []
    ensures o.Done? ==> |o.rest| < |ts|
    decreases |ts|, 0
  {
    match ts[0]
    case Plain(leaf) => With(RenderLeaf(r, leaf, inLink), ts[1..])
    case TextToken(_) => TextTok(r, false, ts, inLink)
    case QuoteStart => Wrapped(r.blockquote, Body(r, QuoteEnd, false, ts[1..], inLink))
    case ListStart(ordered) =>
      Wrapped((body: string) => r.list(body, ordered), Body(r, ListEnd, false, ts[1..], inLink))
    case ItemStart => Wrapped(r.listitem, Body(r, ItemEnd, true, ts[1..], inLink))
    case LooseItemStart => Wrapped(r.listitem, Body(r, ItemEnd, false, ts[1..], inLink))
    case QuoteEnd => Done("undefined", ts[1..], inLink)
    case ListEnd => Done("undefined", ts[1..], inLink)
    case ItemEnd => Done("undefined", ts[1..], inLink)
  }

  function TextTok(r: Renderer, tight: bool, ts: seq<Token>, inLink: bool): (o: Outcome)
    requires ts != [] && ts[0].TextToken?
    ensures o.Done? ==> |o.rest| < |ts|
  {
    With(RenderTexts(r, tight, ts[0].text + FollowingTexts(ts[1..]), inLink), ts[1..][TokenRun(ts[1..])..])
  }

  /** One round of a loop over tokens. */
  function Round(r: Renderer, tight: bool, ts: seq<Token>, inLink: bool): (o: Outcome)
    requires ts != []
    ensures o.Done? ==> |o.rest| < |ts|
    decreases |ts|, 1
  {
    if tight && ts[0].TextToken? then TextTok(r, true, ts, inLink) else Tok(r, ts, inLink)
  }

  /** A loop over tokens up to an end token; running out of tokens is an error. */
  function Body(r: Renderer, end: Token, tight: bool, ts: seq<Token>, inLink: bool): (o: Outcome)
    ensures o.Done? ==> |o.rest| < |ts|
    decreases |ts|, 2
  {
    if ts == [] then Failed(Undefined)
    else if ts[0] == end then Done("", ts[1..], inLink)
    else
      var first := Round(r, tight, ts, inLink);
      if first.Failed? then first else After(first.out, Body(r, end, tight, first.rest, first.inLink))
  }

  /** parse: the loop over all tokens */
  function Parse(r: Renderer, ts: seq<Token>, inLink: bool): Outcome
    decreases |ts|
  {
    if ts == [] then Done("", [], inLink)
    else
      var first := Tok(r, ts, inLink);
      if first.Failed? then first else After(first.out, Parse(r, first.rest, first.inLink))
  }

  // ----- tokens followed by more tokens -----

  function EmitBlock(b: Block, after: seq<Token>): seq<Token>
    decreases b
  {
    match b
    case Single(leaf) => [Plain(leaf)] + after
    case Text(text) => [TextToken(text)] + after
    case Quote(blocks) => [QuoteStart] + Emit(blocks, [QuoteEnd] + after)
    case List(ordered, items) => [ListStart(ordered)] + EmitItems(items, [ListEnd] + after)
  }

  function Emit(blocks: seq<Block>, after: seq<Token>): seq<Token>
    decreases blocks
  {
    if blocks == [] then after else EmitBlock(blocks[0], Emit(blocks[1..], after))
  }

  function EmitItems(items: seq<Item>, after: seq<Token>): seq<Token>
    decreases items
  {
    if items == [] then after
    else [ItemOpening(items[0].loose)] + Emit(items[0].blocks, [ItemEnd] + EmitItems(items[1..], after))
  }

  lemma {:induction false} EmitBlockIsFlatten(b: Block, after: seq<Token>)
    ensures EmitBlock(b, after) == FlattenBlock(b) + after
    decreases b
  {
    if b.Quote? {
      EmitIsFlatten(b.blocks, [QuoteEnd] + after);
      Associate([QuoteStart] + Flatten(b.blocks), [QuoteEnd], after);
      Associate([QuoteStart], Flatten(b.blocks), [QuoteEnd] + after);
    } else if b.List? {
      EmitItemsIsFlatten(b.items, [ListEnd] + after);
      Associate([ListStart(b.ordered)] + FlattenItems(b.items), [ListEnd], after);
      Associate([ListStart(b.ordered)], FlattenItems(b.items), [ListEnd] + after);
    }
  }

  lemma {:induction false} EmitIsFlatten(blocks: seq<Block>, after: seq<Token>)
    ensures Emit(blocks, after) == Flatten(blocks) + after
    decreases blocks
  {
    if blocks != [] {
      EmitIsFlatten(blocks[1..], after);
      EmitBlockIsFlatten(blocks[0], Flatten(blocks[1..]) + after);
      Associate(FlattenBlock(blocks[0]), Flatten(blocks[1..]), after);
    }
  }

  lemma {:induction false} EmitItemsIsFlatten(items: seq<Item>, after: seq<Token>)
    ensures EmitItems(items, after) == FlattenItems(items) + after
    decreases items
  {
    if items != [] {
      var opening, blocks := [ItemOpening(items[0].loose)], items[0].blocks;
      var rest := FlattenItems(items[1..]);
      EmitItemsIsFlatten(items[1..], after);
      EmitIsFlatten(blocks, [ItemEnd] + (rest + after));
      Associate(opening + Flatten(blocks) + [ItemEnd], rest, after);
      Associate(opening + Flatten(blocks), [ItemEnd], rest + after);
      Associate(opening, Flatten(blocks), [ItemEnd] + (rest + after));
    }
  }

  // ----- the parser rebuilds the document -----

  predicate NoText(ts: seq<Token>) {
    ts != [] ==> !ts[0].TextToken?
  }

  lemma {:induction false} EmitRun(blocks: seq<Block>, after: seq<Token>)
    requires NoText(after)
    ensures var n := TextRun(blocks);
            && TokenRun(Emit(blocks, after)) == n
            && Emit(blocks, after)[n..] == Emit(blocks[n..], after)
            && FollowingTexts(Emit(blocks, after)) == JoinTexts(blocks[..n])
    decreases blocks
  {
    var n, ts := TextRun(blocks), Emit(blocks, after);
    if n == 0 {
      assert ts[0..] == ts && blocks[0..] == blocks && blocks[..0] == [];
    } else {
      EmitRun(blocks[1..], after);
      var rest := Emit(blocks[1..], after);
      assert ts == [TextToken(blocks[0].text)] + rest && ts[1..] == rest;
      assert ts[n..] == rest[n - 1..] && blocks[n..] == blocks[1..][n - 1..];
      assert blocks[..n][1..] == blocks[1..][..n - 1];
    }
  }

  lemma {:induction false} TextRound(r: Renderer, tight: bool, blocks: seq<Block>, after: seq<Token>, inLink: bool)
    requires blocks != [] && blocks[0].Text? && NoText(after)
    ensures var n := TextRun(blocks[1..]);
            var ts := Emit(blocks, after);
            && ts != [] && ts[0].TextToken?
            && TextTok(r, tight, ts, inLink)
               == With(RenderTexts(r, tight, blocks[0].text + JoinTexts(blocks[1..][..n]), inLink),
                       Emit(blocks[1..][n..], after))
  {
    EmitRun(blocks[1..], after);
    var rest := Emit(blocks[1..], after);
    assert ([TextToken(blocks[0].text)] + rest)[1..] == rest;
  }

  predicate IsEnd(t: Token) {
    t.QuoteEnd? || t.ListEnd? || t.ItemEnd?
  }

  lemma {:induction false} RoundOfText(r: Renderer, tight: bool, ts: seq<Token>, inLink: bool)
    requires ts != [] && ts[0].TextToken?
    ensures Round(r, tight, ts, inLink) == TextTok(r, tight, ts, inLink)
  {
  }

  /** Rendering a first part and then, with the flag it leaves, the rest. */
  function Joined(first: Rendered, more: Rendered): Rendered {
    if first.Stuck? then first else MarkedInline.Then(first.out, more)
  }

  lemma {:induction false} BodyStep(r: Renderer, end: Token, tight: bool, ts: seq<Token>, inLink: bool,
                                    first: Rendered, rest: seq<Token>, more: Rendered, after: seq<Token>)
    requires ts != [] && ts[0] != end
    requires Round(r, tight, ts, inLink) == With(first, rest)
    requires first.Out? ==> Body(r, end, tight, rest, first.inLink) == With(more, after)
    ensures Body(r, end, tight, ts, inLink) == With(Joined(first, more), after)
  {
  }

  /** A loop over the tokens of blocks consumes them and their end token, and renders the blocks. */
  lemma {:induction false} BodyRenders(r: Renderer, end: Token, tight: bool, blocks: seq<Block>, after: seq<Token>,
                                       inLink: bool)
    requires IsEnd(end)
    ensures Body(r, end, tight, Emit(blocks, [end] + after), inLink) == With(Render(r, tight, blocks, inLink), after)
    decreases blocks, 1
  {
    var ts := Emit(blocks, [end] + after);
    if blocks == [] {
      assert ts[1..] == after;
    } else if blocks[0].Text? {
      var n := TextRun(blocks[1..]);
      var rest := blocks[1..][n..];
      var first := RenderTexts(r, tight, blocks[0].text + JoinTexts(blocks[1..][..n]), inLink);
      TextRound(r, tight, blocks, [end] + after, inLink);
      RoundOfText(r, tight, ts, inLink);
      var flag := first.Out? && first.inLink;
      BodyRenders(r, end, tight, rest, after, flag);
      BodyStep(r, end, tight, ts, inLink, first, Emit(rest, [end] + after), Render(r, tight, rest, flag), after);
    } else {
      var rest := Emit(blocks[1..], [end] + after);
      var first := RenderBlock(r, blocks[0], inLink);
      TokRenders(r, blocks[0], rest, inLink);
      EmitStart(blocks[0], rest);
      var flag := first.Out? && first.inLink;
      BodyRenders(r, end, tight, blocks[1..], after, flag);
      BodyStep(r, end, tight, ts, inLink, first, rest, Render(r, tight, blocks[1..], flag), after);
    }
  }

  lemma {:induction false} EmitStart(b: Block, after: seq<Token>)
    ensures EmitBlock(b, after) != [] && !IsEnd(EmitBlock(b, after)[0])
    ensures !b.Text? ==> !EmitBlock(b, after)[0].TextToken?
  {
  }

  lemma {:induction false} TokRenders(r: Renderer, b: Block, after: seq<Token>, inLink: bool)
    requires !b.Text?
    ensures EmitBlock(b, after) != []
    ensures Tok(r, EmitBlock(b, after), inLink) == With(RenderBlock(r, b, inLink), after)
    decreases b, 0
  {
    var ts := EmitBlock(b, after);
    if b.Single? {
      assert ts[1..] == after;
    } else if b.Quote? {
      BodyRenders(r, QuoteEnd, false, b.blocks, after, inLink);
      assert ts[1..] == Emit(b.blocks, [QuoteEnd] + after);
    } else {
      ItemsRender(r, b.items, after, inLink);
      assert ts[1..] == EmitItems(b.items, [ListEnd] + after);
    }
  }

  lemma {:induction false} ItemsRender(r: Renderer, items: seq<Item>, after: seq<Token>, inLink: bool)
    ensures Body(r, ListEnd, false, EmitItems(items, [ListEnd] + after), inLink)
         == With(RenderItems(r, items, inLink), after)
    decreases items
  {
    var ts := EmitItems(items, [ListEnd] + after);
    if items == [] {
      assert ts[1..] == after;
    } else {
      var rest := EmitItems(items[1..], [ListEnd] + after);
      var tight, inside := !items[0].loose, Emit(items[0].blocks, [ItemEnd] + rest);
      assert ts == [ItemOpening(items[0].loose)] + inside && ts[1..] == inside;
      BodyRenders(r, ItemEnd, tight, items[0].blocks, rest, inLink);
      var first := Mapped(r.listitem, Render(r, tight, items[0].blocks, inLink));
      assert Round(r, false, ts, inLink) == Tok(r, ts, inLink) == With(first, rest);
      var flag := first.Out? && first.inLink;
      ItemsRender(r, items[1..], after, flag);
      BodyStep(r, ListEnd, false, ts, inLink, first, rest, RenderItems(r, items[1..], flag), after);
    }
  }

  lemma {:induction false} ParseStep(r: Renderer, ts: seq<Token>, inLink: bool, first: Rendered, rest: seq<Token>,
                                     more: Rendered)
    requires ts != [] && Tok(r, ts, inLink) == With(first, rest)
    requires first.Out? ==> Parse(r, rest, first.inLink) == With(more, [])
    ensures Parse(r, ts, inLink) == With(Joined(first, more), [])
  {
  }

  lemma {:induction false} ParseRenders(r: Renderer, blocks: seq<Block>, inLink: bool)
    ensures Parse(r, Emit(blocks, []), inLink) == With(Render(r, false, blocks, inLink), [])
    decreases blocks
  {
    var ts := Emit(blocks, []);
    if blocks == [] {
    } else if blocks[0].Text? {
      var n := TextRun(blocks[1..]);
      var rest := blocks[1..][n..];
      var first := RenderTexts(r, false, blocks[0].text + JoinTexts(blocks[1..][..n]), inLink);
      TextRound(r, false, blocks, [], inLink);
      var flag := first.Out? && first.inLink;
      ParseRenders(r, rest, flag);
      ParseStep(r, ts, inLink, first, Emit(rest, []), Render(r, false, rest, flag));
    } else {
      var first := RenderBlock(r, blocks[0], inLink);
      TokRenders(r, blocks[0], Emit(blocks[1..], []), inLink);
      EmitStart(blocks[0], Emit(blocks[1..], []));
      var flag := first.Out? && first.inLink;
      ParseRenders(r, blocks[1..], flag);
      ParseStep(r, ts, inLink, first, Emit(blocks[1..], []), Render(r, false, blocks[1..], flag));
    }
  }

  /**
   The parser renders every document by its structure, consuming exactly its
   tokens; it fails only when the inline lexer does.
   */
  lemma {:induction false} ParseFlatten(r: Renderer, blocks: seq<Block>, inLink: bool)
    ensures Parse(r, Flatten(blocks), inLink) == With(Render(r, false, blocks, inLink), [])
  {
    EmitIsFlatten(blocks, []);
    assert Flatten(blocks) + [] == Flatten(blocks);
    ParseRenders(r, blocks, inLink);
  }
}
