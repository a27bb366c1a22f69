/**
 What marked (doc/swagger/lib/marked.js) writes for each kind of block, in terms
 of the renderer and of what the inline lexer writes for the texts of the block.
 */
module MarkedRendering {
  import opened MarkedBlocks
  import MarkedInline

  /** The text that the inline lexer writes, put into something; the flag is what it leaves. */
  predicate Puts(o: Rendered, inner: Rendered, around: string -> string) {
    match inner
    case Stuck => o.Stuck?
    case Out(out, flag) => o == MarkedInline.Out(around(out), flag)
  }

  function Lexed(r: Renderer, text: string, inLink: bool): Rendered {
    MarkedInline.Output(r.rules, r.spans, text, inLink)
  }

  // ----- texts -----

  lemma {:induction false} AloneIs(r: Renderer, tight: bool, b: Block, inLink: bool, o: Rendered)
    requires o == if b.Text? then RenderTexts(r, tight, b.text, inLink) else RenderBlock(r, b, inLink)
    ensures Render(r, tight, [b], inLink) == o
  {
    var rest: seq<Block> := [b][1..];
    assert rest == [] && rest[0..] == [] && rest[..0] == [];
    if b.Text? {
      assert b.text + "" == b.text;
    }
    if o.Out? {
      assert o.out + "" == o.out;
    }
  }

  /** A text at the top of a document is a paragraph. */
  lemma {:induction false} TopText(r: Renderer, text: string, inLink: bool)
    ensures Puts(Render(r, false, [Text(text)], inLink), Lexed(r, text, inLink), (s: string) => r.paragraph(s))
  {
    AloneIs(r, false, Text(text), inLink, RenderTexts(r, false, text, inLink));
  }

  /** So is one in a quote. */
  lemma {:induction false} QuotedText(r: Renderer, tight: bool, text: string, inLink: bool)
    ensures Puts(Render(r, tight, [Quote([Text(text)])], inLink), Lexed(r, text, inLink),
                 (s: string) => r.blockquote(r.paragraph(s)))
  {
    TopText(r, text, inLink);
    AloneIs(r, tight, Quote([Text(text)]), inLink, RenderBlock(r, Quote([Text(text)]), inLink));
  }

  lemma {:induction false} ItemAlone(r: Renderer, tight: bool, ordered: bool, item: Item, inLink: bool)
    ensures Puts(Render(r, tight, [List(ordered, [item])], inLink), Render(r, !item.loose, item.blocks, inLink),
                 (s: string) => r.list(r.listitem(s), ordered))
  {
    var inner := Render(r, !item.loose, item.blocks, inLink);
    assert [item][1..] == [];
    if inner.Out? {
      assert r.listitem(inner.out) + "" == r.listitem(inner.out);
      assert RenderItems(r, [item], inLink) == MarkedInline.Out(r.listitem(inner.out), inner.inLink);
    }
    AloneIs(r, tight, List(ordered, [item]), inLink, RenderBlock(r, List(ordered, [item]), inLink));
  }

  /** And in a loose item. */
  lemma {:induction false} LooseText(r: Renderer, tight: bool, ordered: bool, text: string, inLink: bool)
    ensures Puts(Render(r, tight, [List(ordered, [Item(true, [Text(text)])])], inLink), Lexed(r, text, inLink),
                 (s: string) => r.list(r.listitem(r.paragraph(s)), ordered))
  {
    ItemAlone(r, tight, ordered, Item(true, [Text(text)]), inLink);
    TopText(r, text, inLink);
  }

  /** In a tight item it is not. */
  lemma {:induction false} TightText(r: Renderer, tight: bool, ordered: bool, text: string, inLink: bool)
    ensures Puts(Render(r, tight, [List(ordered, [Item(false, [Text(text)])])], inLink), Lexed(r, text, inLink),
                 (s: string) => r.list(r.listitem(s), ordered))
  {
    ItemAlone(r, tight, ordered, Item(false, [Text(text)]), inLink);
    AloneIs(r, true, Text(text), inLink, RenderTexts(r, true, text, inLink));
  }

  /** The parser on the tokens of such an item. */
  lemma {:induction false} ParsedItem(r: Renderer, ordered: bool, loose: bool, text: string, inLink: bool)
    ensures var start := if loose then LooseItemStart else ItemStart;
            var ts := [ListStart(ordered), start, TextToken(text), ItemEnd, ListEnd];
            Parse(r, ts, inLink)
            == match Lexed(r, text, inLink)
               case Stuck => Failed(InfiniteLoop)
               case Out(s, flag) => Done(r.list(r.listitem(if loose then r.paragraph(s) else s), ordered), [], flag)
  {
    var document := [List(ordered, [Item(loose, [Text(text)])])];
    ItemTokens(ordered, loose, text);
    ParseFlatten(r, document, inLink);
    if loose {
      LooseText(r, false, ordered, text, inLink);
    } else {
      TightText(r, false, ordered, text, inLink);
    }
  }

  lemma {:induction false} ItemTokens(ordered: bool, loose: bool, text: string)
    ensures Flatten([List(ordered, [Item(loose, [Text(text)])])])
         == [ListStart(ordered), if loose then LooseItemStart else ItemStart, TextToken(text), ItemEnd, ListEnd]
  {
    var blocks, items: seq<Item> := [Text(text)], [Item(loose, [Text(text)])];
    assert blocks[1..] == [] && items[1..] == [];
    assert Flatten(blocks) == [TextToken(text)];
    assert FlattenItems(items) == [ItemOpening(loose), TextToken(text), ItemEnd];
    var list := List(ordered, items);
    assert [list][1..] == [];
    assert FlattenBlock(list) == [ListStart(ordered), ItemOpening(loose), TextToken(text), ItemEnd, ListEnd];
  }

  lemma {:induction false} MergeRun(first: string, second: string, after: seq<Block>)
    ensures var n := TextRun(after);
            var two := [Text(second)] + after;
            && TextRun(two) == n + 1
            && first + JoinTexts(two[..n + 1]) == first + "\n" + second + JoinTexts(after[..n])
            && two[n + 1..] == after[n..]
  {
    var n, two := TextRun(after), [Text(second)] + after;
    assert two[1..] == after;
    assert two[..n + 1][1..] == after[..n];
    assert first + ("\n" + second + JoinTexts(after[..n])) == first + "\n" + second + JoinTexts(after[..n]);
  }

  /** Two texts next to each other, and all that follow them, are one text of as many lines. */
  lemma {:induction false} FirstTexts(r: Renderer, tight: bool, first: string, second: string,
                                      after: seq<Block>, inLink: bool)
    ensures Render(r, tight, [Text(first), Text(second)] + after, inLink)
         == Render(r, tight, [Text(first + "\n" + second)] + after, inLink)
  {
    var apart, together := [Text(first), Text(second)] + after, [Text(first + "\n" + second)] + after;
    assert apart[1..] == [Text(second)] + after && together[1..] == after;
    MergeRun(first, second, after);
  }

  /** One text, not followed by another. */
  lemma {:induction false} OneText(r: Renderer, tight: bool, text: string, after: seq<Block>, inLink: bool)
    requires after != [] ==> !after[0].Text?
    ensures var first := RenderTexts(r, tight, text, inLink);
            Render(r, tight, [Text(text)] + after, inLink)
            == if first.Stuck? then first
               else MarkedInline.Then(first.out, Render(r, tight, after, first.inLink))
  {
    var blocks := [Text(text)] + after;
    assert blocks[1..] == after && after[0..] == after && after[..0] == [] && text + "" == text;
  }

  lemma {:induction false} OneBlock(r: Renderer, tight: bool, b: Block, after: seq<Block>, inLink: bool)
    requires !b.Text?
    ensures var first := RenderBlock(r, b, inLink);
            Render(r, tight, [b] + after, inLink)
            == if first.Stuck? then first
               else MarkedInline.Then(first.out, Render(r, tight, after, first.inLink))
  {
    assert ([b] + after)[1..] == after;
  }

  lemma {:induction false} Lines(a: string, b: string, c: string)
    ensures a + "\n" + (b + "\n" + c) == a + "\n" + b + "\n" + c
  {
  }

  lemma {:induction false} Regroup(a: Block, b: Block, c: Block, after: seq<Block>)
    ensures [a, b] + ([c] + after) == [a, b, c] + after
    ensures [b] + ([c] + after) == [b, c] + after
  {
  }

  /** After one text. */
  lemma {:induction false} ThreeTexts(r: Renderer, tight: bool, text: string, first: string, second: string,
                                      after: seq<Block>, inLink: bool)
    ensures Render(r, tight, [Text(text), Text(first), Text(second)] + after, inLink)
         == Render(r, tight, [Text(text), Text(first + "\n" + second)] + after, inLink)
  {
    Regroup(Text(text), Text(first), Text(second), after);
    Regroup(Text(text + "\n" + first), Text(text + "\n" + first), Text(second), after);
    FirstTexts(r, tight, text, first, [Text(second)] + after, inLink);
    FirstTexts(r, tight, text + "\n" + first, second, after, inLink);
    FirstTexts(r, tight, text, first + "\n" + second, after, inLink);
    Lines(text, first, second);
  }

  /** Wherever they stand. */
  lemma {:induction false} TextsTogether(r: Renderer, tight: bool, before: seq<Block>, first: string,
                                         second: string, after: seq<Block>, inLink: bool)
    ensures Render(r, tight, before + ([Text(first), Text(second)] + after), inLink)
         == Render(r, tight, before + ([Text(first + "\n" + second)] + after), inLink)
    decreases |before|
  {
    var apart, together := [Text(first), Text(second)] + after, [Text(first + "\n" + second)] + after;
    if before == [] {
      assert before + apart == apart && before + together == together;
      FirstTexts(r, tight, first, second, after, inLink);
    } else if before[0].Text? && |before| == 1 {
      ThreeTexts(r, tight, before[0].text, first, second, after, inLink);
      assert before + apart == [before[0], Text(first), Text(second)] + after;
      assert before + together == [before[0], Text(first + "\n" + second)] + after;
    } else if before[0].Text? && before[1].Text? {
      var a, b := before[0].text, before[1].text;
      var shorter := [Text(a + "\n" + b)] + before[2..];
      TextsTogether(r, tight, shorter, first, second, after, inLink);
      TextsMerged(r, tight, before, apart, inLink);
      TextsMerged(r, tight, before, together, inLink);
    } else {
      AfterFirst(r, tight, before, first, second, after, inLink);
    }
  }

  lemma {:induction false} TextsMerged(r: Renderer, tight: bool, before: seq<Block>, after: seq<Block>, inLink: bool)
    requires |before| >= 2 && before[0].Text? && before[1].Text?
    ensures Render(r, tight, before + after, inLink)
         == Render(r, tight, [Text(before[0].text + "\n" + before[1].text)] + before[2..] + after, inLink)
  {
    var a, b := before[0].text, before[1].text;
    FirstTexts(r, tight, a, b, before[2..] + after, inLink);
    TwoFirst(before, after);
    OneFirst(Text(a + "\n" + b), before[2..], after);
  }

  lemma {:induction false} TwoFirst(before: seq<Block>, after: seq<Block>)
    requires |before| >= 2
    ensures before + after == [before[0], before[1]] + (before[2..] + after)
  {
  }

  lemma {:induction false} OneFirst(b: Block, more: seq<Block>, after: seq<Block>)
    ensures [b] + more + after == [b] + (more + after)
  {
  }

  /** After a block that does not end in the same text. */
  lemma {:induction false} AfterFirst(r: Renderer, tight: bool, before: seq<Block>, first: string, second: string,
                                      after: seq<Block>, inLink: bool)
    requires before != [] && (before[0].Text? ==> |before| > 1 && !before[1].Text?)
    ensures Render(r, tight, before + ([Text(first), Text(second)] + after), inLink)
         == Render(r, tight, before + ([Text(first + "\n" + second)] + after), inLink)
    decreases |before|, 0
  {
    var apart, together := [Text(first), Text(second)] + after, [Text(first + "\n" + second)] + after;
    var b, more := before[0], before[1..];
    assert before + apart == [b] + (more + apart) && before + together == [b] + (more + together);
    if b.Text? {
      OneText(r, tight, b.text, more + apart, inLink);
      OneText(r, tight, b.text, more + together, inLink);
      var one := RenderTexts(r, tight, b.text, inLink);
      if one.Out? {
        TextsTogether(r, tight, more, first, second, after, one.inLink);
      }
    } else {
      OneBlock(r, tight, b, more + apart, inLink);
      OneBlock(r, tight, b, more + together, inLink);
      var one := RenderBlock(r, b, inLink);
      if one.Out? {
        TextsTogether(r, tight, more, first, second, after, one.inLink);
      }
    }
  }

  // ----- blocks in brackets -----

  /** A quote, whatever is in it; texts in it are paragraphs. */
  lemma {:induction false} QuoteWrites(r: Renderer, tight: bool, blocks: seq<Block>, inLink: bool)
    ensures Puts(Render(r, tight, [Quote(blocks)], inLink), Render(r, false, blocks, inLink),
                 (s: string) => r.blockquote(s))
  {
    AloneIs(r, tight, Quote(blocks), inLink, RenderBlock(r, Quote(blocks), inLink));
  }

  function Concat(ss: seq<string>): string {
    if ss == [] then "" else ss[0] + Concat(ss[1..])
  }

  /** What the first items write, and the flag before each and after the last. */
  predicate ItemsWrite(r: Renderer, items: seq<Item>, outs: seq<string>, flags: seq<bool>) {
    && |outs| <= |items| && |flags| == |outs| + 1
    && forall i | 0 <= i < |outs| ::
         Render(r, !items[i].loose, items[i].blocks, flags[i]) == MarkedInline.Out(outs[i], flags[i + 1])
  }

  lemma {:induction false} RestOfItems(r: Renderer, items: seq<Item>, outs: seq<string>, flags: seq<bool>)
    requires ItemsWrite(r, items, outs, flags) && outs != []
    ensures ItemsWrite(r, items[1..], outs[1..], flags[1..])
  {
    forall i | 0 <= i < |outs| - 1
      ensures Render(r, !items[1..][i].loose, items[1..][i].blocks, flags[1..][i])
           == MarkedInline.Out(outs[1..][i], flags[1..][i + 1])
    {
      assert items[1..][i] == items[i + 1];
    }
  }

  lemma {:induction false} ItemsAre(r: Renderer, items: seq<Item>, outs: seq<string>, flags: seq<bool>,
                                    listed: seq<string>)
    requires ItemsWrite(r, items, outs, flags)
    requires |listed| == |outs| && forall i | 0 <= i < |outs| :: listed[i] == r.listitem(outs[i])
    ensures |outs| == |items| ==> RenderItems(r, items, flags[0]) == MarkedInline.Out(Concat(listed), flags[|items|])
    ensures |outs| < |items| && Render(r, !items[|outs|].loose, items[|outs|].blocks, flags[|outs|]).Stuck? ==>
              RenderItems(r, items, flags[0]).Stuck?
    decreases |outs|
  {
    if outs != [] {
      RestOfItems(r, items, outs, flags);
      ItemsAre(r, items[1..], outs[1..], flags[1..], listed[1..]);
    }
  }

  /**
   A list: its items in order, each with the flag that the one before it left, and
   the texts of an item are paragraphs exactly when it is loose.
   */
  lemma {:induction false} ListWrites(r: Renderer, tight: bool, ordered: bool, items: seq<Item>, outs: seq<string>,
                                      flags: seq<bool>)
    requires ItemsWrite(r, items, outs, flags)
    ensures |outs| == |items| ==>
              Render(r, tight, [List(ordered, items)], flags[0])
              == MarkedInline.Out(r.list(Concat(seq(|items|, (i: nat) requires i < |items| => r.listitem(outs[i]))),
                                         ordered), flags[|items|])
    ensures |outs| < |items| && Render(r, !items[|outs|].loose, items[|outs|].blocks, flags[|outs|]).Stuck? ==>
              Render(r, tight, [List(ordered, items)], flags[0]).Stuck?
  {
    ItemsAre(r, items, outs, flags, seq(|outs|, (i: nat) requires i < |outs| => r.listitem(outs[i])));
    AloneIs(r, tight, List(ordered, items), flags[0], RenderBlock(r, List(ordered, items), flags[0]));
    if |outs| == |items| {
      assert seq(|outs|, (i: nat) requires i < |outs| => r.listitem(outs[i]))
          == seq(|items|, (i: nat) requires i < |items| => r.listitem(outs[i]));
    }
  }

  // ----- blocks without others in them -----

  lemma {:induction false} LeafAlone(r: Renderer, tight: bool, leaf: Leaf, inLink: bool)
    ensures Render(r, tight, [Single(leaf)], inLink) == RenderLeaf(r, leaf, inLink)
  {
    AloneIs(r, tight, Single(leaf), inLink, RenderLeaf(r, leaf, inLink));
  }

  lemma {:induction false} SpaceWrites(r: Renderer, tight: bool, inLink: bool)
    ensures Render(r, tight, [Single(Space)], inLink) == MarkedInline.Out("", inLink)
  {
    LeafAlone(r, tight, Space, inLink);
  }

  lemma {:induction false} HrWrites(r: Renderer, tight: bool, inLink: bool)
    ensures Render(r, tight, [Single(Hr)], inLink) == MarkedInline.Out(r.hr, inLink)
  {
    LeafAlone(r, tight, Hr, inLink);
  }

  /** The renderer is given the rendered title, and its source. */
  lemma {:induction false} HeadingWrites(r: Renderer, tight: bool, depth: nat, text: string, inLink: bool)
    ensures Puts(Render(r, tight, [Single(Heading(depth, text))], inLink), Lexed(r, text, inLink),
                 (s: string) => r.heading(s, depth, text))
  {
    LeafAlone(r, tight, Heading(depth, text), inLink);
  }

  /** Code is not lexed. */
  lemma {:induction false} CodeWrites(r: Renderer, tight: bool, text: string, lang: string, inLink: bool)
    ensures Render(r, tight, [Single(Code(text, lang))], inLink) == MarkedInline.Out(r.code(text, lang), inLink)
  {
    LeafAlone(r, tight, Code(text, lang), inLink);
  }

  /** HTML is, unless it is preformatted or the option pedantic is set. */
  lemma {:induction false} HtmlWrites(r: Renderer, tight: bool, pre: bool, text: string, inLink: bool)
    ensures var o := Render(r, tight, [Single(Html(pre, text))], inLink);
            if pre || r.pedantic then o == MarkedInline.Out(r.html(text), inLink)
            else Puts(o, Lexed(r, text, inLink), (s: string) => r.html(s))
  {
    LeafAlone(r, tight, Html(pre, text), inLink);
  }

  /** A paragraph is one in a tight item too. */
  lemma {:induction false} ParagraphWrites(r: Renderer, tight: bool, text: string, inLink: bool)
    ensures Puts(Render(r, tight, [Single(Paragraph(text))], inLink), Lexed(r, text, inLink),
                 (s: string) => r.paragraph(s))
  {
    LeafAlone(r, tight, Paragraph(text), inLink);
  }

  // ----- tables -----

  /** What the inline lexer writes for the first texts of a row, and the flag before each and after the last. */
  predicate CellsWrite(r: Renderer, texts: seq<string>, outs: seq<string>, flags: seq<bool>) {
    && |outs| <= |texts| && |flags| == |outs| + 1
    && forall i | 0 <= i < |outs| :: Lexed(r, texts[i], flags[i]) == MarkedInline.Out(outs[i], flags[i + 1])
  }

  /** A row of cells; a column without an alignment has none. */
  function RowOf(r: Renderer, outs: seq<string>, header: bool, align: seq<string>): string {
    r.tablerow(Concat(seq(|outs|, (i: nat) requires i < |outs| =>
                                    r.tablecell(outs[i], header, if i < |align| then align[i] else ""))))
  }

  function CellsOf(r: Renderer, outs: seq<string>, from: nat, header: bool, align: seq<string>): (cells: seq<string>)
    requires from <= |outs|
    ensures |cells| == |outs| - from
  {
    seq(|outs| - from, (i: nat) requires i < |outs| - from =>
                         r.tablecell(outs[from + i], header, if from + i < |align| then align[from + i] else ""))
  }

  lemma {:induction false} CellsAre(r: Renderer, texts: seq<string>, outs: seq<string>, flags: seq<bool>, from: nat,
                                    header: bool, align: seq<string>)
    requires CellsWrite(r, texts, outs, flags) && from <= |outs|
    ensures |outs| == |texts| ==>
              RenderCells(r, texts, from, header, align, flags[from])
              == MarkedInline.Out(Concat(CellsOf(r, outs, from, header, align)), flags[|outs|])
    ensures |outs| < |texts| && Lexed(r, texts[|outs|], flags[|outs|]).Stuck? ==>
              RenderCells(r, texts, from, header, align, flags[from]).Stuck?
    decreases |outs| - from
  {
    if from < |outs| {
      CellsAre(r, texts, outs, flags, from + 1, header, align);
      CellsCons(r, outs, from, header, align);
      CellStep(r, texts, outs, flags, from, header, align);
    } else {
      CellsEnd(r, texts, outs, flags, header, align);
    }
  }

  lemma {:induction false} CellsEnd(r: Renderer, texts: seq<string>, outs: seq<string>, flags: seq<bool>,
                                    header: bool, align: seq<string>)
    requires CellsWrite(r, texts, outs, flags)
    ensures Concat(CellsOf(r, outs, |outs|, header, align)) == ""
    ensures |outs| == |texts| ==>
              RenderCells(r, texts, |outs|, header, align, flags[|outs|]) == MarkedInline.Out("", flags[|outs|])
    ensures |outs| < |texts| && Lexed(r, texts[|outs|], flags[|outs|]).Stuck? ==>
              RenderCells(r, texts, |outs|, header, align, flags[|outs|]).Stuck?
  {
  }

  lemma {:induction false} CellsCons(r: Renderer, outs: seq<string>, from: nat, header: bool, align: seq<string>)
    requires from < |outs|
    ensures Concat(CellsOf(r, outs, from, header, align))
         == r.tablecell(outs[from], header, if from < |align| then align[from] else "")
            + Concat(CellsOf(r, outs, from + 1, header, align))
  {
    assert CellsOf(r, outs, from, header, align)[1..] == CellsOf(r, outs, from + 1, header, align);
  }

  lemma {:induction false} CellStep(r: Renderer, texts: seq<string>, outs: seq<string>, flags: seq<bool>, from: nat,
                                    header: bool, align: seq<string>)
    requires CellsWrite(r, texts, outs, flags) && from < |outs|
    ensures RenderCells(r, texts, from, header, align, flags[from])
         == MarkedInline.Then(r.tablecell(outs[from], header, if from < |align| then align[from] else ""),
                              RenderCells(r, texts, from + 1, header, align, flags[from + 1]))
  {
    assert Lexed(r, texts[from], flags[from]) == MarkedInline.Out(outs[from], flags[from + 1]);
  }

  lemma {:induction false} RowWrites(r: Renderer, texts: seq<string>, outs: seq<string>, flags: seq<bool>,
                                     header: bool, align: seq<string>)
    requires CellsWrite(r, texts, outs, flags)
    ensures |outs| == |texts| ==>
              RenderRow(r, texts, header, align, flags[0])
              == MarkedInline.Out(RowOf(r, outs, header, align), flags[|outs|])
    ensures |outs| < |texts| && Lexed(r, texts[|outs|], flags[|outs|]).Stuck? ==>
              RenderRow(r, texts, header, align, flags[0]).Stuck?
  {
    CellsAre(r, texts, outs, flags, 0, header, align);
    assert CellsOf(r, outs, 0, header, align)
        == seq(|outs|, (i: nat) requires i < |outs| =>
                         r.tablecell(outs[i], header, if i < |align| then align[i] else ""));
  }

  /** The first rows of a table, each starting with the flag that the one before it left. */
  predicate RowsWrite(r: Renderer, cells: seq<seq<string>>, outs: seq<seq<string>>, flags: seq<seq<bool>>,
                      before: bool) {
    && |outs| == |flags| <= |cells|
    && forall i | 0 <= i < |outs| ::
         && CellsWrite(r, cells[i], outs[i], flags[i]) && |outs[i]| == |cells[i]|
         && flags[i][0] == FlagBefore(flags, i, before)
  }

  function FlagBefore(flags: seq<seq<bool>>, i: nat, before: bool): bool
    requires i <= |flags|
  {
    if i > 0 && flags[i - 1] != [] then flags[i - 1][|flags[i - 1]| - 1] else before
  }

  function RowsOf(r: Renderer, outs: seq<seq<string>>, from: nat, align: seq<string>): (rows: seq<string>)
    requires from <= |outs|
    ensures |rows| == |outs| - from
  {
    seq(|outs| - from, (i: nat) requires i < |outs| - from => RowOf(r, outs[from + i], false, align))
  }

  lemma {:induction false} RowsAre(r: Renderer, cells: seq<seq<string>>, outs: seq<seq<string>>,
                                   flags: seq<seq<bool>>, before: bool, from: nat, align: seq<string>)
    requires RowsWrite(r, cells, outs, flags, before) && from <= |outs|
    ensures var flag := FlagBefore(flags, from, before);
            && (|outs| == |cells| ==>
                  RenderRows(r, cells, from, align, flag)
                  == MarkedInline.Out(Concat(RowsOf(r, outs, from, align)), FlagBefore(flags, |outs|, before)))
            && (|outs| < |cells| && RenderRow(r, cells[|outs|], false, align, FlagBefore(flags, |outs|, before)).Stuck?
                ==> RenderRows(r, cells, from, align, flag).Stuck?)
    decreases |outs| - from
  {
    if from < |outs| {
      RowWrites(r, cells[from], outs[from], flags[from], false, align);
      RowsAre(r, cells, outs, flags, before, from + 1, align);
      assert RowsOf(r, outs, from, align)[1..] == RowsOf(r, outs, from + 1, align);
    }
  }

  /** A table: the row of headers, then the rows of cells, all lexed in this order. */
  lemma {:induction false} TableWrites(r: Renderer, tight: bool, header: seq<string>, align: seq<string>,
                                       cells: seq<seq<string>>, heads: seq<string>, headFlags: seq<bool>,
                                       outs: seq<seq<string>>, flags: seq<seq<bool>>)
    requires CellsWrite(r, header, heads, headFlags) && |heads| == |header|
    requires RowsWrite(r, cells, outs, flags, headFlags[|heads|]) && |outs| == |cells|
    ensures Render(r, tight, [Single(Table(header, align, cells))], headFlags[0])
         == MarkedInline.Out(r.table(RowOf(r, heads, true, align), Concat(RowsOf(r, outs, 0, align))),
                             FlagBefore(flags, |outs|, headFlags[|heads|]))
  {
    RowWrites(r, header, heads, headFlags, true, align);
    RowsAre(r, cells, outs, flags, headFlags[|heads|], 0, align);
    LeafAlone(r, tight, Table(header, align, cells), headFlags[0]);
  }

  /** It cannot be written when the lexer is stuck in a header. */
  lemma {:induction false} HeaderStuck(r: Renderer, tight: bool, header: seq<string>, align: seq<string>,
                                       cells: seq<seq<string>>, heads: seq<string>, headFlags: seq<bool>)
    requires CellsWrite(r, header, heads, headFlags)
    requires |heads| < |header| && Lexed(r, header[|heads|], headFlags[|heads|]).Stuck?
    ensures Render(r, tight, [Single(Table(header, align, cells))], headFlags[0]).Stuck?
  {
    RowWrites(r, header, heads, headFlags, true, align);
    LeafAlone(r, tight, Table(header, align, cells), headFlags[0]);
  }

  /** Or in a cell of a row. */
  lemma {:induction false} CellStuck(r: Renderer, tight: bool, header: seq<string>, align: seq<string>,
                                     cells: seq<seq<string>>, heads: seq<string>, headFlags: seq<bool>,
                                     outs: seq<seq<string>>, flags: seq<seq<bool>>, last: seq<string>,
                                     lastFlags: seq<bool>)
    requires CellsWrite(r, header, heads, headFlags) && |heads| == |header|
    requires RowsWrite(r, cells, outs, flags, headFlags[|heads|]) && |outs| < |cells|
    requires CellsWrite(r, cells[|outs|], last, lastFlags) && |last| < |cells[|outs|]|
    requires lastFlags[0] == FlagBefore(flags, |outs|, headFlags[|heads|])
    requires Lexed(r, cells[|outs|][|last|], lastFlags[|last|]).Stuck?
    ensures Render(r, tight, [Single(Table(header, align, cells))], headFlags[0]).Stuck?
  {
    RowWrites(r, header, heads, headFlags, true, align);
    RowWrites(r, cells[|outs|], last, lastFlags, false, align);
    RowsAre(r, cells, outs, flags, headFlags[|heads|], 0, align);
    LeafAlone(r, tight, Table(header, align, cells), headFlags[0]);
  }
}
