/**
 Which rule of marked's block lexer (doc/swagger/lib/marked.js) takes a text, in
 terms of the rules themselves: their order, what each one contributes, and when
 none is left.
 */
module MarkedRuleOrder {
  import opened MarkedBlocks
  import opened MarkedLexer

  /** The blocks and definitions in front of what the rest gives. */
  predicate Yields(l: Lexed, blocks: seq<Block>, definitions: seq<Definition>, rest: Lexed) {
    match rest
    case Stuck => l.Stuck?
    case Lexed(bs, ds) => l == Lexed(blocks + bs, definitions + ds)
  }

  /** What a rule matched is cut off, and its block or definition comes before those of the rest. */
  predicate Takes(rules: Rules, src: string, top: bool, bq: bool, cap: Cap) {
    && cap.Cap? && 0 < cap.length <= |src|
    && var l, rest := LexBlock(rules, src, top, bq), LexFrom(rules, src[cap.length..], top, bq);
       match cap.piece
       case LeafPiece(leaf) => Yields(l, [Single(leaf)], [], rest)
       case TextPiece(text) => Yields(l, [Text(text)], [], rest)
       case Defines(definition) => Yields(l, [], [definition], rest)
  }

  // ----- the first rule of a list that matches -----

  lemma {:induction false} FirstAt(rs: seq<string -> Cap>, s: string, k: nat)
    requires k < |rs| && rs[k](s).Cap? && forall j | 0 <= j < k :: rs[j](s).NoCap?
    ensures FirstCap(rs, s) == rs[k](s)
  {
    if k > 0 {
      assert forall j | 0 <= j < k - 1 :: rs[1..][j] == rs[j + 1];
      FirstAt(rs[1..], s, k - 1);
    }
  }

  lemma {:induction false} FirstNone(rs: seq<string -> Cap>, s: string)
    requires forall j | 0 <= j < |rs| :: rs[j](s).NoCap?
    ensures FirstCap(rs, s).NoCap?
  {
    if rs != [] {
      assert forall j | 0 <= j < |rs| - 1 :: rs[1..][j] == rs[j + 1];
      FirstNone(rs[1..], s);
    }
  }

  lemma {:induction false} LeadingTakes(rules: Rules, src: string, top: bool, bq: bool, k: nat)
    requires var rs := Leading(rules, top);
             k < |rs| && rs[k](src).Cap? && forall j | 0 <= j < k :: rs[j](src).NoCap?
    ensures Takes(rules, src, top, bq, Leading(rules, top)[k](src))
  {
    FirstAt(Leading(rules, top), src, k);
    LeadingCase(rules, src, top, bq, Leading(rules, top)[k](src));
  }

  // ----- the rules before quotes -----

  lemma {:induction false} TakesCode(rules: Rules, src: string, top: bool, bq: bool)
    requires rules.code(src).Cap?
    ensures Takes(rules, src, top, bq, rules.code(src))
  {
    LeadingTakes(rules, src, top, bq, 0);
  }

  lemma {:induction false} TakesFences(rules: Rules, src: string, top: bool, bq: bool)
    requires rules.code(src).NoCap? && rules.fences(src).Cap?
    ensures Takes(rules, src, top, bq, rules.fences(src))
  {
    LeadingTakes(rules, src, top, bq, 1);
  }

  lemma {:induction false} TakesHeading(rules: Rules, src: string, top: bool, bq: bool)
    requires rules.code(src).NoCap? && rules.fences(src).NoCap? && rules.heading(src).Cap?
    ensures Takes(rules, src, top, bq, rules.heading(src))
  {
    LeadingTakes(rules, src, top, bq, 2);
  }

  /** No rule up to heading matches. */
  predicate NoHeading(rules: RuleSet, src: string) {
    rules.code(src).NoCap? && rules.fences(src).NoCap? && rules.heading(src).NoCap?
  }

  /** A table without leading pipes only stands at the top. */
  lemma {:induction false} TakesNptable(rules: Rules, src: string, bq: bool)
    requires NoHeading(rules, src) && rules.nptable(src).Cap?
    ensures Takes(rules, src, true, bq, rules.nptable(src))
  {
    LeadingTakes(rules, src, true, bq, 3);
  }

  lemma {:induction false} TakesLheading(rules: Rules, src: string, top: bool, bq: bool)
    requires NoHeading(rules, src) && (top ==> rules.nptable(src).NoCap?) && rules.lheading(src).Cap?
    ensures Takes(rules, src, top, bq, rules.lheading(src))
  {
    LeadingTakes(rules, src, top, bq, if top then 4 else 3);
  }

  lemma {:induction false} TakesHr(rules: Rules, src: string, top: bool, bq: bool)
    requires NoHeading(rules, src) && (top ==> rules.nptable(src).NoCap?)
    requires rules.lheading(src).NoCap? && rules.hr(src).Cap?
    ensures Takes(rules, src, top, bq, rules.hr(src))
  {
    LeadingTakes(rules, src, top, bq, if top then 5 else 4);
  }

  /** No rule up to hr matches. */
  predicate NoHr(rules: RuleSet, src: string, top: bool) {
    NoHeading(rules, src) && (top ==> rules.nptable(src).NoCap?) && rules.lheading(src).NoCap? && rules.hr(src).NoCap?
  }

  lemma {:induction false} LeadingNone(rules: Rules, src: string, top: bool)
    requires NoHr(rules, src, top)
    ensures FirstCap(Leading(rules, top), src).NoCap?
  {
    FirstNone(Leading(rules, top), src);
  }

  // ----- quotes and lists -----

  /** A quote is lexed as a text of its own, at the top if the quote is, and without definitions. */
  lemma {:induction false} TakesQuote(rules: Rules, src: string, top: bool, bq: bool)
    requires NoHr(rules, src, top) && rules.quote(src).QuoteCap?
    ensures var quote := rules.quote(src);
            var inner := Lex(rules, quote.inside, top, true);
            && 0 < quote.length <= |src|
            && (inner.Stuck? ==> LexBlock(rules, src, top, bq).Stuck?)
            && (inner.Lexed? ==>
                  && inner.definitions == []
                  && Yields(LexBlock(rules, src, top, bq), [Quote(inner.blocks)], [],
                            LexFrom(rules, src[quote.length..], top, bq)))
  {
    LeadingNone(rules, src, top);
    QuoteCase(rules, src, top, bq);
    NestedDefinesNothing(rules, rules.quote(src).inside, top, true);
  }

  /** The lines of the items, with a newline between two. */
  lemma {:induction false} JoinConcat(a: seq<string>, b: seq<string>)
    requires a != [] && b != []
    ensures Join(a + b) == Join(a) + "\n" + Join(b)
  {
    assert (a + b)[0] == a[0] && (a + b)[1..] == a[1..] + b;
    if |a| == 1 {
      assert a[1..] + b == b;
    } else {
      JoinConcat(a[1..], b);
      assert a[0] + "\n" + (Join(a[1..]) + "\n" + Join(b)) == a[0] + "\n" + Join(a[1..]) + "\n" + Join(b);
    }
  }

  lemma {:induction false} JoinOne(item: string)
    ensures Join([item]) == item && Join([]) == ""
  {
  }

  /** The bullet of an item is of another kind; two numbers are of the same. */
  predicate Differs(rules: RuleSet, bullet: string, item: string) {
    var b := rules.bulletOf(item);
    bullet != b && (|bullet| <= 1 || |b| <= 1)
  }

  /** The list ends before its k-th item: with smartLists, before the first one with another kind of bullet. */
  predicate EndsAt(rules: RuleSet, list: ListCap, k: nat)
    requires list.ListCap?
  {
    && 0 < k <= |list.items|
    && (forall j | 0 < j < k :: !(rules.smartLists && Differs(rules, list.bullet, list.items[j])))
    && (k < |list.items| ==> rules.smartLists && Differs(rules, list.bullet, list.items[k]))
  }

  lemma {:induction false} KeptEnds(rules: RuleSet, bullet: string, items: seq<string>, i: nat)
    requires i < |items|
    ensures var k := Kept(rules, bullet, items, i);
            && (forall j | i < j < k :: !(rules.smartLists && Differs(rules, bullet, items[j])))
            && (k < |items| ==> rules.smartLists && Differs(rules, bullet, items[k]))
    decreases |items| - i
  {
    if i < |items| - 1 && !OtherList(rules, bullet, items[i + 1]) {
      KeptEnds(rules, bullet, items, i + 1);
    }
  }

  lemma {:induction false} EndsOnce(rules: RuleSet, list: ListCap, k: nat, l: nat)
    requires list.ListCap? && EndsAt(rules, list, k) && EndsAt(rules, list, l)
    ensures k == l
  {
  }

  predicate Newline(s: string) {
    |s| > 0 && s[|s| - 1] == '\n'
  }

  /**
   The i-th item of a list of k: it is lexed on its own, not at the top.  It is loose
   if it has a gap, or ends in a newline and is not the last, or the one before it does.
   */
  predicate ItemIs(rules: Rules, texts: seq<string>, k: nat, i: nat, bq: bool, item: Item)
    requires i < k <= |texts|
  {
    && Lex(rules, rules.itemBody(texts[i]), false, bq) == Lexed(item.blocks, [])
    && item.loose == (|| rules.gap(rules.itemBody(texts[i]))
                      || (i < k - 1 && Newline(rules.itemBody(texts[i])))
                      || (i > 0 && Newline(rules.itemBody(texts[i - 1]))))
  }

  predicate ItemsAre(rules: Rules, texts: seq<string>, k: nat, bq: bool, items: seq<Item>)
    requires k <= |texts|
  {
    |items| == k && forall i | 0 <= i < k :: ItemIs(rules, texts, k, i, bq, items[i])
  }

  predicate StuckAt(rules: Rules, texts: seq<string>, bq: bool, i: nat)
    requires i < |texts|
  {
    Lex(rules, rules.itemBody(texts[i]), false, bq).Stuck?
  }

  lemma {:induction false} LexItemIs(rules: Rules, texts: seq<string>, k: nat, i: nat, bq: bool)
    requires i < k <= |texts|
    ensures var inner := Lex(rules, rules.itemBody(texts[i]), false, bq);
            inner.Lexed? ==> ItemIs(rules, texts, k, i, bq, Item(LooseAt(rules, texts, k, i), inner.blocks))
  {
    NestedDefinesNothing(rules, rules.itemBody(texts[i]), false, bq);
  }

  /** What lexing the items from the i-th on gives. */
  ghost predicate LexesTo(rules: Rules, texts: seq<string>, k: nat, i: nat, bq: bool, l: LexedItems)
    requires i <= k <= |texts|
  {
    match l
    case StuckItem => exists j | i <= j < k :: StuckAt(rules, texts, bq, j)
    case LexedItems(items) =>
      |items| == k - i && forall n | 0 <= n < k - i :: ItemIs(rules, texts, k, i + n, bq, items[n])
  }

  lemma {:induction false} LexItemsAre(rules: Rules, texts: seq<string>, k: nat, i: nat, bq: bool, size: nat)
    requires i <= k <= |texts|
    requires forall j | 0 <= j < |texts| :: |rules.itemBody(texts[j])| < |texts[j]| <= size
    ensures LexesTo(rules, texts, k, i, bq, LexItems(rules, texts, k, i, bq, size))
    decreases k - i
  {
    if i < k {
      LexItemsAre(rules, texts, k, i + 1, bq, size);
      LexItemsCons(rules, texts, k, i, bq, size);
    }
  }

  lemma {:induction false} LexItemsCons(rules: Rules, texts: seq<string>, k: nat, i: nat, bq: bool, size: nat)
    requires i < k <= |texts|
    requires forall j | 0 <= j < |texts| :: |rules.itemBody(texts[j])| < |texts[j]| <= size
    requires LexesTo(rules, texts, k, i + 1, bq, LexItems(rules, texts, k, i + 1, bq, size))
    ensures LexesTo(rules, texts, k, i, bq, LexItems(rules, texts, k, i, bq, size))
  {
    var inner := Lex(rules, rules.itemBody(texts[i]), false, bq);
    var rest := LexItems(rules, texts, k, i + 1, bq, size);
    LexItemIs(rules, texts, k, i, bq);
    if inner.Stuck? {
      assert StuckAt(rules, texts, bq, i);
    } else if rest.LexedItems? {
      ItemsCons(rules, texts, k, i, bq, Item(LooseAt(rules, texts, k, i), inner.blocks), rest.items);
    }
  }

  lemma {:induction false} ItemsCons(rules: Rules, texts: seq<string>, k: nat, i: nat, bq: bool, item: Item,
                                     items: seq<Item>)
    requires i < k <= |texts| && ItemIs(rules, texts, k, i, bq, item)
    requires LexesTo(rules, texts, k, i + 1, bq, LexedItems(items))
    ensures LexesTo(rules, texts, k, i, bq, LexedItems([item] + items))
  {
    var all := [item] + items;
    forall n | 0 <= n < k - i
      ensures ItemIs(rules, texts, k, i + n, bq, all[n])
    {
      if n > 0 {
        assert all[n] == items[n - 1] && ItemIs(rules, texts, k, i + 1 + (n - 1), bq, items[n - 1]);
      }
    }
  }

  lemma {:induction false} LexListAre(rules: Rules, list: ListCap, src: string, bq: bool, k: nat)
    requires list.ListCap? && ListFits(rules, list, src) && k == Kept(rules, list.bullet, list.items, 0)
    ensures match LexList(rules, list, src, bq)
            case StuckItem => exists i | 0 <= i < k :: StuckAt(rules, list.items, bq, i)
            case LexedItems(items) => ItemsAre(rules, list.items, k, bq, items)
  {
    ListShrinks(rules, list, src, k);
    LexItemsAre(rules, list.items, k, 0, bq, |src|);
  }

  /** The items that a list does not keep, in front of the rest. */
  function PutBack(list: ListCap, k: nat, src: string): string
    requires list.ListCap? && k <= |list.items| && list.length <= |src|
  {
    (if k == |list.items| then "" else Join(list.items[k..])) + src[list.length..]
  }

  /**
   A list: the items up to where it ends are its own, and those that do not belong to
   it are put back, joined by newlines, in front of the rest.  It is ordered when its
   bullet has more than one character.
   */
  lemma {:induction false} TakesList(rules: Rules, src: string, top: bool, bq: bool, k: nat)
    requires NoHr(rules, src, top) && rules.quote(src).NoQuote? && rules.list(src).ListCap?
    requires EndsAt(rules, rules.list(src), k)
    ensures var list := rules.list(src);
            var l := LexBlock(rules, src, top, bq);
            && 0 < list.length <= |src|
            && |PutBack(list, k, src)| < |src|
            && ((exists i | 0 <= i < k :: StuckAt(rules, list.items, bq, i)) ==> l.Stuck?)
            && ((forall i | 0 <= i < k :: !StuckAt(rules, list.items, bq, i)) ==>
                  exists items ::
                    && ItemsAre(rules, list.items, k, bq, items)
                    && Yields(l, [List(|list.bullet| > 1, items)], [],
                              LexFrom(rules, PutBack(list, k, src), top, bq)))
  {
    var list := rules.list(src);
    LeadingNone(rules, src, top);
    ListCase(rules, src, top, bq);
    KeptEnds(rules, list.bullet, list.items, 0);
    EndsOnce(rules, list, k, Kept(rules, list.bullet, list.items, 0));
    LexListAre(rules, list, src, bq, k);
    ListYields(rules, src, top, bq, k, LexList(rules, list, src, bq));
  }

  lemma {:induction false} ListYields(rules: Rules, src: string, top: bool, bq: bool, k: nat, items: LexedItems)
    requires var list := rules.list(src);
             && list.ListCap? && ListFits(rules, list, src) && 0 < k <= |list.items|
             && (items.StuckItem? ==> Step(rules, src, top, bq, false, "", Shown([])))
             && (items.LexedItems? ==>
                   Step(rules, src, top, bq, true, Join(list.items[k..]) + src[list.length..],
                        Shown([List(|list.bullet| > 1, items.items)])))
             && (items.StuckItem? ==> exists i | 0 <= i < k :: StuckAt(rules, list.items, bq, i))
             && (items.LexedItems? ==> ItemsAre(rules, list.items, k, bq, items.items))
    ensures var list := rules.list(src);
            var l := LexBlock(rules, src, top, bq);
            && |PutBack(list, k, src)| < |src|
            && ((exists i | 0 <= i < k :: StuckAt(rules, list.items, bq, i)) ==> l.Stuck?)
            && ((forall i | 0 <= i < k :: !StuckAt(rules, list.items, bq, i)) ==>
                  exists items ::
                    && ItemsAre(rules, list.items, k, bq, items)
                    && Yields(l, [List(|list.bullet| > 1, items)], [],
                              LexFrom(rules, PutBack(list, k, src), top, bq)))
  {
    var list := rules.list(src);
    ListShrinks(rules, list, src, k);
    if k == |list.items| {
      assert list.items[k..] == [];
    }
    assert PutBack(list, k, src) == Join(list.items[k..]) + src[list.length..];
    if items.LexedItems? {
      forall i | 0 <= i < k
        ensures !StuckAt(rules, list.items, bq, i)
      {
        assert ItemIs(rules, list.items, k, i, bq, items.items[i]);
      }
    }
  }

  // ----- the rules after lists -----

  /** No rule up to list matches. */
  predicate NoList(rules: RuleSet, src: string, top: bool) {
    NoHr(rules, src, top) && rules.quote(src).NoQuote? && rules.list(src).NoList?
  }

  lemma {:induction false} TrailingTakes(rules: Rules, src: string, top: bool, bq: bool, k: nat)
    requires NoList(rules, src, top)
    requires var rs := Trailing(rules, top, bq);
             k < |rs| && rs[k](src).Cap? && forall j | 0 <= j < k :: rs[j](src).NoCap?
    ensures Takes(rules, src, top, bq, Trailing(rules, top, bq)[k](src))
  {
    LeadingNone(rules, src, top);
    FirstAt(Trailing(rules, top, bq), src, k);
    TrailingCase(rules, src, top, bq);
  }

  lemma {:induction false} TakesHtml(rules: Rules, src: string, top: bool, bq: bool)
    requires NoList(rules, src, top) && rules.html(src).Cap?
    ensures Takes(rules, src, top, bq, rules.html(src))
  {
    TrailingTakes(rules, src, top, bq, 0);
  }

  /** Definitions only stand at the top, and not in quotes. */
  lemma {:induction false} TakesDef(rules: Rules, src: string)
    requires NoList(rules, src, true) && rules.html(src).NoCap? && rules.def(src).Cap?
    ensures Takes(rules, src, true, false, rules.def(src))
  {
    TrailingTakes(rules, src, true, false, 1);
  }

  /** No rule up to def matches. */
  predicate NoDef(rules: RuleSet, src: string, top: bool, bq: bool) {
    NoList(rules, src, top) && rules.html(src).NoCap? && (top && !bq ==> rules.def(src).NoCap?)
  }

  lemma {:induction false} TakesTable(rules: Rules, src: string, bq: bool)
    requires NoDef(rules, src, true, bq) && rules.table(src).Cap?
    ensures Takes(rules, src, true, bq, rules.table(src))
  {
    TrailingTakes(rules, src, true, bq, if bq then 1 else 2);
  }

  /** Paragraphs only stand at the top; elsewhere their lines are texts. */
  lemma {:induction false} TakesParagraph(rules: Rules, src: string, bq: bool)
    requires NoDef(rules, src, true, bq) && rules.table(src).NoCap? && rules.paragraph(src).Cap?
    ensures Takes(rules, src, true, bq, rules.paragraph(src))
  {
    TrailingTakes(rules, src, true, bq, if bq then 2 else 3);
  }

  lemma {:induction false} TakesText(rules: Rules, src: string, top: bool, bq: bool)
    requires NoDef(rules, src, top, bq) && rules.text(src).Cap?
    requires top ==> rules.table(src).NoCap? && rules.paragraph(src).NoCap?
    ensures Takes(rules, src, top, bq, rules.text(src))
  {
    TrailingTakes(rules, src, top, bq, if !top then 1 else if bq then 3 else 4);
  }

  /** When no rule matches, the lexer is stuck on a text that is not empty. */
  lemma {:induction false} TakesNothing(rules: Rules, src: string, top: bool, bq: bool)
    requires NoDef(rules, src, top, bq) && rules.text(src).NoCap?
    requires top ==> rules.table(src).NoCap? && rules.paragraph(src).NoCap?
    ensures LexBlock(rules, src, top, bq) == if src == "" then Lexed([], []) else Stuck
  {
    LeadingNone(rules, src, top);
    FirstNone(Trailing(rules, top, bq), src);
    TrailingCase(rules, src, top, bq);
  }

  // ----- before the rules -----

  /** Blank lines are emptied once; before each block newlines are skipped, which leave a space if there are two. */
  lemma {:induction false} SkipsNewlines(rules: Rules, src: string, top: bool, bq: bool)
    ensures Lex(rules, src, top, bq) == LexFrom(rules, rules.blank(src), top, bq)
    ensures src == "" ==> LexFrom(rules, src, top, bq) == Lexed([], [])
    ensures src != "" ==>
              var n := rules.newline(src);
              n <= |src| && Yields(LexFrom(rules, src, top, bq), if n >= 2 then [Single(Space)] else [], [],
                                   LexBlock(rules, src[n..], top, bq))
  {
  }
}
