/**
 The block lexer of doc/swagger/lib/marked.js.  Its regular expressions are
 parameters that are only known to match nonempty prefixes; what is modelled is
 the order in which they are tried, the recursion into quotes and list items,
 and the items that are pushed back when their bullet changes.
 */
module MarkedLexer {
  import opened Sequences
  import opened MarkedBlocks
  import MarkedInline

  /** The definition of a link; the key is in lower case. */
  datatype Definition = Definition(key: string, target: MarkedInline.Target)

  /** What a rule without nesting makes of the text it matched. */
  datatype Piece = Defines(definition: Definition) | LeafPiece(leaf: Leaf) | TextPiece(text: string)

  datatype Cap = NoCap | Cap(length: nat, piece: Piece)

  /** A quote, with its markers removed. */
  datatype QuoteCap = NoQuote | QuoteCap(length: nat, inside: string)

  /** A list: the bullet of its first item, and the text of every item. */
  datatype ListCap = NoList | ListCap(length: nat, bullet: string, items: seq<string>)

  datatype RuleSet = RuleSet(
    blank: string -> string,
    newline: string -> nat,
    code: string -> Cap,
    fences: string -> Cap,
    heading: string -> Cap,
    nptable: string -> Cap,
    lheading: string -> Cap,
    hr: string -> Cap,
    quote: string -> QuoteCap,
    list: string -> ListCap,
    itemBody: string -> string,
    bulletOf: string -> string,
    gap: string -> bool,
    html: string -> Cap,
    def: string -> Cap,
    table: string -> Cap,
    paragraph: string -> Cap,
    text: string -> Cap,
    smartLists: bool)

  /** The rules tried before quotes and lists, in order. */
  function Leading(rules: RuleSet, top: bool): seq<string -> Cap> {
    [rules.code, rules.fences, rules.heading] + (if top then [rules.nptable] else []) + [rules.lheading, rules.hr]
  }

  /** The rules tried after quotes and lists, in order. */
  function Trailing(rules: RuleSet, top: bool, bq: bool): seq<string -> Cap> {
    [rules.html] + (if !bq && top then [rules.def] else []) + (if top then [rules.table, rules.paragraph] else [])
    + [rules.text]
  }

  function FirstCap(rs: seq<string -> Cap>, s: string): Cap {
    if rs == [] then NoCap else if rs[0](s).Cap? then rs[0](s) else FirstCap(rs[1..], s)
  }

  // ----- items -----

  /** items.join('\n') */
  function Join(items: seq<string>): string {
    if items == [] then "" else if |items| == 1 then items[0] else items[0] + "\n" + Join(items[1..])
  }

  function Total(items: seq<string>): nat {
    if items == [] then 0 else |items[0]| + Total(items[1..])
  }

  lemma {:induction false} JoinLength(items: seq<string>)
    requires items != []
    ensures |Join(items)| == Total(items) + |items| - 1
  {
    if |items| > 1 {
      JoinLength(items[1..]);
    } else {
      assert items[1..] == [];
    }
  }

  lemma {:induction false} TotalSplit(items: seq<string>, i: nat)
    requires i <= |items|
    ensures Total(items) == Total(items[..i]) + Total(items[i..])
  {
    if i == 0 {
      assert items[..0] == [] && items[0..] == items;
    } else {
      TotalSplit(items[1..], i - 1);
      assert items[..i][1..] == items[1..][..i - 1] && items[i..] == items[1..][i - 1..];
    }
  }

  lemma {:induction false} TotalNext(items: seq<string>, i: nat)
    requires i < |items|
    ensures Total(items[..i + 1]) == Total(items[..i]) + |items[i]|
  {
    TotalSplit(items[..i + 1], i);
    assert items[..i + 1][..i] == items[..i] && items[..i + 1][i..] == [items[i]];
    assert [items[i]][1..] == [];
  }

  lemma {:induction false} ItemInTotal(items: seq<string>, i: nat)
    requires i < |items|
    ensures |items[i]| <= Total(items)
  {
    if i > 0 {
      ItemInTotal(items[1..], i - 1);
    }
  }

  // ----- nonempty prefixes -----

  ghost predicate Prefixes(rule: string -> Cap) {
    forall s: string | rule(s).Cap? :: 0 < rule(s).length <= |s|
  }

  /** Only the rule def makes definitions. */
  ghost predicate Shows(rule: string -> Cap) {
    forall s: string | rule(s).Cap? :: !rule(s).piece.Defines?
  }

  predicate QuoteFits(q: QuoteCap, s: string) {
    q.QuoteCap? ==> 0 < q.length <= |s| && |q.inside| < q.length
  }

  predicate ListFits(rules: RuleSet, l: ListCap, s: string) {
    l.ListCap? ==>
      && 0 < l.length <= |s| && l.items != [] && |Join(l.items)| <= l.length
      && forall i | 0 <= i < |l.items| :: |rules.itemBody(l.items[i])| < |l.items[i]|
  }

  /** All that is assumed of the regular expressions. */
  ghost predicate Sound(rules: RuleSet) {
    && (forall s: string :: |rules.blank(s)| <= |s|)
    && (forall s: string :: rules.newline(s) <= |s|)
    && Prefixes(rules.code) && Prefixes(rules.fences) && Prefixes(rules.heading) && Prefixes(rules.nptable)
    && Prefixes(rules.lheading) && Prefixes(rules.hr) && Prefixes(rules.html) && Prefixes(rules.def)
    && Prefixes(rules.table) && Prefixes(rules.paragraph) && Prefixes(rules.text)
    && Shows(rules.code) && Shows(rules.fences) && Shows(rules.heading) && Shows(rules.nptable)
    && Shows(rules.lheading) && Shows(rules.hr) && Shows(rules.html) && Shows(rules.table) && Shows(rules.paragraph)
    && Shows(rules.text)
    && (forall s: string :: QuoteFits(rules.quote(s), s))
    && (forall s: string :: ListFits(rules, rules.list(s), s))
  }

  /** Rules that never match. */
  const NO_RULES: RuleSet := RuleSet(s => "", s => 0, s => NoCap, s => NoCap, s => NoCap, s => NoCap, s => NoCap,
                                     s => NoCap,
                                     s => NoQuote, s => NoList, s => s, s => s, s => false,
                                     s => NoCap, s => NoCap, s => NoCap, s => NoCap, s => NoCap, false)

  type Rules = rules: RuleSet | Sound(rules) ghost witness NO_RULES

  lemma {:induction false} FirstCapFits(rs: seq<string -> Cap>, s: string)
    requires forall i | 0 <= i < |rs| :: Prefixes(rs[i])
    ensures FirstCap(rs, s).Cap? ==> 0 < FirstCap(rs, s).length <= |s|
  {
    if rs != [] {
      assert Prefixes(rs[0]);
      forall i | 0 <= i < |rs| - 1
        ensures Prefixes(rs[1..][i])
      {
        assert rs[1..][i] == rs[i + 1];
      }
      FirstCapFits(rs[1..], s);
    }
  }

  lemma {:induction false} LeadingFits(rules: Rules, top: bool, s: string)
    ensures var cap := FirstCap(Leading(rules, top), s); cap.Cap? ==> 0 < cap.length <= |s|
  {
    FirstCapFits(Leading(rules, top), s);
  }

  lemma {:induction false} TrailingFits(rules: Rules, top: bool, bq: bool, s: string)
    ensures var cap := FirstCap(Trailing(rules, top, bq), s); cap.Cap? ==> 0 < cap.length <= |s|
  {
    FirstCapFits(Trailing(rules, top, bq), s);
  }

  // ----- the document that the lexer finds -----

  /** Stuck is the error thrown when no rule matches. */
  datatype Lexed = Stuck | Lexed(blocks: seq<Block>, definitions: seq<Definition>)

  /** What some rounds of the loop add: blocks, and definitions of links. */
  datatype Part = Part(blocks: seq<Block>, definitions: seq<Definition>)

  function Both(a: Part, b: Part): Part {
    Part(a.blocks + b.blocks, a.definitions + b.definitions)
  }

  function Shown(blocks: seq<Block>): Part {
    Part(blocks, [])
  }

  datatype LexedItems = StuckItem | LexedItems(items: seq<Item>)

  function Prepend(p: Part, l: Lexed): Lexed {
    if l.Stuck? then l else Lexed(p.blocks + l.blocks, p.definitions + l.definitions)
  }

  function PartOf(p: Piece): Part {
    match p
    case Defines(definition) => Part([], [definition])
    case LeafPiece(leaf) => Shown([Single(leaf)])
    case TextPiece(text) => Shown([Text(text)])
  }

  function Spaces(newlines: nat): Part {
    Shown(if newlines > 1 then [Single(Space)] else [])
  }

  /** Whether an item's bullet starts another list. */
  predicate OtherList(rules: RuleSet, bullet: string, item: string) {
    rules.smartLists && rules.bulletOf(item) != bullet && !(|bullet| > 1 && |rules.bulletOf(item)| > 1)
  }

  /** How many items, from the i-th on, belong to the list: at least one. */
  function Kept(rules: RuleSet, bullet: string, items: seq<string>, i: nat): (k: nat)
    requires i < |items|
    ensures i < k <= |items|
    decreases |items| - i
  {
    if i == |items| - 1 || OtherList(rules, bullet, items[i + 1]) then i + 1
    else Kept(rules, bullet, items, i + 1)
  }

  predicate EndsInNewline(s: string) {
    s != "" && s[|s| - 1] == '\n'
  }

  function Lex(rules: Rules, src: string, top: bool, bq: bool): Lexed
    decreases |src|, 4
  {
    LexFrom(rules, rules.blank(src), top, bq)
  }

  /** One round of the loop, and the rest. */
  function LexFrom(rules: Rules, src: string, top: bool, bq: bool): Lexed
    decreases |src|, 3
  {
    if src == "" then Lexed([], [])
    else
      var n := rules.newline(src);
      Prepend(Spaces(n), LexBlock(rules, src[n..], top, bq))
  }

  function LexBlock(rules: Rules, src: string, top: bool, bq: bool): Lexed
    decreases |src|, 2
  {
    LeadingFits(rules, top, src);
    TrailingFits(rules, top, bq, src);
    var cap := FirstCap(Leading(rules, top), src);
    var quote, list := rules.quote(src), rules.list(src);
    assert QuoteFits(quote, src) && ListFits(rules, list, src);
    var later := FirstCap(Trailing(rules, top, bq), src);
    if cap.Cap? then Prepend(PartOf(cap.piece), LexFrom(rules, src[cap.length..], top, bq))
    else if quote.QuoteCap? then
      var inner := Lex(rules, quote.inside, top, true);
      if inner.Stuck? then Stuck
      else Prepend(Shown([Quote(inner.blocks)]), LexFrom(rules, src[quote.length..], top, bq))
    else if list.ListCap? then
      var k := Kept(rules, list.bullet, list.items, 0);
      ListShrinks(rules, list, src, k);
      var items := LexList(rules, list, src, bq);
      if items.StuckItem? then Stuck
      else
        Prepend(Shown([List(|list.bullet| > 1, items.items)]),
                LexFrom(rules, Join(list.items[k..]) + src[list.length..], top, bq))
    else if later.Cap? then Prepend(PartOf(later.piece), LexFrom(rules, src[later.length..], top, bq))
    else if src == "" then Lexed([], [])
    else Stuck
  }

  function LexList(rules: Rules, list: ListCap, src: string, bq: bool): LexedItems
    requires list.ListCap? && ListFits(rules, list, src)
    decreases |src|, 1
  {
    var k := Kept(rules, list.bullet, list.items, 0);
    ListShrinks(rules, list, src, k);
    LexItems(rules, list.items, k, 0, bq, |src|)
  }

  /** An item is loose when a blank line splits it, or follows it or precedes it in the list. */
  predicate LooseAt(rules: RuleSet, items: seq<string>, k: nat, i: nat)
    requires i < k <= |items|
  {
    || rules.gap(rules.itemBody(items[i]))
    || (i < k - 1 && EndsInNewline(rules.itemBody(items[i])))
    || (i > 0 && EndsInNewline(rules.itemBody(items[i - 1])))
  }

  /** The items that are kept. */
  function LexItems(rules: Rules, items: seq<string>, k: nat, i: nat, bq: bool, ghost size: nat): LexedItems
    requires i <= k <= |items|
    requires forall j | 0 <= j < |items| :: |rules.itemBody(items[j])| < |items[j]| <= size
    decreases size, 0, k - i
  {
    if i == k then LexedItems([])
    else
      var inner := Lex(rules, rules.itemBody(items[i]), false, bq);
      if inner.Stuck? then StuckItem
      else
        var rest := LexItems(rules, items, k, i + 1, bq, size);
        if rest.StuckItem? then StuckItem
        else LexedItems([Item(LooseAt(rules, items, k, i), inner.blocks)] + rest.items)
  }

  /** What is pushed back is shorter than what the list had taken, and so is every item. */
  lemma {:induction false} ListShrinks(rules: Rules, list: ListCap, src: string, k: nat)
    requires list.ListCap? && ListFits(rules, list, src) && 0 < k <= |list.items|
    ensures |Join(list.items[k..]) + src[list.length..]| < |src|
    ensures forall j | 0 <= j < |list.items| :: |list.items[j]| <= |src|
    ensures Total(list.items[..k]) - k + 1 + |Join(list.items[k..])| <= list.length
  {
    var items := list.items;
    JoinLength(items);
    TotalSplit(items, k);
    if k < |items| {
      JoinLength(items[k..]);
    }
    assert |rules.itemBody(items[0])| < |items[0]|;
    ItemInTotal(items[..k], 0);
    forall j | 0 <= j < |items|
      ensures |items[j]| <= |src|
    {
      ItemInTotal(items, j);
    }
  }

  // ----- the cases of a round -----

  /** A block of the document has been found, or the lexer is stuck. */
  predicate Step(rules: Rules, src: string, top: bool, bq: bool, ok: bool, rest: string, part: Part) {
    if ok then LexBlock(rules, src, top, bq) == Prepend(part, LexFrom(rules, rest, top, bq))
    else LexBlock(rules, src, top, bq).Stuck?
  }

  lemma {:induction false} LeadingCase(rules: Rules, src: string, top: bool, bq: bool, cap: Cap)
    requires cap.Cap? && FirstCap(Leading(rules, top), src) == cap
    ensures 0 < cap.length <= |src|
    ensures Step(rules, src, top, bq, true, src[cap.length..], PartOf(cap.piece))
  {
    LeadingFits(rules, top, src);
  }

  lemma {:induction false} QuoteCase(rules: Rules, src: string, top: bool, bq: bool)
    requires FirstCap(Leading(rules, top), src).NoCap? && rules.quote(src).QuoteCap?
    ensures var quote := rules.quote(src);
            var inner := Lex(rules, quote.inside, top, true);
            && 0 < quote.length <= |src| && |quote.inside| < quote.length
            && (inner.Lexed? ==> Step(rules, src, top, bq, true, src[quote.length..], Shown([Quote(inner.blocks)])))
            && (inner.Stuck? ==> Step(rules, src, top, bq, false, "", Shown([])))
  {
    assert QuoteFits(rules.quote(src), src);
  }

  predicate Nested(rules: Rules, src: string, top: bool) {
    FirstCap(Leading(rules, top), src).Cap? || rules.quote(src).QuoteCap?
  }

  lemma {:induction false} ListCase(rules: Rules, src: string, top: bool, bq: bool)
    requires !Nested(rules, src, top) && rules.list(src).ListCap?
    ensures var list := rules.list(src);
            && ListFits(rules, list, src)
            && var items := LexList(rules, list, src, bq);
               var k := Kept(rules, list.bullet, list.items, 0);
            && (items.LexedItems? ==>
                  Step(rules, src, top, bq, true, Join(list.items[k..]) + src[list.length..],
                       Shown([List(|list.bullet| > 1, items.items)])))
            && (items.StuckItem? ==> Step(rules, src, top, bq, false, "", Shown([])))
  {
    var list := rules.list(src);
    assert ListFits(rules, list, src);
    ListShrinks(rules, list, src, Kept(rules, list.bullet, list.items, 0));
  }

  lemma {:induction false} TrailingCase(rules: Rules, src: string, top: bool, bq: bool)
    requires !Nested(rules, src, top) && rules.list(src).NoList?
    ensures var cap := FirstCap(Trailing(rules, top, bq), src);
            && (cap.Cap? ==> 0 < cap.length <= |src|)
            && (cap.Cap? ==> Step(rules, src, top, bq, true, src[cap.length..], PartOf(cap.piece)))
            && (cap.NoCap? ==> Step(rules, src, top, bq, src == "", "", Shown([])))
  {
    TrailingFits(rules, top, bq, src);
  }

  // ----- the lexer itself -----

  lemma {:induction false} PrependTwice(a: Part, b: Part, l: Lexed)
    ensures Prepend(a, Prepend(b, l)) == Prepend(Both(a, b), l)
  {
    if l.Lexed? {
      assert a.blocks + (b.blocks + l.blocks) == a.blocks + b.blocks + l.blocks;
      assert a.definitions + (b.definitions + l.definitions) == a.definitions + b.definitions + l.definitions;
    }
  }

  lemma {:induction false} PrependNothing(l: Lexed)
    ensures Prepend(Shown([]), l) == l
  {
    if l.Lexed? {
      assert [] + l.blocks == l.blocks && [] + l.definitions == l.definitions;
    }
  }

  // ----- definitions of links -----

  /** tokens.links after these definitions: a later one replaces an earlier one. */
  function Noted(links: MarkedInline.Links, definitions: seq<Definition>): MarkedInline.Links
    decreases definitions
  {
    if definitions == [] then links
    else Noted(links[definitions[0].key := definitions[0].target], definitions[1..])
  }

  lemma {:induction false} NotedTwice(links: MarkedInline.Links, a: seq<Definition>, b: seq<Definition>)
    ensures Noted(Noted(links, a), b) == Noted(links, a + b)
    decreases a
  {
    if a == [] {
      assert a + b == b;
    } else {
      assert (a + b)[1..] == a[1..] + b;
      NotedTwice(links[a[0].key := a[0].target], a[1..], b);
    }
  }

  /** This is the last definition of the key. */
  predicate LastOf(definitions: seq<Definition>, i: nat, key: string) {
    && i < |definitions| && definitions[i].key == key
    && forall j | i < j < |definitions| :: definitions[j].key != key
  }

  lemma {:induction false} NotedLast(links: MarkedInline.Links, definitions: seq<Definition>, key: string)
    ensures var noted := Noted(links, definitions);
            && (forall i: nat | LastOf(definitions, i, key) :: key in noted && noted[key] == definitions[i].target)
            && ((forall d <- definitions :: d.key != key) ==>
                  (key in noted <==> key in links) && (key in links ==> noted[key] == links[key]))
    decreases definitions
  {
    if definitions != [] {
      var d := definitions[0];
      var more := links[d.key := d.target];
      NotedLast(more, definitions[1..], key);
      forall i: nat | LastOf(definitions, i, key)
        ensures var noted := Noted(links, definitions); key in noted && noted[key] == definitions[i].target
      {
        if i > 0 {
          assert LastOf(definitions[1..], i - 1, key);
        } else {
          assert forall e <- definitions[1..] :: e.key != key;
        }
      }
    }
  }

  lemma {:induction false} FindLast(definitions: seq<Definition>, key: string) returns (i: nat)
    requires exists d <- definitions :: d.key == key
    ensures LastOf(definitions, i, key)
  {
    i := |definitions| - 1;
    while definitions[i].key != key
      invariant i < |definitions| && exists j | 0 <= j <= i :: definitions[j].key == key
      invariant forall j | i < j < |definitions| :: definitions[j].key != key
      decreases i
    {
      i := i - 1;
    }
  }

  /** A reference is resolved exactly when the last definition of its key has an address, to which it then leads. */
  lemma {:induction false} ResolvedIff(definitions: seq<Definition>, a: MarkedInline.Action)
    requires a.Reference?
    ensures var links := Noted(map[], definitions);
            && (!MarkedInline.IsUnresolved(links, a)
                <==> exists i: nat :: LastOf(definitions, i, a.key) && definitions[i].target.href != "")
            && forall i: nat | LastOf(definitions, i, a.key) ::
                 a.key in links && links[a.key] == definitions[i].target
  {
    NotedLast(map[], definitions, a.key);
    if exists d <- definitions :: d.key == a.key {
      var i := FindLast(definitions, a.key);
    }
  }

  // ----- nested texts define nothing -----

  lemma {:induction false} FirstShows(rs: seq<string -> Cap>, s: string)
    requires forall i | 0 <= i < |rs| :: Shows(rs[i])
    ensures FirstCap(rs, s).Cap? ==> !FirstCap(rs, s).piece.Defines?
  {
    if rs != [] {
      assert Shows(rs[0]);
      forall i | 0 <= i < |rs| - 1
        ensures Shows(rs[1..][i])
      {
        assert rs[1..][i] == rs[i + 1];
      }
      FirstShows(rs[1..], s);
    }
  }

  predicate DefinesNothing(l: Lexed) {
    l.Lexed? ==> l.definitions == []
  }

  lemma {:induction false} NestedDefinesNothing(rules: Rules, src: string, top: bool, bq: bool)
    requires bq || !top
    ensures DefinesNothing(Lex(rules, src, top, bq))
    decreases |src|, 4
  {
    NestedFrom(rules, rules.blank(src), top, bq);
  }

  lemma {:induction false} NestedFrom(rules: Rules, src: string, top: bool, bq: bool)
    requires bq || !top
    ensures DefinesNothing(LexFrom(rules, src, top, bq))
    decreases |src|, 3
  {
    if src != "" {
      NestedBlock(rules, src[rules.newline(src)..], top, bq);
    }
  }

  lemma {:induction false} NestedBlock(rules: Rules, src: string, top: bool, bq: bool)
    requires bq || !top
    ensures DefinesNothing(LexBlock(rules, src, top, bq))
    decreases |src|, 2
  {
    if FirstCap(Leading(rules, top), src).Cap? {
      NestedLeading(rules, src, top, bq);
    } else if rules.quote(src).QuoteCap? {
      NestedQuote(rules, src, top, bq);
    } else if rules.list(src).ListCap? {
      NestedList(rules, src, top, bq);
    } else {
      NestedTrailing(rules, src, top, bq);
    }
  }

  /** A part without definitions in front of a rest without them. */
  lemma {:induction false} StepDefinesNothing(rules: Rules, src: string, top: bool, bq: bool, ok: bool, rest: string,
                                              part: Part)
    requires Step(rules, src, top, bq, ok, rest, part)
    requires ok ==> part.definitions == [] && DefinesNothing(LexFrom(rules, rest, top, bq))
    ensures DefinesNothing(LexBlock(rules, src, top, bq))
  {
  }

  lemma {:induction false} NestedLeading(rules: Rules, src: string, top: bool, bq: bool)
    requires bq || !top
    requires FirstCap(Leading(rules, top), src).Cap?
    ensures DefinesNothing(LexBlock(rules, src, top, bq))
    decreases |src|, 1
  {
    var cap := FirstCap(Leading(rules, top), src);
    FirstShows(Leading(rules, top), src);
    LeadingCase(rules, src, top, bq, cap);
    NestedFrom(rules, src[cap.length..], top, bq);
    StepDefinesNothing(rules, src, top, bq, true, src[cap.length..], PartOf(cap.piece));
  }

  lemma {:induction false} NestedQuote(rules: Rules, src: string, top: bool, bq: bool)
    requires bq || !top
    requires FirstCap(Leading(rules, top), src).NoCap? && rules.quote(src).QuoteCap?
    ensures DefinesNothing(LexBlock(rules, src, top, bq))
    decreases |src|, 1
  {
    var quote := rules.quote(src);
    QuoteCase(rules, src, top, bq);
    NestedFrom(rules, src[quote.length..], top, bq);
    var inner := Lex(rules, quote.inside, top, true);
    if inner.Lexed? {
      StepDefinesNothing(rules, src, top, bq, true, src[quote.length..], Shown([Quote(inner.blocks)]));
    }
  }

  lemma {:induction false} NestedList(rules: Rules, src: string, top: bool, bq: bool)
    requires bq || !top
    requires !Nested(rules, src, top) && rules.list(src).ListCap?
    ensures DefinesNothing(LexBlock(rules, src, top, bq))
    decreases |src|, 1
  {
    var list := rules.list(src);
    ListCase(rules, src, top, bq);
    var k := Kept(rules, list.bullet, list.items, 0);
    ListShrinks(rules, list, src, k);
    var rest, items := Join(list.items[k..]) + src[list.length..], LexList(rules, list, src, bq);
    NestedFrom(rules, rest, top, bq);
    if items.LexedItems? {
      StepDefinesNothing(rules, src, top, bq, true, rest, Shown([List(|list.bullet| > 1, items.items)]));
    }
  }

  lemma {:induction false} NestedTrailing(rules: Rules, src: string, top: bool, bq: bool)
    requires bq || !top
    requires !Nested(rules, src, top) && rules.list(src).NoList?
    ensures DefinesNothing(LexBlock(rules, src, top, bq))
    decreases |src|, 1
  {
    TrailingCase(rules, src, top, bq);
    FirstShows(Trailing(rules, top, bq), src);
    var later := FirstCap(Trailing(rules, top, bq), src);
    if later.Cap? {
      NestedFrom(rules, src[later.length..], top, bq);
      StepDefinesNothing(rules, src, top, bq, true, src[later.length..], PartOf(later.piece));
    } else {
      StepDefinesNothing(rules, src, top, bq, src == "", "", Shown([]));
    }
  }

  lemma {:induction false} FlattenConcat(a: seq<Block>, b: seq<Block>)
    ensures Flatten(a + b) == Flatten(a) + Flatten(b)
  {
    if a == [] {
      assert a + b == b;
    } else {
      FlattenConcat(a[1..], b);
      assert (a + b)[1..] == a[1..] + b;
      Associate(FlattenBlock(a[0]), Flatten(a[1..]), Flatten(b));
    }
  }

  lemma {:induction false} Append(before: seq<Token>, a: seq<Block>, b: seq<Block>)
    ensures before + Flatten(a) + Flatten(b) == before + Flatten(a + b)
  {
    FlattenConcat(a, b);
    Associate(before, Flatten(a), Flatten(b));
  }

  lemma {:induction false} AppendItem(before: seq<Token>, items: seq<Item>, item: Item)
    ensures before + FlattenItems(items) + ([ItemOpening(item.loose)] + Flatten(item.blocks) + [ItemEnd])
         == before + FlattenItems(items + [item])
  {
    FlattenItemsSnoc(items, item);
    Associate(before, FlattenItems(items), [ItemOpening(item.loose)] + Flatten(item.blocks) + [ItemEnd]);
  }

  lemma {:induction false} Bracket(before: seq<Token>, open: Token, inside: seq<Token>, close: Token)
    ensures before + [open] + inside + [close] == before + ([open] + inside + [close])
  {
  }

  lemma {:induction false} FlattenSpaces(n: nat)
    ensures Flatten(Spaces(n).blocks) == if n > 1 then [Plain(Space)] else []
  {
    if n > 1 {
      FlattenOne(Single(Space));
    }
  }

  lemma {:induction false} FlattenOne(b: Block)
    ensures Flatten([b]) == FlattenBlock(b)
  {
    assert [b][1..] == [];
  }

  function PrependItems(items: seq<Item>, l: LexedItems): LexedItems {
    if l.StuckItem? then l else LexedItems(items + l.items)
  }

  lemma {:induction false} PrependItem(items: seq<Item>, item: Item, l: LexedItems)
    ensures PrependItems(items, PrependItems([item], l)) == PrependItems(items + [item], l)
  {
    if l.LexedItems? {
      assert items + ([item] + l.items) == items + [item] + l.items;
    }
  }

  lemma {:induction false} FlattenItemsSnoc(items: seq<Item>, item: Item)
    ensures FlattenItems(items + [item])
         == FlattenItems(items) + ([ItemOpening(item.loose)] + Flatten(item.blocks) + [ItemEnd])
  {
    var last := [ItemOpening(item.loose)] + Flatten(item.blocks) + [ItemEnd];
    if items == [] {
      assert [item][1..] == [] && items + [item] == [item];
      assert FlattenItems([item]) == last + [];
    } else {
      FlattenItemsSnoc(items[1..], item);
      assert (items + [item])[1..] == items[1..] + [item];
      var first := [ItemOpening(items[0].loose)] + Flatten(items[0].blocks) + [ItemEnd];
      Associate(first, FlattenItems(items[1..]), last);
    }
  }

  lemma {:induction false} ItemsStep(rules: Rules, items: seq<string>, k: nat, i: nat, bq: bool, size: nat,
                                     made: seq<Item>)
    requires i < k <= |items|
    requires forall j | 0 <= j < |items| :: |rules.itemBody(items[j])| < |items[j]| <= size
    ensures var inner := Lex(rules, rules.itemBody(items[i]), false, bq);
            PrependItems(made, LexItems(rules, items, k, i, bq, size))
            == if inner.Stuck? then StuckItem
               else PrependItems(made + [Item(LooseAt(rules, items, k, i), inner.blocks)],
                                 LexItems(rules, items, k, i + 1, bq, size))
  {
    var inner := Lex(rules, rules.itemBody(items[i]), false, bq);
    if inner.Lexed? {
      PrependItem(made, Item(LooseAt(rules, items, k, i), inner.blocks), LexItems(rules, items, k, i + 1, bq, size));
    }
  }

  /** Whether the item before the j-th ended in a newline. */
  predicate NewlineBefore(rules: RuleSet, items: seq<string>, j: nat)
    requires j < |items|
  {
    j > 0 && EndsInNewline(rules.itemBody(items[j - 1]))
  }

  /** The loop over the items of a list, j of which are done; i is past the end once the list is. */
  predicate ListState(rules: Rules, list: ListCap, src: string, bq: bool, i: nat, j: nat, next: bool, rest: string,
                      made: seq<Item>) {
    && list.ListCap? && ListFits(rules, list, src)
    && var items, tail, k := list.items, src[list.length..], Kept(rules, list.bullet, list.items, 0);
    && j <= k
    && (if i < |items|
        then i == j && k == Kept(rules, list.bullet, items, j) && rest == tail && next == NewlineBefore(rules, items, j)
        else i == |items| && j == k && rest == Join(items[k..]) + tail)
    && (forall n | 0 <= n < |items| :: |items[n]| <= |src|)
    && LexList(rules, list, src, bq) == PrependItems(made, LexItems(rules, items, k, j, bq, |src|))
  }

  lemma {:induction false} ListBegin(rules: Rules, list: ListCap, src: string, bq: bool)
    requires list.ListCap? && ListFits(rules, list, src)
    ensures ListState(rules, list, src, bq, 0, 0, false, src[list.length..], [])
    ensures list.items[..0] == []
  {
    ListShrinks(rules, list, src, Kept(rules, list.bullet, list.items, 0));
    var items := LexList(rules, list, src, bq);
    assert items.LexedItems? ==> [] + items.items == items.items;
  }

  /** One item more, with the loop variables as the code computes them. */
  lemma {:induction false} ListNext(rules: Rules, list: ListCap, src: string, bq: bool, j: nat, before: bool,
                                    made: seq<Item>,
                 i: nat, next: bool, rest: string, loose: bool)
    requires list.ListCap? && ListFits(rules, list, src) && j < |list.items|
    requires ListState(rules, list, src, bq, j, j, before, src[list.length..], made)
    requires var items, tail := list.items, src[list.length..];
             var last := j == |items| - 1 || OtherList(rules, list.bullet, items[j + 1]);
             var body := rules.itemBody(items[j]);
             && i == (if last then |items| - 1 else j)
             && rest == (if last && j < |items| - 1 then Join(items[j + 1..]) + tail else tail)
             && next == (if last then before else EndsInNewline(body))
             && loose == (before || rules.gap(body) || (!last && EndsInNewline(body)))
    ensures var body := rules.itemBody(list.items[j]);
            var inner := Lex(rules, body, false, bq);
            && (inner.Stuck? ==> LexList(rules, list, src, bq).StuckItem?)
            && (inner.Lexed? ==>
                  ListState(rules, list, src, bq, i + 1, j + 1, next, rest, made + [Item(loose, inner.blocks)]))
            && |body| < |list.items[j]| <= |src|
  {
    var items, k := list.items, Kept(rules, list.bullet, list.items, 0);
    ItemsStep(rules, items, k, j, bq, |src|, made);
    assert loose == LooseAt(rules, items, k, j);
    if j == |items| - 1 {
      assert Join(items[k..]) + src[list.length..] == src[list.length..];
    }
  }

  lemma {:induction false} ItemTotals(rules: Rules, list: ListCap, src: string, j: nat)
    requires list.ListCap? && ListFits(rules, list, src) && j < |list.items|
    ensures Total(list.items[..j + 1]) == Total(list.items[..j]) + |list.items[j]| <= |src|
  {
    TotalNext(list.items, j);
    TotalSplit(list.items, j + 1);
    JoinLength(list.items);
  }

  lemma {:induction false} CloseList(list: Block, before: seq<Token>)
    requires list.List?
    ensures before + [ListStart(list.ordered)] + FlattenItems(list.items) + [ListEnd] == before + Flatten([list])
  {
    FlattenOne(list);
    Bracket(before, ListStart(list.ordered), FlattenItems(list.items), ListEnd);
  }

  lemma {:induction false} ListEnds(rules: Rules, list: ListCap, src: string, bq: bool, i: nat, j: nat, next: bool,
                                    rest: string, made: seq<Item>)
    requires ListState(rules, list, src, bq, i, j, next, rest, made) && i >= |list.items|
    ensures LexList(rules, list, src, bq) == LexedItems(made)
    ensures rest == Join(list.items[Kept(rules, list.bullet, list.items, 0)..]) + src[list.length..]
    ensures Total(list.items[..j]) - j + 1 + |rest| <= |src| && |rest| < |src|
  {
    ListShrinks(rules, list, src, j);
    assert made + [] == made;
  }

  lemma {:induction false} SpacesFirst(rules: Rules, src: string, top: bool, bq: bool, rest: string, part: Part,
                                       before: seq<Token>)
    requires src != "" && Step(rules, src[rules.newline(src)..], top, bq, true, rest, part)
    ensures var n := rules.newline(src);
            var both := Both(Spaces(n), part);
            && LexFrom(rules, src, top, bq) == Prepend(both, LexFrom(rules, rest, top, bq))
            && before + Flatten(Spaces(n).blocks) + Flatten(part.blocks) == before + Flatten(both.blocks)
            && both.definitions == part.definitions
  {
    var n := rules.newline(src);
    PrependTwice(Spaces(n), part, LexFrom(rules, rest, top, bq));
    Append(before, Spaces(n).blocks, part.blocks);
    assert [] + part.definitions == part.definitions;
  }

  class Lexer {
    const rules: Rules
    var tokens: seq<Token>
    /** tokens.links */
    var links: MarkedInline.Links
    /** How many rounds of the loop there have been, nested ones included. */
    ghost var rounds: nat

    constructor (rules: Rules)
      ensures this.rules == rules && tokens == [] && links == map[] && rounds == 0
    {
      this.rules, tokens, links, rounds := rules, [], map[], 0;
    }

    /** token: pushes the tokens of the document in src, in at most |src| rounds. */
    method Tokenize(src: string, top: bool, bq: bool) returns (ok: bool)
      modifies this
      ensures ok <==> Lex(rules, src, top, bq).Lexed?
      ensures ok ==> tokens == old(tokens) + Flatten(Lex(rules, src, top, bq).blocks)
      ensures ok ==> links == Noted(old(links), Lex(rules, src, top, bq).definitions)
      ensures rounds <= old(rounds) + |src|
      decreases |src|, 5
    {
      var rest := rules.blank(src);
      ghost var goal, done := LexFrom(rules, rest, top, bq), Shown([]);
      PrependNothing(goal);
      while rest != ""
        invariant |rest| <= |src| && rounds + |rest| <= old(rounds) + |src|
        invariant goal == Prepend(done, LexFrom(rules, rest, top, bq))
        invariant tokens == old(tokens) + Flatten(done.blocks) && links == Noted(old(links), done.definitions)
        decreases |rest|
      {
        ghost var part;
        ok, rest, part := Round(rest, top, bq);
        if !ok {
          return;
        }
        PrependTwice(done, part, LexFrom(rules, rest, top, bq));
        Append(old(tokens), done.blocks, part.blocks);
        NotedTwice(old(links), done.definitions, part.definitions);
        done := Both(done, part);
      }
      ok := true;
      assert done.blocks + [] == done.blocks && done.definitions + [] == done.definitions;
    }

    /** One round of the loop of token. */
    method Round(src: string, top: bool, bq: bool) returns (ok: bool, rest: string, ghost part: Part)
      requires src != ""
      modifies this
      ensures !ok ==> LexFrom(rules, src, top, bq).Stuck?
      ensures ok ==> LexFrom(rules, src, top, bq) == Prepend(part, LexFrom(rules, rest, top, bq))
      ensures ok ==> tokens == old(tokens) + Flatten(part.blocks) && links == Noted(old(links), part.definitions)
      ensures rounds + (if ok then |rest| else 0) <= old(rounds) + |src|
      ensures ok ==> |rest| < |src|
      decreases |src|, 4
    {
      var n := rules.newline(src);
      PushSpaces(n);
      rounds := rounds + 1;
      ok, rest, part := TokenizeBlock(src[n..], top, bq);
      if ok {
        SpacesFirst(rules, src, top, bq, rest, part, old(tokens));
        part := Both(Spaces(n), part);
      }
    }

    method PushSpaces(n: nat)
      modifies this`tokens
      ensures tokens == old(tokens) + Flatten(Spaces(n).blocks)
    {
      FlattenSpaces(n);
      if n > 1 {
        tokens := tokens + [Plain(Space)];
      }
    }

    /** The rules after newline, in order. */
    method TokenizeBlock(src: string, top: bool, bq: bool) returns (ok: bool, rest: string, ghost part: Part)
      modifies this
      ensures Step(rules, src, top, bq, ok, rest, part)
      ensures ok ==> tokens == old(tokens) + Flatten(part.blocks) && links == Noted(old(links), part.definitions)
      ensures rounds + (if ok then |rest| else 0) + (if src == "" then 0 else 1) <= old(rounds) + |src|
      ensures ok ==> if src == "" then rest == "" else |rest| < |src|
      decreases |src|, 3
    {
      var cap := FirstCap(Leading(rules, top), src);
      if cap.Cap? {
        LeadingCase(rules, src, top, bq, cap);
        ok, rest, part := true, src[cap.length..], PartOf(cap.piece);
        PushPiece(cap.piece);
      } else if rules.quote(src).QuoteCap? {
        QuoteCase(rules, src, top, bq);
        var quote := rules.quote(src);
        ok, part := TokenizeQuote(quote.inside, top);
        rest := src[quote.length..];
      } else if rules.list(src).ListCap? {
        ListCase(rules, src, top, bq);
        ok, rest, part := TokenizeList(rules.list(src), src, bq);
      } else {
        ok, rest, part := TokenizeTrailing(src, top, bq);
      }
    }

    method TokenizeTrailing(src: string, top: bool, bq: bool) returns (ok: bool, rest: string, ghost part: Part)
      requires !Nested(rules, src, top) && rules.list(src).NoList?
      modifies this`tokens, this`links
      ensures Step(rules, src, top, bq, ok, rest, part)
      ensures ok ==> tokens == old(tokens) + Flatten(part.blocks) && links == Noted(old(links), part.definitions)
      ensures ok ==> if src == "" then rest == "" else |rest| < |src|
    {
      TrailingCase(rules, src, top, bq);
      var cap := FirstCap(Trailing(rules, top, bq), src);
      if cap.Cap? {
        ok, rest, part := true, src[cap.length..], PartOf(cap.piece);
        PushPiece(cap.piece);
      } else {
        ok, rest, part := src == "", "", Shown([]);
      }
    }

    method PushPiece(p: Piece)
      modifies this`tokens, this`links
      ensures tokens == old(tokens) + Flatten(PartOf(p).blocks) && links == Noted(old(links), PartOf(p).definitions)
    {
      if p.Defines? {
        links := links[p.definition.key := p.definition.target];
      } else if p.LeafPiece? {
        tokens := tokens + [Plain(p.leaf)];
        FlattenOne(Single(p.leaf));
      } else if p.TextPiece? {
        tokens := tokens + [TextToken(p.text)];
        FlattenOne(Text(p.text));
      }
    }

    method TokenizeQuote(inside: string, top: bool) returns (ok: bool, ghost part: Part)
      modifies this
      ensures ok <==> Lex(rules, inside, top, true).Lexed?
      ensures ok ==> part == Shown([Quote(Lex(rules, inside, top, true).blocks)])
      ensures ok ==> tokens == old(tokens) + Flatten(part.blocks) && links == old(links)
      ensures rounds <= old(rounds) + |inside|
      decreases |inside|, 6
    {
      ghost var start := tokens;
      tokens := tokens + [QuoteStart];
      ok := Tokenize(inside, top, true);
      part := Shown([]);
      if ok {
        ghost var quote := Quote(Lex(rules, inside, top, true).blocks);
        part := Shown([quote]);
        NestedDefinesNothing(rules, inside, top, true);
        FlattenOne(quote);
        Bracket(start, QuoteStart, Flatten(quote.blocks), QuoteEnd);
      }
      tokens := tokens + [QuoteEnd];
    }

    /** A list; items with another bullet are pushed back in front of the rest. */
    method TokenizeList(list: ListCap, src: string, bq: bool) returns (ok: bool, rest: string, ghost part: Part)
      requires list.ListCap? && ListFits(rules, list, src)
      modifies this
      ensures var items := LexList(rules, list, src, bq);
              && (ok <==> items.LexedItems?)
              && (ok ==> part == Shown([List(|list.bullet| > 1, items.items)]))
              && (ok ==> tokens == old(tokens) + Flatten(part.blocks) && links == old(links))
      ensures ok ==> rest == Join(list.items[Kept(rules, list.bullet, list.items, 0)..]) + src[list.length..]
      ensures rounds + (if ok then |rest| else 0) + 1 <= old(rounds) + |src|
      ensures ok ==> |rest| < |src|
      decreases |src|, 2
    {
      tokens := tokens + [ListStart(|list.bullet| > 1)];
      ghost var made;
      ok, rest, made := TokenizeItems(list, src, bq);
      part := Shown([List(|list.bullet| > 1, made)]);
      CloseList(part.blocks[0], old(tokens));
      tokens := tokens + [ListEnd];
    }

    /** The loop over the items of a list. */
    method TokenizeItems(list: ListCap, src: string, bq: bool) returns (ok: bool, rest: string, ghost made: seq<Item>)
      requires list.ListCap? && ListFits(rules, list, src)
      modifies this
      ensures LexList(rules, list, src, bq) == if ok then LexedItems(made) else StuckItem
      ensures ok ==> tokens == old(tokens) + FlattenItems(made) && links == old(links)
      ensures ok ==> rest == Join(list.items[Kept(rules, list.bullet, list.items, 0)..]) + src[list.length..]
      ensures rounds + (if ok then |rest| else 0) + 1 <= old(rounds) + |src|
      ensures ok ==> |rest| < |src|
      decreases |src|, 1
    {
      var l := |list.items|;
      ghost var j := 0;
      rest, made := src[list.length..], [];
      var next, i := false, 0;
      ListBegin(rules, list, src, bq);
      while i < l
        invariant ListState(rules, list, src, bq, i, j, next, rest, made)
        invariant tokens == old(tokens) + FlattenItems(made) && links == old(links)
        invariant rounds + j <= old(rounds) + Total(list.items[..j])
        decreases l - i
      {
        ghost var one;
        ItemTotals(rules, list, src, j);
        ok, i, next, rest, one := NextItem(list, src, bq, i, next, rest, made);
        if !ok {
          return;
        }
        AppendItem(old(tokens), made, one);
        made, j := made + [one], j + 1;
      }
      ok := true;
      ListEnds(rules, list, src, bq, i, j, next, rest, made);
    }

    /** The loop body: whether the next item belongs here, whether this one is loose, and its tokens. */
    method NextItem(list: ListCap, src: string, bq: bool, at: nat, wasNext: bool, after: string, ghost made: seq<Item>)
      returns (ok: bool, i: nat, next: bool, rest: string, ghost one: Item)
      requires ListState(rules, list, src, bq, at, at, wasNext, after, made) && at < |list.items|
      modifies this
      ensures at < i
      ensures !ok ==> LexList(rules, list, src, bq).StuckItem?
      ensures ok ==> ListState(rules, list, src, bq, i, at + 1, next, rest, made + [one])
      ensures ok ==> tokens == old(tokens) + ([ItemOpening(one.loose)] + Flatten(one.blocks) + [ItemEnd])
      ensures ok ==> links == old(links)
      ensures rounds + 1 <= old(rounds) + |list.items[at]|
      decreases |src|, 0
    {
      i, next, rest := at, wasNext, after;
      var items, l := list.items, |list.items|;
      var item := rules.itemBody(items[i]);
      if rules.smartLists && i != l - 1 {
        var b := rules.bulletOf(items[i + 1]);
        if list.bullet != b && !(|list.bullet| > 1 && |b| > 1) {
          rest := Join(items[i + 1..]) + rest;
          i := l - 1;
        }
      }
      var loose := next || rules.gap(item);
      if i != l - 1 {
        next := EndsInNewline(item);
        if !loose {
          loose := next;
        }
      }
      ListNext(rules, list, src, bq, at, wasNext, made, i, next, rest, loose);
      ok := TokenizeItem(item, loose, bq);
      one := Item(loose, if ok then Lex(rules, item, false, bq).blocks else []);
      i := i + 1;
    }

    method TokenizeItem(item: string, loose: bool, bq: bool) returns (ok: bool)
      modifies this
      ensures ok <==> Lex(rules, item, false, bq).Lexed?
      ensures ok ==>
                tokens == old(tokens)
                          + ([ItemOpening(loose)] + Flatten(Lex(rules, item, false, bq).blocks) + [ItemEnd])
      ensures ok ==> links == old(links)
      ensures rounds <= old(rounds) + |item|
      decreases |item|, 6
    {
      ghost var start := tokens;
      tokens := tokens + [if loose then LooseItemStart else ItemStart];
      ok := Tokenize(item, false, bq);
      if ok {
        Bracket(start, ItemOpening(loose), Flatten(Lex(rules, item, false, bq).blocks), ItemEnd);
        NestedDefinesNothing(rules, item, false, bq);
      }
      tokens := tokens + [ItemEnd];
    }
  }
}
