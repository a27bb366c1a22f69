/**
 The merged markup of doc/swagger/lib/highlight.9.1.0.pack.js as the text that
 is written.  A small reader of HTML, for the tags and the three character
 references that the writer makes, gives back the tags and characters exactly
 when no attribute value contains a quote: values are escaped like text, which
 leaves quotes as they are.
 */
module HighlightHtml {
  import opened Wrappers
  import opened Sequences
  import opened HighlightMerge

  /** What a reader can see of a piece: not which stream it is from, and of a closing tag only the name. */
  datatype Token = OpenTag(node: Node) | CloseTag(name: string) | Letter(c: char)

  function Visible(p: Piece): Token {
    match p
    case Open(_, n) => OpenTag(n)
    case Close(_, n) => CloseTag(n.name)
    case Char(c) => Letter(c)
  }

  function AllVisible(ps: seq<Piece>): seq<Token> {
    if ps == [] then [] else [Visible(ps[0])] + AllVisible(ps[1..])
  }

  // ----- the reader -----

  /** Where the first of some characters is. */
  function Scan(s: string, stops: set<char>): (k: nat)
    ensures k <= |s|
    ensures forall i | 0 <= i < k :: s[i] !in stops
    ensures k < |s| ==> s[k] in stops
  {
    if s == "" || s[0] in stops then 0 else 1 + Scan(s[1..], stops)
  }

  /** The first character of a text, which may be written as a reference, and the rest of the text. */
  function ReadChar(s: string): (r: Option<(char, string)>)
    requires s != ""
    ensures r.Some? ==> |r.value.1| < |s| && (r.value.0 in s || r.value.0 in "&<>")
  {
    if s[0] != '&' then Some((s[0], s[1..]))
    else if "&amp;" <= s then Some(('&', s[5..]))
    else if "&lt;" <= s then Some(('<', s[4..]))
    else if "&gt;" <= s then Some(('>', s[4..]))
    else None
  }

  function ReadText(s: string): (r: Option<string>)
    decreases |s|
  {
    if s == "" then Some("")
    else
      var first := ReadChar(s);
      if first.None? then None
      else
        var rest := ReadText(first.value.1);
        if rest.None? then None else Some([first.value.0] + rest.value)
  }

  /** One attribute after its blank, up to the closing quote. */
  function ReadAttribute(s: string): (r: Option<(Attribute, string)>)
    ensures r.Some? ==> |r.value.1| < |s|
  {
    var k := Scan(s, {'='});
    if k + 1 >= |s| || s[k + 1] != '"' then None
    else
      var value := s[k + 2..];
      var n := Scan(value, {'"'});
      if n == |value| || ReadText(value[..n]).None? then None
      else Some((Attribute(s[..k], ReadText(value[..n]).value), value[n + 1..]))
  }

  /** The attributes of a tag, up to its end. */
  function ReadAttributes(s: string): (r: Option<(seq<Attribute>, string)>)
    ensures r.Some? ==> |r.value.1| < |s|
    decreases |s|
  {
    if s == "" then None
    else if s[0] == '>' then Some(([], s[1..]))
    else if s[0] != ' ' then None
    else
      var first := ReadAttribute(s[1..]);
      if first.None? then None
      else
        var rest := ReadAttributes(first.value.1);
        if rest.None? then None else Some(([first.value.0] + rest.value.0, rest.value.1))
  }

  /** A tag after its opening bracket. */
  function ReadTag(s: string): (r: Option<(Token, string)>)
    ensures r.Some? ==> |r.value.1| <= |s|
  {
    if s != "" && s[0] == '/' then
      var k := Scan(s[1..], {'>'});
      if k + 1 == |s| then None else Some((CloseTag(s[1..][..k]), s[1..][k + 1..]))
    else
      var k := Scan(s, {' ', '>'});
      var rest := ReadAttributes(s[k..]);
      if rest.None? then None else Some((OpenTag(Node(s[..k], rest.value.0)), rest.value.1))
  }

  function ReadHtml(s: string): Option<seq<Token>>
    decreases |s|
  {
    if s == "" then Some([])
    else
      var first := ReadToken(s);
      if first.None? then None
      else
        var rest := ReadHtml(first.value.1);
        if rest.None? then None else Some([first.value.0] + rest.value)
  }

  function ReadToken(s: string): (r: Option<(Token, string)>)
    requires s != ""
    ensures r.Some? ==> |r.value.1| < |s|
  {
    if s[0] == '<' then ReadTag(s[1..])
    else
      var c := ReadChar(s);
      if c.None? then None else Some((Letter(c.value.0), c.value.1))
  }

  // ----- names and values -----

  /** The names of a DOM node end where the reader ends them. */
  predicate Readable(n: Node) {
    && n.name != "" && n.name[0] != '/' && (forall c <- n.name :: c != ' ' && c != '>')
    && forall a <- n.attributes :: forall c <- a.name :: c != '='
  }

  predicate ReadablePieces(ps: seq<Piece>) {
    forall p <- ps :: p.Open? || p.Close? ==> Readable(p.node)
  }

  predicate NoQuotes(attributes: seq<Attribute>) {
    forall a <- attributes :: '"' !in a.value
  }

  predicate Quotable(t: Token) {
    t.OpenTag? ==> NoQuotes(t.node.attributes)
  }

  // ----- what is written reads back -----

  lemma {:induction false} ScanAt(a: string, c: char, rest: string, stops: set<char>)
    requires c in stops && forall x <- a :: x !in stops
    ensures Scan(a + [c] + rest, stops) == |a|
  {
    var s := a + [c] + rest;
    assert forall i | 0 <= i < |a| :: s[i] == a[i];
    assert s[|a|] == c;
  }

  lemma {:induction false} ReadEscapedChar(c: char, rest: string)
    ensures EscapeChar(c) + rest != "" && ReadChar(EscapeChar(c) + rest) == Some((c, rest))
  {
    var s := EscapeChar(c) + rest;
    if c == '&' {
      assert s[..5] == "&amp;" && s[5..] == rest;
    } else if c == '<' {
      assert s[..4] == "&lt;" && s[4..] == rest && s[1] == 'l';
    } else if c == '>' {
      assert s[..4] == "&gt;" && s[4..] == rest && s[1] == 'g';
    } else {
      assert s[1..] == rest;
    }
  }

  lemma {:induction false} ReadEscaped(s: string)
    ensures ReadText(Escape(s)) == Some(s)
  {
    if s != "" {
      ReadEscapedChar(s[0], Escape(s[1..]));
      ReadEscaped(s[1..]);
      assert [s[0]] + s[1..] == s;
    }
  }

  lemma {:induction false} EscapedQuotes(s: string)
    requires '"' !in s
    ensures '"' !in Escape(s)
  {
    if s != "" {
      EscapedQuotes(s[1..]);
      assert '"' !in EscapeChar(s[0]);
    }
  }

  /** Name and value of an attribute, and where they are found. */
  lemma {:induction false} SplitAttribute(name: string, value: string, rest: string)
    requires '"' !in value && forall c <- name :: c != '='
    ensures var s, after := name + "=\"" + value + "\"" + rest, value + "\"" + rest;
            && Scan(s, {'='}) == |name| && |name| + 1 < |s| && s[|name| + 1] == '"'
            && s[..|name|] == name && s[|name| + 2..] == after
            && Scan(after, {'"'}) == |value| < |after|
            && after[..|value|] == value && after[|value| + 1..] == rest
  {
    var s, after := name + "=\"" + value + "\"" + rest, value + "\"" + rest;
    assert s == name + ['='] + ("\"" + after);
    ScanAt(name, '=', "\"" + after, {'='});
    assert after == value + ['"'] + rest;
    ScanAt(value, '"', rest, {'"'});
  }

  lemma {:induction false} ReadOneAttribute(a: Attribute, rest: string)
    requires '"' !in a.value && forall c <- a.name :: c != '='
    ensures ReadAttribute(a.name + "=\"" + Escape(a.value) + "\"" + rest) == Some((a, rest))
  {
    EscapedQuotes(a.value);
    ReadEscaped(a.value);
    SplitAttribute(a.name, Escape(a.value), rest);
  }

  lemma {:induction false} FirstOfAttributes(name: string, value: string, more: string, rest: string)
    ensures " " + name + "=\"" + value + "\"" + more + ">" + rest
         == " " + (name + "=\"" + value + "\"" + (more + ">" + rest))
  {
  }

  lemma {:induction false} ReadWrittenAttributes(attributes: seq<Attribute>, rest: string)
    requires NoQuotes(attributes) && forall a <- attributes :: forall c <- a.name :: c != '='
    ensures ReadAttributes(AttributesHtml(attributes) + ">" + rest) == Some((attributes, rest))
  {
    if attributes == [] {
      assert ("" + ">" + rest)[1..] == rest;
    } else {
      var a, more := attributes[0], AttributesHtml(attributes[1..]);
      ReadOneAttribute(a, more + ">" + rest);
      ReadWrittenAttributes(attributes[1..], rest);
      FirstOfAttributes(a.name, Escape(a.value), more, rest);
      OneMoreAttribute(a, attributes[1..], a.name + "=\"" + Escape(a.value) + "\"" + (more + ">" + rest),
                       more + ">" + rest, rest);
      assert [a] + attributes[1..] == attributes;
    }
  }

  lemma {:induction false} OneMoreAttribute(a: Attribute, others: seq<Attribute>, first: string, more: string,
                                            rest: string)
    requires ReadAttribute(first) == Some((a, more)) && ReadAttributes(more) == Some((others, rest))
    ensures ReadAttributes(" " + first) == Some(([a] + others, rest))
  {
    assert (" " + first)[1..] == first;
  }

  lemma {:induction false} ReadOpen(n: Node, rest: string)
    requires Readable(n) && NoQuotes(n.attributes)
    ensures OpenHtml(n) + rest != "" && ReadToken(OpenHtml(n) + rest) == Some((OpenTag(n), rest))
  {
    var tail := AttributesHtml(n.attributes) + ">" + rest;
    var s := OpenHtml(n) + rest;
    assert s[1..] == n.name + tail;
    assert (n.name + tail)[0] == n.name[0];
    assert tail[0] == ' ' || tail[0] == '>';
    assert n.name + tail == n.name + [tail[0]] + tail[1..];
    ScanAt(n.name, tail[0], tail[1..], {' ', '>'});
    assert (n.name + tail)[|n.name|..] == tail && (n.name + tail)[..|n.name|] == n.name;
    ReadWrittenAttributes(n.attributes, rest);
  }

  lemma {:induction false} ReadClose(n: Node, rest: string)
    requires Readable(n)
    ensures CloseHtml(n) + rest != "" && ReadToken(CloseHtml(n) + rest) == Some((CloseTag(n.name), rest))
  {
    var s := CloseHtml(n) + rest;
    assert s[1..] == "/" + (n.name + ">" + rest);
    var t := n.name + ['>'] + rest;
    assert s[1..][1..] == t;
    ScanAt(n.name, '>', rest, {'>'});
    assert t[..|n.name|] == n.name && t[|n.name| + 1..] == rest;
  }

  lemma {:induction false} ReadPiece(p: Piece, rest: string)
    requires (p.Open? || p.Close? ==> Readable(p.node)) && Quotable(Visible(p))
    ensures PieceHtml(p) + rest != "" && ReadToken(PieceHtml(p) + rest) == Some((Visible(p), rest))
  {
    match p
    case Open(_, n) => ReadOpen(n, rest);
    case Close(_, n) => ReadClose(n, rest);
    case Char(c) =>
      ReadEscapedChar(c, rest);
      assert (EscapeChar(c) + rest)[0] == EscapeChar(c)[0];
  }

  lemma {:induction false} ReadPieces(ps: seq<Piece>)
    requires ReadablePieces(ps) && forall p <- ps :: Quotable(Visible(p))
    ensures ReadHtml(Html(ps)) == Some(AllVisible(ps))
  {
    if ps != [] {
      ReadPiece(ps[0], Html(ps[1..]));
      ReadPieces(ps[1..]);
    }
  }

  // ----- a quote in a value never reads back -----

  lemma {:induction false} TextHasNoQuotes(s: string)
    requires '"' !in s
    ensures ReadText(s).Some? ==> '"' !in ReadText(s).value
    decreases |s|
  {
    if s != "" && ReadChar(s).Some? {
      TextHasNoQuotes(ReadChar(s).value.1);
    }
  }

  lemma {:induction false} AttributesHaveNoQuotes(s: string)
    ensures ReadAttributes(s).Some? ==> NoQuotes(ReadAttributes(s).value.0)
    decreases |s|
  {
    if s != "" && s[0] == ' ' && ReadAttribute(s[1..]).Some? {
      var value := s[1..][Scan(s[1..], {'='}) + 2..];
      TextHasNoQuotes(value[..Scan(value, {'"'})]);
      AttributesHaveNoQuotes(ReadAttribute(s[1..]).value.1);
    }
  }

  lemma {:induction false} ReadQuotable(s: string)
    ensures ReadHtml(s).Some? ==> forall t <- ReadHtml(s).value :: Quotable(t)
    decreases |s|
  {
    if s != "" && ReadToken(s).Some? {
      if s[0] == '<' {
        AttributesHaveNoQuotes(s[1..][Scan(s[1..], {' ', '>'})..]);
      }
      ReadQuotable(ReadToken(s).value.1);
    }
  }

  lemma {:induction false} VisibleIn(ps: seq<Piece>, p: Piece)
    requires p in ps
    ensures Visible(p) in AllVisible(ps)
  {
    if p != ps[0] {
      VisibleIn(ps[1..], p);
    }
  }

  /** The written text reads back as its tags and characters exactly when no attribute value has a quote. */
  lemma {:induction false} HtmlReadsBackIff(ps: seq<Piece>)
    requires ReadablePieces(ps)
    ensures ReadHtml(Html(ps)) == Some(AllVisible(ps))
       <==> forall p <- ps :: p.Open? ==> NoQuotes(p.node.attributes)
  {
    if forall p <- ps :: Quotable(Visible(p)) {
      ReadPieces(ps);
    }
    if ReadHtml(Html(ps)) == Some(AllVisible(ps)) {
      ReadQuotable(Html(ps));
      forall p <- ps
        ensures Quotable(Visible(p))
      {
        VisibleIn(ps, p);
      }
    }
  }

  const QUOTED := Node("q", [Attribute("title", "\"")])

  /** A tag that does not read back. */
  lemma {:induction false} QuoteBreaksTag()
    ensures ReadHtml(Html([Open(false, QUOTED)])) != Some([OpenTag(QUOTED)])
  {
    var p := Open(false, QUOTED);
    assert [p][1..] == [];
    assert AllVisible([p]) == [OpenTag(QUOTED)] + AllVisible([p][1..]);
    assert AllVisible([p]) == [OpenTag(QUOTED)];
    assert '"' in QUOTED.attributes[0].value && QUOTED.attributes[0] in QUOTED.attributes;
    assert !NoQuotes(QUOTED.attributes);
    assert p in [p];
    HtmlReadsBackIff([p]);
  }
}
