/** Parser.prototype of doc/swagger/lib/marked.js, which consumes its tokens by popping them. */
module MarkedParser {
  import opened Wrappers
  import opened Sequences
  import opened MarkedBlocks
  import MarkedInline

  type Written = Result<string, Error>

  // ----- rounds of the loops -----

  lemma {:induction false} AfterRound(body: string, first: string, o: Outcome)
    ensures After(body, After(first, o)) == After(body + first, o)
  {
    if o.Done? {
      assert body + (first + o.out) == body + first + o.out;
    }
  }

  lemma {:induction false} LoopRound(r: Renderer, end: Token, tight: bool, ts: seq<Token>, inLink: bool, body: string)
    requires ts != [] && ts[0] != end
    ensures var first := Round(r, tight, ts, inLink);
            After(body, Body(r, end, tight, ts, inLink))
            == if first.Failed? then first
               else After(body + first.out, Body(r, end, tight, first.rest, first.inLink))
  {
    var first := Round(r, tight, ts, inLink);
    if first.Done? {
      AfterRound(body, first.out, Body(r, end, tight, first.rest, first.inLink));
    }
  }

  lemma {:induction false} ParseRound(r: Renderer, ts: seq<Token>, inLink: bool, body: string)
    requires ts != []
    ensures var first := Tok(r, ts, inLink);
            After(body, Parse(r, ts, inLink))
            == if first.Failed? then first else After(body + first.out, Parse(r, first.rest, first.inLink))
  {
    var first := Tok(r, ts, inLink);
    if first.Done? {
      AfterRound(body, first.out, Parse(r, first.rest, first.inLink));
    }
  }

  lemma {:induction false} TextsAssociate(body: string, text: string, more: string)
    ensures body + ("\n" + text + more) == body + "\n" + text + more
  {
  }

  // ----- the parser -----

  class Parser {
    const r: Renderer
    /** The lexer of all the inline text; it keeps its inLink flag from block to block. */
    var inline: MarkedInline.InlineLexer
    /** The tokens still to come, the next one last. */
    var tokens: seq<Token>
    /** The current token; none is undefined. */
    var token: Option<Token>

    constructor (r: Renderer)
      ensures Valid() && this.r == r && fresh(inline)
    {
      this.r, this.tokens, this.token := r, [], None;
      this.inline := new MarkedInline.InlineLexer(r.rules, r.spans);
    }

    ghost predicate Valid()
      reads this
    {
      inline.rules == r.rules && inline.r == r.spans
    }

    function Remaining(): seq<Token>
      reads this
    {
      Reversed(tokens)
    }

    /** The current token and those to come. */
    function Current(): seq<Token>
      requires token.Some?
      reads this
    {
      [token.value] + Remaining()
    }

    method Next()
      modifies this`tokens, this`token
      ensures old(tokens) == [] ==> token.None? && tokens == []
      ensures old(tokens) != [] ==> token.Some? && Current() == old(Remaining()) && |tokens| == |old(tokens)| - 1
    {
      if tokens == [] {
        token := None;
      } else {
        var last := |tokens| - 1;
        assert tokens == tokens[..last] + [tokens[last]];
        ReversedSnoc(tokens[..last], tokens[last]);
        token, tokens := Some(tokens[last]), tokens[..last];
      }
    }

    method Peek() returns (t: Option<Token>)
      ensures Remaining() == [] ==> t.None?
      ensures Remaining() != [] ==> t == Some(Remaining()[0])
    {
      if tokens == [] {
        return None;
      }
      var last := |tokens| - 1;
      assert tokens == tokens[..last] + [tokens[last]];
      ReversedSnoc(tokens[..last], tokens[last]);
      t := Some(tokens[last]);
    }

    /** What was written, or the error, of a piece of the document. */
    twostate predicate Writes(new w: Written, o: MarkedInline.Outcome)
      reads this, inline
    {
      && (o.Stuck? ==> w == Failure(InfiniteLoop))
      && (o.Out? ==> w == Success(o.out) && inline.inLink == o.inLink)
    }

    method Inlined(text: string) returns (w: Written)
      requires Valid()
      modifies inline
      ensures Writes(w, Inline(r, text, old(inline.inLink)))
    {
      var o := inline.Render(text);
      w := if o.None? then Failure(InfiniteLoop) else Success(o.value);
    }

    // ----- tokens rendered on their own -----

    method Cells(texts: seq<string>, header: bool, align: seq<string>) returns (w: Written)
      requires Valid()
      modifies inline
      ensures Writes(w, RenderRow(r, texts, header, align, old(inline.inLink)))
    {
      var row := "";
      ghost var goal := RenderCells(r, texts, 0, header, align, inline.inLink);
      assert goal.Out? ==> "" + goal.out == goal.out;
      for i := 0 to |texts|
        invariant goal == MarkedInline.Then(row, RenderCells(r, texts, i, header, align, inline.inLink))
      {
        var cell := Inlined(texts[i]);
        if cell.Failure? {
          return cell;
        }
        var written := r.tablecell(cell.value, header, AlignAt(align, i));
        MarkedInline.ThenTwice(row, written, RenderCells(r, texts, i + 1, header, align, inline.inLink));
        row := row + written;
      }
      assert row + "" == row;
      w := Success(r.tablerow(row));
    }

    method Rows(cells: seq<seq<string>>, align: seq<string>) returns (w: Written)
      requires Valid()
      modifies inline
      ensures Writes(w, RenderRows(r, cells, 0, align, old(inline.inLink)))
    {
      var body := "";
      ghost var goal := RenderRows(r, cells, 0, align, inline.inLink);
      assert goal.Out? ==> "" + goal.out == goal.out;
      for i := 0 to |cells|
        invariant goal == MarkedInline.Then(body, RenderRows(r, cells, i, align, inline.inLink))
      {
        var row := Cells(cells[i], false, align);
        if row.Failure? {
          return row;
        }
        MarkedInline.ThenTwice(body, row.value, RenderRows(r, cells, i + 1, align, inline.inLink));
        body := body + row.value;
      }
      assert body + "" == body;
      w := Success(body);
    }

    method Leaf(leaf: Leaf) returns (w: Written)
      requires Valid()
      modifies inline
      ensures Writes(w, RenderLeaf(r, leaf, old(inline.inLink)))
    {
      match leaf
      case Space =>
        w := Success("");
      case Hr =>
        w := Success(r.hr);
      case Heading(depth, text) =>
        var title := Inlined(text);
        w := if title.Failure? then title else Success(r.heading(title.value, depth, text));
      case Code(text, lang) =>
        w := Success(r.code(text, lang));
      case Table(header, align, cells) =>
        var head := Cells(header, true, align);
        if head.Failure? {
          return head;
        }
        var body := Rows(cells, align);
        w := if body.Failure? then body else Success(r.table(head.value, body.value));
      case Html(pre, text) =>
        if !pre && !r.pedantic {
          var html := Inlined(text);
          w := if html.Failure? then html else Success(r.html(html.value));
        } else {
          w := Success(r.html(text));
        }
      case Paragraph(text) =>
        var body := Inlined(text);
        w := if body.Failure? then body else Success(r.paragraph(body.value));
    }

    /** Joins the texts of the current token and of the text tokens that follow it, and renders them. */
    method ParseText() returns (w: Written)
      requires Valid() && token.Some? && token.value.TextToken?
      modifies this`tokens, this`token, inline
      ensures Writes(w, old(Inline(r, token.value.text + FollowingTexts(Remaining()), inline.inLink)))
      ensures Remaining() == old(Remaining()[TokenRun(Remaining())..])
      ensures |tokens| <= |old(tokens)|
    {
      var body := token.value.text;
      ghost var whole, ahead := token.value.text + FollowingTexts(Remaining()), Remaining();
      ghost var done := 0;
      var t := Peek();
      while t.Some? && t.value.TextToken?
        invariant |tokens| <= |old(tokens)| && inline.inLink == old(inline.inLink)
        invariant t == if Remaining() == [] then None else Some(Remaining()[0])
        invariant done <= |ahead| && Remaining() == ahead[done..]
        invariant TokenRun(ahead) == done + TokenRun(Remaining())
        invariant whole == body + FollowingTexts(Remaining())
        decreases |tokens|
      {
        ghost var now := Remaining();
        Next();
        assert Remaining() == Current()[1..];
        assert now[1..] == ahead[done + 1..];
        TextsAssociate(body, token.value.text, FollowingTexts(Remaining()));
        body := body + "\n" + token.value.text;
        done := done + 1;
        t := Peek();
      }
      assert body + "" == body;
      w := Inlined(body);
    }

    // ----- tokens in brackets -----

    /** What was written for the first tokens, and the tokens that are left; or the error. */
    twostate predicate Reads(new w: Written, o: Outcome)
      reads this, inline
    {
      && inline == old(inline) && |tokens| <= |old(tokens)|
      && (o.Failed? ==> w == Failure(o.error))
      && (o.Done? ==> w == Success(o.out) && Remaining() == o.rest && inline.inLink == o.inLink)
    }

    /** The loops of tok: everything up to an end token, or an error when the tokens run out. */
    method Loop(end: Token, tight: bool) returns (w: Written)
      requires Valid()
      modifies this`tokens, this`token, inline
      ensures Reads(w, old(Body(r, end, tight, Remaining(), inline.inLink)))
      decreases |tokens|, 1
    {
      ghost var goal := Body(r, end, tight, Remaining(), inline.inLink);
      var body := "";
      Next();
      while token.Some? && token.value != end
        invariant |tokens| <= |old(tokens)| && (token.Some? ==> |tokens| < |old(tokens)|)
        invariant goal == After(body, Body(r, end, tight, if token.Some? then Current() else [], inline.inLink))
        decreases |tokens|, token.Some?
      {
        var piece := OneMore(end, tight, body, goal);
        if piece.Failure? {
          return piece;
        }
        body := body + piece.value;
        Next();
      }
      if token.None? {
        return Failure(Undefined);
      }
      assert Current()[1..] == Remaining();
      assert body + "" == body;
      w := Success(body);
    }

    /** One more piece, when goal is the outcome of the whole loop and body what it wrote so far. */
    method OneMore(ghost end: Token, tight: bool, ghost body: string, ghost goal: Outcome) returns (w: Written)
      requires Valid() && token.Some? && token.value != end
      requires goal == After(body, Body(r, end, tight, Current(), inline.inLink))
      modifies this`tokens, this`token, inline
      ensures inline == old(inline) && |tokens| <= |old(tokens)|
      ensures w.Failure? ==> goal == Failed(w.error)
      ensures w.Success? ==> goal == After(body + w.value, Body(r, end, tight, Remaining(), inline.inLink))
      decreases |tokens|, 4
    {
      LoopRound(r, end, tight, Current(), inline.inLink, body);
      w := OneRound(tight);
    }

    /** One round of such a loop: in a tight item texts are not paragraphs. */
    method OneRound(tight: bool) returns (w: Written)
      requires Valid() && token.Some?
      modifies this`tokens, this`token, inline
      ensures Reads(w, old(Round(r, tight, Current(), inline.inLink)))
      decreases |tokens|, 3
    {
      if tight && token.value.TextToken? {
        assert Current()[1..] == Remaining();
        w := ParseText();
      } else {
        w := Step();
      }
    }

    /** tok */
    method Step() returns (w: Written)
      requires Valid() && token.Some?
      modifies this`tokens, this`token, inline
      ensures Reads(w, old(Tok(r, Current(), inline.inLink)))
      decreases |tokens|, 2
    {
      assert Current()[1..] == Remaining();
      var t := token.value;
      if t.Plain? {
        w := Leaf(t.leaf);
      } else if t.TextToken? {
        var text := ParseText();
        w := if text.Failure? then text else Success(r.paragraph(text.value));
      } else if t.QuoteStart? {
        var body := Loop(QuoteEnd, false);
        w := if body.Failure? then body else Success(r.blockquote(body.value));
      } else if t.ListStart? {
        var body := Loop(ListEnd, false);
        w := if body.Failure? then body else Success(r.list(body.value, t.ordered));
      } else if t.ItemStart? || t.LooseItemStart? {
        var body := Loop(ItemEnd, t.ItemStart?);
        w := if body.Failure? then body else Success(r.listitem(body.value));
      } else {
        w := Success("undefined");
      }
    }

    /** parse: the inline lexer is new, with its flag clear, and serves the whole document. */
    method ParseAll(src: seq<Token>) returns (w: Written)
      modifies this
      ensures Valid()
      ensures var o := Parse(r, src, false);
              w == if o.Failed? then Failure(o.error) else Success(o.out)
    {
      inline := new MarkedInline.InlineLexer(r.rules, r.spans);
      tokens := Reversed(src);
      ReversedTwice(src);
      ghost var goal, lexer := Parse(r, src, false), inline;
      var body := "";
      Next();
      while token.Some?
        invariant Valid() && inline == lexer
        invariant goal == After(body, Parse(r, if token.Some? then Current() else [], inline.inLink))
        decreases |tokens|, token.Some?
      {
        ParseRound(r, Current(), inline.inLink, body);
        var piece := Step();
        if piece.Failure? {
          return piece;
        }
        body := body + piece.value;
        Next();
      }
      assert body + "" == body;
      w := Success(body);
    }

    /** On the tokens of a document the parser renders the document, and fails only with the inline lexer. */
    method ParseDocument(ghost blocks: seq<Block>, src: seq<Token>) returns (w: Written)
      requires src == Flatten(blocks)
      modifies this
      ensures Valid()
      ensures var o := Render(r, false, blocks, false);
              w == if o.Stuck? then Failure(InfiniteLoop) else Success(o.out)
    {
      ParseFlatten(r, blocks, false);
      w := ParseAll(src);
    }
  }
}
