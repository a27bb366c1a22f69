/** The block pipeline of doc/swagger/lib/marked.js from text to output. */
module Marked {
  import opened MarkedBlocks
  import opened Wrappers
  import MarkedInline
  import MarkedParser
  import MarkedLexer

  /** Which items of a list are kept: those up to the first whose bullet starts another list. */
  lemma {:induction false} KeptItems(rules: MarkedLexer.RuleSet, bullet: string, items: seq<string>, i: nat)
    requires i < |items|
    ensures var k := MarkedLexer.Kept(rules, bullet, items, i);
            && (forall j | i < j < k :: !MarkedLexer.OtherList(rules, bullet, items[j]))
            && (k < |items| ==> MarkedLexer.OtherList(rules, bullet, items[k]))
    decreases |items| - i
  {
    if i < |items| - 1 && !MarkedLexer.OtherList(rules, bullet, items[i + 1]) {
      KeptItems(rules, bullet, items, i + 1);
    }
  }

  /** The renderer with a table of link definitions. */
  function Linked(r: Renderer, links: MarkedInline.Links): Renderer {
    r.(spans := r.spans.(links := links))
  }

  /** The lexer found no rule that matches, or the parser failed. */
  datatype Error = NoRule | InParser(error: MarkedBlocks.Error)

  /**
   Lexing and parsing: whatever the rules match, the output is the rendering of
   the document the lexer found, with the definitions of links in it.  The parser
   never runs out of tokens; it fails only when the inline lexer finds no rule that
   matches.
   */
  method Convert(rules: MarkedLexer.Rules, r: Renderer, src: string) returns (out: Result<string, Error>)
    ensures var l := MarkedLexer.Lex(rules, src, true, false);
            if l.Stuck? then out == Failure(NoRule)
            else
              var o := Render(Linked(r, MarkedLexer.Noted(map[], l.definitions)), false, l.blocks, false);
              out == if o.Stuck? then Failure(InParser(InfiniteLoop)) else Success(o.out)
  {
    var lexer := new MarkedLexer.Lexer(rules);
    var ok := lexer.Tokenize(src, true, false);
    if !ok {
      return Failure(NoRule);
    }
    ghost var blocks := MarkedLexer.Lex(rules, src, true, false).blocks;
    assert [] + Flatten(blocks) == Flatten(blocks);
    var parser := new MarkedParser.Parser(Linked(r, lexer.links));
    var text := parser.ParseDocument(blocks, lexer.tokens);
    out := if text.Failure? then Failure(InParser(text.error)) else Success(text.value);
  }
}
