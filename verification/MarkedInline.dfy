/**
 The inline lexer of doc/swagger/lib/marked.js.  As for the block lexer, the
 regular expressions are parameters; modelled are their order, the recursion
 into spans and links, the inLink flag, and the references that are put back
 when no definition is found for them.
 */
module MarkedInline {
  import opened Wrappers

  datatype Target = Target(href: string, title: string)

  datatype Span = Strong | Em | Del

  /** What a match means; Literal is text that is already rendered, Address one that is its own link. */
  datatype Action =
    | Literal(out: string)
    | Address(target: Target, text: string)
    | Tag(out: string, opens: bool, closes: bool)
    | Link(image: bool, text: string, target: Target)
    | Reference(image: bool, text: string, key: string)
    | Spanned(span: Span, text: string)

  datatype Cap = NoCap | Cap(length: nat, action: Action)

  type Rule = string -> Cap

  datatype RuleSet = RuleSet(
    escape: Rule, autolink: Rule, url: Rule, tag: Rule, link: Rule, reflink: Rule, nolink: Rule,
    strong: Rule, em: Rule, code: Rule, br: Rule, del: Rule, text: Rule)

  /** A nonempty prefix, with a shorter text inside; no tag opens an anchor and closes one. */
  predicate Fits(cap: Cap, s: string) {
    cap.Cap? ==>
      && 0 < cap.length <= |s|
      && (cap.action.Link? || cap.action.Reference? || cap.action.Spanned? ==> |cap.action.text| < cap.length)
      && (cap.action.Tag? ==> !(cap.action.opens && cap.action.closes))
  }

  ghost predicate Prefixes(rule: Rule) {
    forall s: string :: Fits(rule(s), s)
  }

  ghost predicate Sound(rules: RuleSet) {
    && Prefixes(rules.escape) && Prefixes(rules.autolink) && Prefixes(rules.url) && Prefixes(rules.tag)
    && Prefixes(rules.link) && Prefixes(rules.reflink) && Prefixes(rules.nolink) && Prefixes(rules.strong)
    && Prefixes(rules.em) && Prefixes(rules.code) && Prefixes(rules.br) && Prefixes(rules.del) && Prefixes(rules.text)
  }

  const NO_RULE: Rule := s => NoCap

  const NO_RULES: RuleSet := RuleSet(NO_RULE, NO_RULE, NO_RULE, NO_RULE, NO_RULE, NO_RULE, NO_RULE,
                                     NO_RULE, NO_RULE, NO_RULE, NO_RULE, NO_RULE, NO_RULE)

  type Rules = rules: RuleSet | Sound(rules) ghost witness NO_RULES

  /** The definitions of links, by their keys. */
  type Links = map<string, Target>

  /** The renderer and the table of link definitions. */
  datatype Renderer = Renderer(
    link: (Target, string) -> string,
    image: (Target, string) -> string,
    span: (Span, string) -> string,
    links: Links)

  /** The rules in the order in which they are tried. */
  function Ordered(rules: Rules, inLink: bool): seq<Rule> {
    [rules.escape, rules.autolink] + (if inLink then [] else [rules.url])
    + [rules.tag, rules.link, rules.reflink, rules.nolink, rules.strong, rules.em, rules.code, rules.br, rules.del,
       rules.text]
  }

  function FirstCap(rs: seq<Rule>, s: string): Cap {
    if rs == [] then NoCap else if rs[0](s).Cap? then rs[0](s) else FirstCap(rs[1..], s)
  }

  lemma {:induction false} FirstCapFits(rs: seq<Rule>, s: string)
    requires forall i | 0 <= i < |rs| :: Prefixes(rs[i])
    ensures Fits(FirstCap(rs, s), s)
  {
    if rs != [] {
      assert Prefixes(rs[0]);
      forall i | 0 <= i < |rs| - 1
        ensures Prefixes(rs[1..][i])
      {
        assert rs[1..][i] == rs[i + 1];
      }
      FirstCapFits(rs[1..], s);
    }
  }

  function Match(rules: Rules, src: string, inLink: bool): (cap: Cap)
    ensures Fits(cap, src)
  {
    FirstCapFits(Ordered(rules, inLink), src);
    FirstCap(Ordered(rules, inLink), src)
  }

  // ----- the output for a text -----

  /** Stuck is the error thrown when no rule matches. */
  datatype Outcome = Stuck | Out(out: string, inLink: bool)

  function Then(s: string, o: Outcome): Outcome {
    if o.Stuck? then o else Out(s + o.out, o.inLink)
  }

  function AfterTag(inLink: bool, opens: bool, closes: bool): bool {
    if !inLink && opens then true else if inLink && closes then false else inLink
  }

  function Output(rules: Rules, r: Renderer, src: string, inLink: bool): Outcome
    decreases |src|, 2
  {
    if src == "" then Out("", inLink)
    else
      var cap := Match(rules, src, inLink);
      if cap.NoCap? then Stuck
      else if IsUnresolved(r.links, cap.action) then Then([src[0]], Output(rules, r, src[1..], inLink))
      else
        var first := Act(rules, r, cap.action, inLink, |src|);
        if first.Stuck? then Stuck else Then(first.out, Output(rules, r, src[cap.length..], first.inLink))
  }

  /** A reference to nothing, or to an empty address. */
  predicate IsUnresolved(links: Links, a: Action) {
    a.Reference? && (a.key in links ==> links[a.key].href == "")
  }

  /** The output of one match, and the flag after it. */
  function Act(rules: Rules, r: Renderer, a: Action, inLink: bool, ghost size: nat): Outcome
    requires !IsUnresolved(r.links, a)
    requires a.Link? || a.Reference? || a.Spanned? ==> |a.text| < size
    decreases size, 1
  {
    match a
    case Literal(out) => Out(out, inLink)
    case Address(target, text) => Out(r.link(target, text), inLink)
    case Tag(out, opens, closes) => Out(out, AfterTag(inLink, opens, closes))
    case Link(image, text, target) => OutputLink(rules, r, image, text, target, size)
    case Reference(image, text, key) => OutputLink(rules, r, image, text, r.links[key], size)
    case Spanned(span, text) =>
      var inner := Output(rules, r, text, inLink);
      if inner.Stuck? then Stuck else Out(r.span(span, inner.out), inner.inLink)
  }

  /** A link; its text is lexed with the flag set, and after it the flag is clear. */
  function OutputLink(rules: Rules, r: Renderer, image: bool, text: string, target: Target, ghost size: nat): Outcome
    requires |text| < size
    decreases size, 0
  {
    if image then Out(r.image(target, text), false)
    else
      var inner := Output(rules, r, text, true);
      if inner.Stuck? then Stuck else Out(r.link(target, inner.out), false)
  }

  // ----- the lexer itself -----

  lemma {:induction false} ThenTwice(a: string, b: string, o: Outcome)
    ensures Then(a, Then(b, o)) == Then(a + b, o)
  {
    if o.Out? {
      assert a + (b + o.out) == a + b + o.out;
    }
  }

  lemma {:induction false} ThenNothing(o: Outcome)
    ensures Then("", o) == o
  {
    if o.Out? {
      assert "" + o.out == o.out;
    }
  }

  /** Putting back all but the first character of a match is the same as taking that character alone. */
  lemma {:induction false} PutBack(src: string, n: nat)
    requires 0 < n <= |src|
    ensures src[..n][1..] + src[n..] == src[1..] && src[..n][0] == src[0]
  {
  }

  lemma {:induction false} UnresolvedStep(rules: Rules, r: Renderer, src: string, inLink: bool, before: string)
    requires src != "" && Match(rules, src, inLink).Cap? && IsUnresolved(r.links, Match(rules, src, inLink).action)
    ensures Then(before, Output(rules, r, src, inLink)) == Then(before + [src[0]], Output(rules, r, src[1..], inLink))
  {
    ThenTwice(before, [src[0]], Output(rules, r, src[1..], inLink));
  }

  lemma {:induction false} ActStep(rules: Rules, r: Renderer, src: string, inLink: bool, before: string)
    requires src != "" && Match(rules, src, inLink).Cap? && !IsUnresolved(r.links, Match(rules, src, inLink).action)
    ensures var cap := Match(rules, src, inLink);
            var first := Act(rules, r, cap.action, inLink, |src|);
            Then(before, Output(rules, r, src, inLink))
            == if first.Stuck? then Stuck
               else Then(before + first.out, Output(rules, r, src[cap.length..], first.inLink))
  {
    var cap := Match(rules, src, inLink);
    var first := Act(rules, r, cap.action, inLink, |src|);
    if first.Out? {
      ThenTwice(before, first.out, Output(rules, r, src[cap.length..], first.inLink));
    }
  }

  class InlineLexer {
    const rules: Rules
    const r: Renderer
    var inLink: bool
    /** How many rounds of the loop there have been, nested ones included. */
    ghost var rounds: nat

    constructor (rules: Rules, r: Renderer)
      ensures this.rules == rules && this.r == r && !inLink && rounds == 0
    {
      this.rules, this.r, inLink, rounds := rules, r, false, 0;
    }

    /** output: at most one round for each character, although references are put back. */
    method Render(src: string) returns (o: Option<string>)
      modifies this
      ensures var whole := Output(rules, r, src, old(inLink));
              && (o.None? <==> whole.Stuck?)
              && (whole.Out? ==> o == Some(whole.out) && inLink == whole.inLink)
      ensures rounds <= old(rounds) + |src|
      decreases |src|, 2
    {
      var out, rest := "", src;
      ghost var goal := Output(rules, r, src, inLink);
      assert goal.Out? ==> "" + goal.out == goal.out;
      while rest != ""
        invariant |rest| <= |src| && rounds + |rest| <= old(rounds) + |src|
        invariant goal == Then(out, Output(rules, r, rest, inLink))
        decreases |rest|
      {
        var cap := Match(rules, rest, inLink);
        if cap.NoCap? {
          return None;
        }
        rounds := rounds + 1;
        var matched := rest[..cap.length];
        if IsUnresolved(r.links, cap.action) {
          UnresolvedStep(rules, r, rest, inLink, out);
          PutBack(rest, cap.length);
          out := out + [matched[0]];
          rest := matched[1..] + rest[cap.length..];
        } else {
          ActStep(rules, r, rest, inLink, out);
          var piece := Perform(cap.action, |rest|);
          if piece.None? {
            return None;
          }
          out := out + piece.value;
          rest := rest[cap.length..];
        }
      }
      assert out + "" == out;
      o := Some(out);
    }

    method Perform(a: Action, ghost size: nat) returns (o: Option<string>)
      requires !IsUnresolved(r.links, a)
      requires a.Link? || a.Reference? || a.Spanned? ==> |a.text| < size
      modifies this
      ensures var act := Act(rules, r, a, old(inLink), size);
              && (o.None? <==> act.Stuck?)
              && (act.Out? ==> o == Some(act.out) && inLink == act.inLink)
      ensures rounds <= old(rounds) + if a.Link? || a.Reference? || a.Spanned? then |a.text| else 0
      decreases size, 1
    {
      match a
      case Literal(out) =>
        o := Some(out);
      case Address(target, text) =>
        o := Some(r.link(target, text));
      case Tag(out, opens, closes) =>
        if !inLink && opens {
          inLink := true;
        } else if inLink && closes {
          inLink := false;
        }
        o := Some(out);
      case Link(image, text, target) =>
        o := RenderLink(image, text, target, size);
      case Reference(image, text, key) =>
        o := RenderLink(image, text, r.links[key], size);
      case Spanned(span, text) =>
        var inner := Render(text);
        o := if inner.None? then None else Some(r.span(span, inner.value));
    }

    /** outputLink, and the assignments around it */
    method RenderLink(image: bool, text: string, target: Target, ghost size: nat) returns (o: Option<string>)
      requires |text| < size
      modifies this
      ensures var link := OutputLink(rules, r, image, text, target, size);
              && (o.None? <==> link.Stuck?)
              && (link.Out? ==> o == Some(link.out) && inLink == link.inLink)
      ensures rounds <= old(rounds) + |text|
      decreases size, 0
    {
      inLink := true;
      if image {
        o := Some(r.image(target, text));
      } else {
        var inner := Render(text);
        o := if inner.None? then None else Some(r.link(target, inner.value));
      }
      inLink := false;
    }
  }
}
