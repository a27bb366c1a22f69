/**
 Which rule of marked's inline lexer (doc/swagger/lib/marked.js) takes a text, in
 terms of the rules themselves, and what is written for what it matched.
 */
module MarkedInlineOrder {
  import opened MarkedInline

  /** The text in front of what the rest gives. */
  predicate Writes(o: Outcome, s: string, rest: Outcome) {
    match rest
    case Stuck => o.Stuck?
    case Out(t, flag) => o == Out(s + t, flag)
  }

  /** An image, or a link around its text, which is lexed inside a link; neither leaves the flag set. */
  predicate WritesLink(rules: Rules, r: Renderer, o: Outcome, image: bool, text: string, target: Target, rest: string) {
    if image then Writes(o, r.image(target, text), Output(rules, r, rest, false))
    else
      match Output(rules, r, text, true)
      case Stuck => o.Stuck?
      case Out(inner, _) => Writes(o, r.link(target, inner), Output(rules, r, rest, false))
  }

  /** What the lexer writes when it takes a match. */
  predicate Takes(rules: Rules, r: Renderer, src: string, inLink: bool, cap: Cap) {
    && cap.Cap? && 0 < cap.length <= |src|
    && var o, rest := Output(rules, r, src, inLink), src[cap.length..];
       match cap.action
       case Literal(out) => Writes(o, out, Output(rules, r, rest, inLink))
       case Address(target, text) => Writes(o, r.link(target, text), Output(rules, r, rest, inLink))
       case Tag(out, opens, closes) =>
         Writes(o, out, Output(rules, r, rest, if inLink then !closes else opens))
       case Link(image, text, target) => WritesLink(rules, r, o, image, text, target, rest)
       case Reference(image, text, key) =>
         if key in r.links && r.links[key].href != ""
         then WritesLink(rules, r, o, image, text, r.links[key], rest)
         else Writes(o, [src[0]], Output(rules, r, src[1..], inLink))
       case Spanned(span, text) =>
         match Output(rules, r, text, inLink)
         case Stuck => o.Stuck?
         case Out(inner, flag) => Writes(o, r.span(span, inner), Output(rules, r, rest, flag))
  }

  /** What is written for a link or an image. */
  lemma {:induction false} LinkWrites(rules: Rules, r: Renderer, image: bool, text: string, target: Target, size: nat,
                                      rest: string)
    requires |text| < size
    ensures var first := OutputLink(rules, r, image, text, target, size);
            WritesLink(rules, r,
                       if first.Stuck? then Stuck else Then(first.out, Output(rules, r, rest, first.inLink)),
                       image, text, target, rest)
  {
  }

  lemma {:induction false} MatchTakes(rules: Rules, r: Renderer, src: string, inLink: bool, cap: Cap)
    requires src != "" && cap.Cap? && Match(rules, src, inLink) == cap
    ensures Takes(rules, r, src, inLink, cap)
  {
    assert Fits(cap, src);
    var rest := src[cap.length..];
    match cap.action
    case Link(image, text, target) => LinkWrites(rules, r, image, text, target, |src|, rest);
    case Reference(image, text, key) =>
      if !IsUnresolved(r.links, cap.action) {
        LinkWrites(rules, r, image, text, r.links[key], |src|, rest);
      }
    case _ =>
  }

  // ----- the first rule that matches -----

  lemma {:induction false} FirstAt(rs: seq<Rule>, s: string, k: nat)
    requires k < |rs| && rs[k](s).Cap? && forall j | 0 <= j < k :: rs[j](s).NoCap?
    ensures FirstCap(rs, s) == rs[k](s)
  {
    if k > 0 {
      assert forall j | 0 <= j < k - 1 :: rs[1..][j] == rs[j + 1];
      FirstAt(rs[1..], s, k - 1);
    }
  }

  lemma {:induction false} FirstNone(rs: seq<Rule>, s: string)
    requires forall j | 0 <= j < |rs| :: rs[j](s).NoCap?
    ensures FirstCap(rs, s).NoCap?
  {
    if rs != [] {
      assert forall j | 0 <= j < |rs| - 1 :: rs[1..][j] == rs[j + 1];
      FirstNone(rs[1..], s);
    }
  }

  lemma {:induction false} OrderedTakes(rules: Rules, r: Renderer, src: string, inLink: bool, k: nat)
    requires var rs := Ordered(rules, inLink);
             src != "" && k < |rs| && rs[k](src).Cap? && forall j | 0 <= j < k :: rs[j](src).NoCap?
    ensures Takes(rules, r, src, inLink, Ordered(rules, inLink)[k](src))
  {
    FirstAt(Ordered(rules, inLink), src, k);
    MatchTakes(rules, r, src, inLink, Ordered(rules, inLink)[k](src));
  }

  // ----- the rules in turn -----

  lemma {:induction false} TakesEscape(rules: Rules, r: Renderer, src: string, inLink: bool)
    requires src != "" && rules.escape(src).Cap?
    ensures Takes(rules, r, src, inLink, rules.escape(src))
  {
    OrderedTakes(rules, r, src, inLink, 0);
  }

  lemma {:induction false} TakesAutolink(rules: Rules, r: Renderer, src: string, inLink: bool)
    requires src != "" && rules.escape(src).NoCap? && rules.autolink(src).Cap?
    ensures Takes(rules, r, src, inLink, rules.autolink(src))
  {
    OrderedTakes(rules, r, src, inLink, 1);
  }

  /** A bare address is only looked for outside links. */
  lemma {:induction false} TakesUrl(rules: Rules, r: Renderer, src: string)
    requires src != "" && rules.escape(src).NoCap? && rules.autolink(src).NoCap? && rules.url(src).Cap?
    ensures Takes(rules, r, src, false, rules.url(src))
  {
    OrderedTakes(rules, r, src, false, 2);
  }

  /** No rule up to url matches. */
  predicate NoUrl(rules: RuleSet, src: string, inLink: bool) {
    rules.escape(src).NoCap? && rules.autolink(src).NoCap? && (!inLink ==> rules.url(src).NoCap?)
  }

  lemma {:induction false} TakesTag(rules: Rules, r: Renderer, src: string, inLink: bool)
    requires src != "" && NoUrl(rules, src, inLink) && rules.tag(src).Cap?
    ensures Takes(rules, r, src, inLink, rules.tag(src))
  {
    OrderedTakes(rules, r, src, inLink, if inLink then 2 else 3);
  }

  lemma {:induction false} TakesLink(rules: Rules, r: Renderer, src: string, inLink: bool)
    requires src != "" && NoUrl(rules, src, inLink) && rules.tag(src).NoCap? && rules.link(src).Cap?
    ensures Takes(rules, r, src, inLink, rules.link(src))
  {
    OrderedTakes(rules, r, src, inLink, if inLink then 3 else 4);
  }

  /** No rule up to link matches. */
  predicate NoLink(rules: RuleSet, src: string, inLink: bool) {
    NoUrl(rules, src, inLink) && rules.tag(src).NoCap? && rules.link(src).NoCap?
  }

  lemma {:induction false} TakesReflink(rules: Rules, r: Renderer, src: string, inLink: bool)
    requires src != "" && NoLink(rules, src, inLink) && rules.reflink(src).Cap?
    ensures Takes(rules, r, src, inLink, rules.reflink(src))
  {
    OrderedTakes(rules, r, src, inLink, if inLink then 4 else 5);
  }

  lemma {:induction false} TakesNolink(rules: Rules, r: Renderer, src: string, inLink: bool)
    requires src != "" && NoLink(rules, src, inLink) && rules.reflink(src).NoCap? && rules.nolink(src).Cap?
    ensures Takes(rules, r, src, inLink, rules.nolink(src))
  {
    OrderedTakes(rules, r, src, inLink, if inLink then 5 else 6);
  }

  /** No rule up to nolink matches. */
  predicate NoReference(rules: RuleSet, src: string, inLink: bool) {
    NoLink(rules, src, inLink) && rules.reflink(src).NoCap? && rules.nolink(src).NoCap?
  }

  lemma {:induction false} TakesStrong(rules: Rules, r: Renderer, src: string, inLink: bool)
    requires src != "" && NoReference(rules, src, inLink) && rules.strong(src).Cap?
    ensures Takes(rules, r, src, inLink, rules.strong(src))
  {
    OrderedTakes(rules, r, src, inLink, if inLink then 6 else 7);
  }

  lemma {:induction false} TakesEm(rules: Rules, r: Renderer, src: string, inLink: bool)
    requires src != "" && NoReference(rules, src, inLink) && rules.strong(src).NoCap? && rules.em(src).Cap?
    ensures Takes(rules, r, src, inLink, rules.em(src))
  {
    OrderedTakes(rules, r, src, inLink, if inLink then 7 else 8);
  }

  lemma {:induction false} TakesCode(rules: Rules, r: Renderer, src: string, inLink: bool)
    requires src != "" && NoReference(rules, src, inLink) && rules.strong(src).NoCap?
    requires rules.em(src).NoCap? && rules.code(src).Cap?
    ensures Takes(rules, r, src, inLink, rules.code(src))
  {
    OrderedTakes(rules, r, src, inLink, if inLink then 8 else 9);
  }

  /** No rule up to code matches. */
  predicate NoCode(rules: RuleSet, src: string, inLink: bool) {
    NoReference(rules, src, inLink) && rules.strong(src).NoCap? && rules.em(src).NoCap? && rules.code(src).NoCap?
  }

  lemma {:induction false} TakesBr(rules: Rules, r: Renderer, src: string, inLink: bool)
    requires src != "" && NoCode(rules, src, inLink) && rules.br(src).Cap?
    ensures Takes(rules, r, src, inLink, rules.br(src))
  {
    OrderedTakes(rules, r, src, inLink, if inLink then 9 else 10);
  }

  lemma {:induction false} TakesDel(rules: Rules, r: Renderer, src: string, inLink: bool)
    requires src != "" && NoCode(rules, src, inLink) && rules.br(src).NoCap? && rules.del(src).Cap?
    ensures Takes(rules, r, src, inLink, rules.del(src))
  {
    OrderedTakes(rules, r, src, inLink, if inLink then 10 else 11);
  }

  lemma {:induction false} TakesText(rules: Rules, r: Renderer, src: string, inLink: bool)
    requires src != "" && NoCode(rules, src, inLink) && rules.br(src).NoCap?
    requires rules.del(src).NoCap? && rules.text(src).Cap?
    ensures Takes(rules, r, src, inLink, rules.text(src))
  {
    OrderedTakes(rules, r, src, inLink, if inLink then 11 else 12);
  }

  /** When no rule matches, the lexer is stuck on a text that is not empty. */
  lemma {:induction false} TakesNothing(rules: Rules, r: Renderer, src: string, inLink: bool)
    requires NoCode(rules, src, inLink)
    requires rules.br(src).NoCap? && rules.del(src).NoCap? && rules.text(src).NoCap?
    ensures Output(rules, r, src, inLink) == if src == "" then Out("", inLink) else Stuck
  {
    FirstNone(Ordered(rules, inLink), src);
  }
}
