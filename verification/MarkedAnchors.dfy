/**
 What the inLink flag of the inline lexer in doc/swagger/lib/marked.js does to a
 text: which flag the text leaves behind, and which texts come out differently
 inside a link.  Both are read off what the rules match, without the output.
 */
module MarkedAnchors {
  import opened Wrappers
  import opened MarkedInline

  // ----- the flag that a text leaves behind -----

  /** An opening anchor, a closing one, or a link or image. */
  datatype Mark = Opens | Closes | Linked

  /** The anchors and links that are matched, but for those in the texts of links. */
  function MarksOf(rules: Rules, links: Links, src: string, inLink: bool): seq<Mark>
    decreases |src|, 1
  {
    if src == "" then []
    else
      var cap := Match(rules, src, inLink);
      if cap.NoCap? then []
      else if IsUnresolved(links, cap.action) then MarksOf(rules, links, src[1..], inLink)
      else
        var first := ActionMarks(rules, links, cap.action, inLink, |src|);
        first + MarksOf(rules, links, src[cap.length..], FlagAfter(first, inLink))
  }

  function ActionMarks(rules: Rules, links: Links, a: Action, inLink: bool, ghost size: nat): seq<Mark>
    requires a.Spanned? ==> |a.text| < size
    decreases size, 0
  {
    match a
    case Tag(_, opens, closes) => if opens then [Opens] else if closes then [Closes] else []
    case Link(_, _, _) => [Linked]
    case Reference(_, _, _) => [Linked]
    case Spanned(_, text) => MarksOf(rules, links, text, inLink)
    case _ => []
  }

  /** The last one decides. */
  function FlagAfter(marks: seq<Mark>, inLink: bool): bool {
    if marks == [] then inLink else marks[|marks| - 1].Opens?
  }

  lemma {:induction false} FlagAfterBoth(a: seq<Mark>, b: seq<Mark>, inLink: bool)
    ensures FlagAfter(a + b, inLink) == FlagAfter(b, FlagAfter(a, inLink))
  {
  }

  /** The flag after a text is set exactly when the last of its anchors and links is an opening anchor. */
  lemma {:induction false} FlagIsLastMark(rules: Rules, r: Renderer, src: string, inLink: bool)
    requires Output(rules, r, src, inLink).Out?
    ensures Output(rules, r, src, inLink).inLink == FlagAfter(MarksOf(rules, r.links, src, inLink), inLink)
    decreases |src|, 1
  {
    if src != "" {
      var cap := Match(rules, src, inLink);
      if IsUnresolved(r.links, cap.action) {
        FlagIsLastMark(rules, r, src[1..], inLink);
      } else {
        ActionIsLastMark(rules, r, cap.action, inLink, |src|);
        var first := ActionMarks(rules, r.links, cap.action, inLink, |src|);
        var flag := FlagAfter(first, inLink);
        FlagIsLastMark(rules, r, src[cap.length..], flag);
        FlagAfterBoth(first, MarksOf(rules, r.links, src[cap.length..], flag), inLink);
      }
    }
  }

  lemma {:induction false} ActionIsLastMark(rules: Rules, r: Renderer, a: Action, inLink: bool, size: nat)
    requires !IsUnresolved(r.links, a)
    requires a.Link? || a.Reference? || a.Spanned? ==> |a.text| < size
    requires a.Tag? ==> !(a.opens && a.closes)
    requires Act(rules, r, a, inLink, size).Out?
    ensures Act(rules, r, a, inLink, size).inLink == FlagAfter(ActionMarks(rules, r.links, a, inLink, size), inLink)
    decreases size, 0
  {
    if a.Spanned? {
      FlagIsLastMark(rules, r, a.text, inLink);
    }
  }

  // ----- texts that come out differently inside a link -----

  /**
   A text outside and inside a link: the flags are still different at its end, or
   have become equal, or a bare address was found while they were different, with
   the first character of what is written for it inside a link.
   */
  datatype Course = Unsettled | Settled | Sensitive(found: char)

  function Before(c: Course, d: Course): Course {
    if c.Unsettled? then d else c
  }

  /** Here only the url rule tells the flags apart. */
  predicate FindsAddress(rules: RuleSet, src: string) {
    rules.escape(src).NoCap? && rules.autolink(src).NoCap? && rules.url(src).Cap?
  }

  function FirstWritten(cap: Cap): char {
    if cap.Cap? && cap.action.Literal? && cap.action.out != "" then cap.action.out[0] else ' '
  }

  function CourseOf(rules: Rules, links: Links, src: string): Course
    decreases |src|, 1
  {
    if src == "" then Unsettled
    else
      var cap := Match(rules, src, true);
      if FindsAddress(rules, src) then Sensitive(FirstWritten(cap))
      else if cap.NoCap? then Settled
      else if IsUnresolved(links, cap.action) then CourseOf(rules, links, src[1..])
      else Before(CourseOfAction(rules, links, cap.action, |src|), CourseOf(rules, links, src[cap.length..]))
  }

  /** An anchor, a link or an image makes the flags equal. */
  function CourseOfAction(rules: Rules, links: Links, a: Action, ghost size: nat): Course
    requires a.Spanned? ==> |a.text| < size
    decreases size, 0
  {
    match a
    case Tag(_, opens, closes) => if opens || closes then Settled else Unsettled
    case Link(_, _, _) => Settled
    case Reference(_, _, _) => Settled
    case Spanned(_, text) => CourseOf(rules, links, text)
    case _ => Unsettled
  }

  /** A bare address begins with what no other rule takes; the text rule takes anything, and writes something. */
  predicate AddressAlone(rules: RuleSet, s: string) {
    rules.url(s).Cap? ==>
      && rules.url(s).action.Address?
      && rules.tag(s).NoCap? && rules.link(s).NoCap? && rules.reflink(s).NoCap? && rules.nolink(s).NoCap?
      && rules.strong(s).NoCap? && rules.em(s).NoCap? && rules.code(s).NoCap? && rules.br(s).NoCap?
      && rules.del(s).NoCap?
  }

  predicate TextMatches(rules: RuleSet, s: string) {
    s != "" ==> rules.text(s).Cap? && rules.text(s).action.Literal? && rules.text(s).action.out != ""
  }

  ghost predicate Grammar(rules: RuleSet) {
    forall s: string :: AddressAlone(rules, s) && TextMatches(rules, s)
  }

  /** A renderer that writes one given character for each link, and leaves spans as they are. */
  ghost predicate Tells(rules: RuleSet, r: Renderer, told: Option<char>) {
    told.Some? ==>
      && Grammar(rules)
      && (forall target, text :: r.link(target, text) == [told.value])
      && (forall span, text :: r.span(span, text) == text)
  }

  predicate DifferAt(s: string, t: string, k: nat) {
    k < |s| && k < |t| && s[..k] == t[..k] && s[k] != t[k]
  }

  /** Neither is a prefix of the other. */
  ghost predicate Differ(s: string, t: string) {
    exists k: nat :: DifferAt(s, t, k)
  }

  /** What is known of the outcomes outside and inside a link. */
  ghost predicate Related(c: Course, a: Outcome, b: Outcome, told: Option<char>) {
    && (told.Some? ==> a.Out? && b.Out?)
    && match c
       case Unsettled => a.Out? && b.Out? && a.out == b.out && !a.inLink && b.inLink
       case Settled => a == b
       case Sensitive(found) => told.Some? && told.value != found ==> Differ(a.out, b.out)
  }

  lemma {:induction false} DifferStill(s: string, t: string, x: string, y: string)
    requires Differ(s, t)
    ensures Differ(s + x, t + y)
  {
    var k: nat :| DifferAt(s, t, k);
    assert (s + x)[..k] == s[..k] && (t + y)[..k] == t[..k];
    assert DifferAt(s + x, t + y, k);
  }

  lemma {:induction false} DifferBehind(x: string, s: string, t: string)
    requires Differ(s, t)
    ensures Differ(x + s, x + t)
  {
    var k: nat :| DifferAt(s, t, k);
    assert (x + s)[..|x| + k] == x + s[..k] && (x + t)[..|x| + k] == x + t[..k];
    assert DifferAt(x + s, x + t, |x| + k);
  }

  /** What is written after something, with the flag that it leaves. */
  function From(first: Outcome, outside: Outcome, inside: Outcome): Outcome {
    if first.Stuck? then Stuck else Then(first.out, if first.inLink then inside else outside)
  }

  /** One piece after another, where the second starts with the flag that the first leaves. */
  lemma {:induction false} RelatedJoined(c: Course, d: Course, a: Outcome, b: Outcome, outside: Outcome,
                                         inside: Outcome, told: Option<char>)
    requires Related(c, a, b, told) && Related(d, outside, inside, told)
    ensures Related(Before(c, d), From(a, outside, inside), From(b, outside, inside), told)
  {
    match c
    case Unsettled =>
      if d.Sensitive? && told.Some? && told.value != d.found {
        DifferBehind(a.out, outside.out, inside.out);
      }
    case Settled =>
    case Sensitive(found) =>
      if told.Some? && told.value != found {
        var x, y := if a.inLink then inside else outside, if b.inLink then inside else outside;
        DifferStill(a.out, b.out, x.out, y.out);
      }
  }

  lemma {:induction false} FirstCapConcat(a: seq<Rule>, b: seq<Rule>, s: string)
    ensures FirstCap(a + b, s) == if FirstCap(a, s).Cap? then FirstCap(a, s) else FirstCap(b, s)
  {
    if a == [] {
      assert a + b == b;
    } else {
      assert (a + b)[1..] == a[1..] + b;
      FirstCapConcat(a[1..], b, s);
    }
  }

  /** The rules after url. */
  function Others(rules: Rules): seq<Rule> {
    [rules.tag, rules.link, rules.reflink, rules.nolink, rules.strong, rules.em, rules.code, rules.br, rules.del,
     rules.text]
  }

  lemma {:induction false} MatchOrder(rules: Rules, src: string)
    ensures var early := FirstCap([rules.escape, rules.autolink], src);
            && (early.Cap? <==> rules.escape(src).Cap? || rules.autolink(src).Cap?)
            && Match(rules, src, true) == (if early.Cap? then early else FirstCap(Others(rules), src))
            && Match(rules, src, false) == (if early.Cap? then early else if rules.url(src).Cap? then rules.url(src)
                                            else FirstCap(Others(rules), src))
  {
    var early, url := [rules.escape, rules.autolink], [rules.url];
    assert early[1..] == [rules.autolink] && early[1..][1..] == [] && url[1..] == [];
    assert FirstCap(url, src) == rules.url(src) && FirstCap([rules.autolink], src) == rules.autolink(src);
    assert Ordered(rules, true) == early + Others(rules);
    assert Ordered(rules, false) == early + (url + Others(rules));
    FirstCapConcat(early, Others(rules), src);
    FirstCapConcat(early, url + Others(rules), src);
    FirstCapConcat(url, Others(rules), src);
  }

  lemma {:induction false} SameMatch(rules: Rules, src: string)
    requires !FindsAddress(rules, src)
    ensures Match(rules, src, false) == Match(rules, src, true)
  {
    MatchOrder(rules, src);
  }

  /** A bare address inside a link is taken by the text rule. */
  lemma {:induction false} AddressMatches(rules: Rules, src: string)
    requires Grammar(rules) && src != "" && FindsAddress(rules, src)
    ensures Match(rules, src, false) == rules.url(src) && rules.url(src).action.Address?
    ensures Match(rules, src, true) == rules.text(src) && TextMatches(rules, src)
  {
    assert AddressAlone(rules, src) && TextMatches(rules, src);
    MatchOrder(rules, src);
    FirstCapAt(Others(rules), src, 9);
  }

  /** The first rule that matches decides. */
  lemma {:induction false} FirstCapAt(rs: seq<Rule>, s: string, k: nat)
    requires k < |rs| && (forall i | 0 <= i < k :: rs[i](s).NoCap?) && rs[k](s).Cap?
    ensures FirstCap(rs, s) == rs[k](s)
  {
    if k > 0 {
      assert rs[1..][k - 1] == rs[k] && rs[0](s).NoCap?;
      assert forall i | 0 <= i < k - 1 :: rs[1..][i] == rs[i + 1];
      FirstCapAt(rs[1..], s, k - 1);
    }
  }

  lemma {:induction false} AlwaysMatches(rules: Rules, src: string, inLink: bool)
    requires Grammar(rules) && src != ""
    ensures Match(rules, src, inLink).Cap?
  {
    MatchOrder(rules, src);
    assert TextMatches(rules, src);
    LastMatches(Others(rules), src);
  }

  lemma {:induction false} LastMatches(rs: seq<Rule>, s: string)
    requires rs != [] && rs[|rs| - 1](s).Cap?
    ensures FirstCap(rs, s).Cap?
  {
    if rs[0](s).NoCap? {
      assert rs[1..][|rs| - 2] == rs[|rs| - 1];
      LastMatches(rs[1..], s);
    }
  }

  lemma {:induction false} NeverStuck(rules: Rules, r: Renderer, src: string, inLink: bool)
    requires Grammar(rules)
    ensures Output(rules, r, src, inLink).Out?
    decreases |src|, 1
  {
    if src != "" {
      AlwaysMatches(rules, src, inLink);
      var cap := Match(rules, src, inLink);
      if IsUnresolved(r.links, cap.action) {
        NeverStuck(rules, r, src[1..], inLink);
      } else {
        ActionNeverStuck(rules, r, cap.action, inLink, |src|);
        NeverStuck(rules, r, src[cap.length..], Act(rules, r, cap.action, inLink, |src|).inLink);
      }
    }
  }

  lemma {:induction false} ActionNeverStuck(rules: Rules, r: Renderer, a: Action, inLink: bool, size: nat)
    requires Grammar(rules) && !IsUnresolved(r.links, a)
    requires a.Link? || a.Reference? || a.Spanned? ==> |a.text| < size
    ensures Act(rules, r, a, inLink, size).Out?
    decreases size, 0
  {
    if a.Link? || a.Reference? {
      NeverStuck(rules, r, a.text, true);
    } else if a.Spanned? {
      NeverStuck(rules, r, a.text, inLink);
    }
  }

  /** A text outside and inside a link. */
  ghost predicate TextRelated(rules: Rules, r: Renderer, src: string, told: Option<char>) {
    Related(CourseOf(rules, r.links, src), Output(rules, r, src, false), Output(rules, r, src, true), told)
  }

  lemma {:induction false} CourseIsRight(rules: Rules, r: Renderer, src: string, told: Option<char>)
    requires Tells(rules, r, told)
    ensures TextRelated(rules, r, src, told)
    decreases |src|, 1
  {
    if told.Some? {
      NeverStuck(rules, r, src, false);
      NeverStuck(rules, r, src, true);
    }
    if src != "" {
      var cap := Match(rules, src, true);
      if FindsAddress(rules, src) {
        if told.Some? {
          AddressTold(rules, r, src, told.value);
        }
      } else {
        SameMatch(rules, src);
        if cap.Cap? {
          if IsUnresolved(r.links, cap.action) {
            CourseIsRight(rules, r, src[1..], told);
            var out, rest := [src[0]], src[1..];
            RelatedJoined(Unsettled, CourseOf(rules, r.links, rest), Out(out, false), Out(out, true),
                          Output(rules, r, rest, false), Output(rules, r, rest, true), told);
          } else {
            CourseIsRight(rules, r, src[cap.length..], told);
            ActionRelated(rules, r, cap.action, |src|, told);
            ActionCourse(rules, r, src, cap, told);
          }
        }
      }
    }
  }

  lemma {:induction false} ActionRelated(rules: Rules, r: Renderer, a: Action, size: nat, told: Option<char>)
    requires Tells(rules, r, told) && !IsUnresolved(r.links, a)
    requires a.Link? || a.Reference? || a.Spanned? ==> |a.text| < size
    requires a.Tag? ==> !(a.opens && a.closes)
    ensures Related(CourseOfAction(rules, r.links, a, size), Act(rules, r, a, false, size),
                    Act(rules, r, a, true, size), told)
    decreases size, 0
  {
    if told.Some? {
      ActionNeverStuck(rules, r, a, false, size);
      ActionNeverStuck(rules, r, a, true, size);
    }
    if a.Spanned? {
      CourseIsRight(rules, r, a.text, told);
    }
  }

  lemma {:induction false} ActionCourse(rules: Rules, r: Renderer, src: string, cap: Cap, told: Option<char>)
    requires src != "" && !FindsAddress(rules, src) && cap.Cap? && !IsUnresolved(r.links, cap.action)
    requires Match(rules, src, true) == cap && Match(rules, src, false) == cap
    requires TextRelated(rules, r, src[cap.length..], told)
    requires Related(CourseOfAction(rules, r.links, cap.action, |src|), Act(rules, r, cap.action, false, |src|),
                     Act(rules, r, cap.action, true, |src|), told)
    ensures TextRelated(rules, r, src, told)
  {
    var a, b := Act(rules, r, cap.action, false, |src|), Act(rules, r, cap.action, true, |src|);
    var c, rest := CourseOfAction(rules, r.links, cap.action, |src|), src[cap.length..];
    var outside, inside := Output(rules, r, rest, false), Output(rules, r, rest, true);
    RelatedJoined(c, CourseOf(rules, r.links, rest), a, b, outside, inside, told);
  }

  lemma {:induction false} AddressTold(rules: Rules, r: Renderer, src: string, told: char)
    requires Tells(rules, r, Some(told)) && src != "" && FindsAddress(rules, src)
    requires Output(rules, r, src, false).Out? && Output(rules, r, src, true).Out?
    ensures told != FirstWritten(Match(rules, src, true)) ==>
              Differ(Output(rules, r, src, false).out, Output(rules, r, src, true).out)
  {
    AddressMatches(rules, src);
    if told != FirstWritten(Match(rules, src, true)) {
      var a, b := Output(rules, r, src, false).out, Output(rules, r, src, true).out;
      assert a[0] == told && b[0] == rules.text(src).action.out[0];
      assert DifferAt(a, b, 0);
    }
  }
}
