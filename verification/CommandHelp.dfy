/**
 The usage text of src/ejabberd_ctl.erl: descriptions are wrapped greedily and
 aligned behind the longest command.  Shell codes have no width and are left out.
 */
module CommandHelp {
  import opened Sequences

  // ----- join -----

  /** join/5: the last segment and the segments before it are built in reverse. */
  function JoinFrom(max: int, words: seq<string>, len: nat, last: seq<string>, done: seq<seq<string>>): seq<seq<string>>
    decreases words
  {
    if words == [] then Reversed([Reversed(last)] + done)
    else
      var word, rest := words[0], words[1..];
      if |word| + len < max then
        JoinFrom(max, rest, if '\n' in word then |word| + 1 else len + |word| + 1, [" ", word] + last, done)
      else JoinFrom(max, rest, |word|, [" ", word], [Reversed(last)] + done)
  }

  function Join(max: int, words: seq<string>): seq<seq<string>> {
    JoinFrom(max, words, 0, [], [])
  }

  // ----- the words of each line -----

  /** The same lines, as the words they hold. */
  function Lines(max: int, words: seq<string>, len: nat, line: seq<string>): seq<seq<string>>
    decreases words
  {
    if words == [] then [line]
    else
      var word, rest := words[0], words[1..];
      if |word| + len < max then
        Lines(max, rest, if '\n' in word then |word| + 1 else len + |word| + 1, line + [word])
      else [line] + Lines(max, rest, |word|, [word])
  }

  /** Every word of a segment is followed by a space. */
  function Segment(line: seq<string>): seq<string> {
    if line == [] then [] else [line[0], " "] + Segment(line[1..])
  }

  function Segments(lines: seq<seq<string>>): (r: seq<seq<string>>)
    ensures |r| == |lines| && forall i | 0 <= i < |lines| :: r[i] == Segment(lines[i])
  {
    if lines == [] then [] else [Segment(lines[0])] + Segments(lines[1..])
  }

  lemma {:induction false} SegmentSnoc(line: seq<string>, word: string)
    ensures Segment(line + [word]) == Segment(line) + [word, " "]
  {
    if line == [] {
      assert line + [word] == [word] && [word][1..] == [];
    } else {
      SegmentSnoc(line[1..], word);
      assert (line + [word])[1..] == line[1..] + [word];
    }
  }

  lemma {:induction false} ReversedPair(s: seq<string>, word: string)
    ensures [" ", word] + Reversed(s) == Reversed(s + [word, " "])
  {
    ReversedSnoc(s, word);
    ReversedSnoc(s + [word], " ");
    assert s + [word] + [" "] == s + [word, " "];
    assert [" "] + ([word] + Reversed(s)) == [" ", word] + Reversed(s);
  }

  lemma {:induction false} LastSegment(line: seq<string>, done: seq<seq<string>>)
    ensures Reversed([Reversed(Reversed(Segment(line)))] + Reversed(done)) == done + Segments([line])
  {
    ReversedTwice(Segment(line));
    ReversedSnoc(done, Segment(line));
    ReversedTwice(done + [Segment(line)]);
    assert [line][1..] == [];
    assert Segments([line]) == [Segment(line)];
  }

  lemma {:induction false} FirstWord(word: string)
    ensures Reversed(Segment([word])) == [" ", word] && Segment([word]) == [word, " "]
  {
    SegmentSnoc([], word);
    assert [] + [word] == [word] && Segment([]) + [word, " "] == [word, " "];
    ReversedPair([], word);
    assert [] + [word, " "] == [word, " "] && [" ", word] + Reversed<string>([]) == [" ", word];
  }

  lemma {:induction false} SegmentsCons(line: seq<string>, more: seq<seq<string>>, done: seq<seq<string>>)
    ensures done + [Segment(line)] + Segments(more) == done + Segments([line] + more)
  {
    assert ([line] + more)[1..] == more;
  }

  lemma {:induction false} JoinFromIsLines(max: int, words: seq<string>, len: nat, line: seq<string>,
                                           done: seq<seq<string>>)
    ensures JoinFrom(max, words, len, Reversed(Segment(line)), Reversed(done))
         == done + Segments(Lines(max, words, len, line))
    decreases words
  {
    if words == [] {
      LastSegment(line, done);
    } else {
      var word, rest := words[0], words[1..];
      if |word| + len < max {
        ReversedPair(Segment(line), word);
        SegmentSnoc(line, word);
        JoinFromIsLines(max, rest, if '\n' in word then |word| + 1 else len + |word| + 1, line + [word], done);
      } else {
        ReversedTwice(Segment(line));
        ReversedSnoc(done, Segment(line));
        FirstWord(word);
        JoinFromIsLines(max, rest, |word|, [word], done + [Segment(line)]);
        SegmentsCons(line, Lines(max, rest, |word|, [word]), done);
      }
    }
  }

  /** join/2 is the wrapping into lines of words. */
  lemma {:induction false} JoinIsLines(max: int, words: seq<string>)
    ensures Join(max, words) == Segments(Lines(max, words, 0, []))
  {
    JoinFromIsLines(max, words, 0, [], []);
    var r := Segments(Lines(max, words, 0, []));
    assert [] + r == r;
  }

  // ----- what the lines are -----

  function Concat(lines: seq<seq<string>>): seq<string> {
    if lines == [] then [] else lines[0] + Concat(lines[1..])
  }

  /** Every word is kept, once and in order, and there is always a line. */
  lemma {:induction false} LinesKeepWords(max: int, words: seq<string>, len: nat, line: seq<string>)
    ensures Concat(Lines(max, words, len, line)) == line + words
    ensures Lines(max, words, len, line) != []
    decreases words
  {
    if words == [] {
      assert [line][1..] == [];
      assert Concat([line]) == line + [];
    } else {
      var word, rest := words[0], words[1..];
      assert words == [word] + rest;
      if |word| + len < max {
        LinesKeepWords(max, rest, if '\n' in word then |word| + 1 else len + |word| + 1, line + [word]);
        assert line + [word] + rest == line + words;
      } else {
        LinesKeepWords(max, rest, |word|, [word]);
        var more := Lines(max, rest, |word|, [word]);
        assert ([line] + more)[1..] == more;
      }
    }
  }

  /** The columns a line takes with the space after each word. */
  function Width(line: seq<string>): nat {
    if line == [] then 0 else |line[0]| + 1 + Width(line[1..])
  }

  lemma {:induction false} WidthSnoc(line: seq<string>, word: string)
    ensures Width(line + [word]) == Width(line) + |word| + 1
  {
    if line == [] {
      assert line + [word] == [word] && [word][1..] == [];
    } else {
      WidthSnoc(line[1..], word);
      assert (line + [word])[1..] == line[1..] + [word];
    }
  }

  /** At most max columns without the last space, unless it is one word that is longer. */
  predicate Narrow(max: int, line: seq<string>) {
    Width(line) <= max + 1 || (|line| == 1 && |line[0]| > max) || line == []
  }

  /** The counter in join counts the last space on the first line only. */
  function Counted(first: bool, line: seq<string>): int {
    if first then Width(line) else Width(line) - 1
  }

  predicate NoNewlines(words: seq<string>) {
    forall i | 0 <= i < |words| :: '\n' !in words[i]
  }

  /** Every line but the first has a word, and that word did not fit on the line before. */
  predicate Greedy(max: int, first: bool, lines: seq<seq<string>>) {
    forall i | 0 <= i < |lines| - 1 :: BreakAfter(max, first, lines, i)
  }

  predicate BreakAfter(max: int, first: bool, lines: seq<seq<string>>, i: nat)
    requires i < |lines| - 1
  {
    lines[i + 1] != [] && |lines[i + 1][0]| + Counted(first && i == 0, lines[i]) >= max
  }

  lemma {:induction false} LinesFit(max: int, words: seq<string>, len: nat, line: seq<string>, first: bool)
    requires NoNewlines(words) && len == Counted(first, line) && (!first ==> line != [])
    requires Narrow(max, line) && (first && line != [] ==> Width(line) <= max)
    ensures var lines := Lines(max, words, len, line);
            && lines != [] && line <= lines[0]
            && (forall i | 0 <= i < |lines| :: Narrow(max, lines[i]))
            && Greedy(max, first, lines)
    decreases words
  {
    if words != [] {
      var word, rest := words[0], words[1..];
      assert '\n' !in words[0];
      assert forall i | 0 <= i < |rest| :: rest[i] == words[i + 1];
      if |word| + len < max {
        WidthSnoc(line, word);
        LinesFit(max, rest, len + |word| + 1, line + [word], first);
      } else {
        WidthSnoc([], word);
        assert [] + [word] == [word];
        LinesFit(max, rest, |word|, [word], false);
        LineBreak(max, first, line, Lines(max, rest, |word|, [word]), word);
      }
    }
  }

  lemma {:induction false} LineBreak(max: int, first: bool, line: seq<string>, more: seq<seq<string>>, word: string)
    requires more != [] && [word] <= more[0] && Greedy(max, false, more)
    requires |word| + Counted(first, line) >= max
    ensures Greedy(max, first, [line] + more)
  {
    var lines := [line] + more;
    forall i | 0 <= i < |lines| - 1
      ensures BreakAfter(max, first, lines, i)
    {
      if i == 0 {
        assert lines[1] == more[0] && more[0][0] == word;
      } else {
        assert BreakAfter(max, false, more, i - 1);
      }
    }
  }

  /**
   Wrapping: the lines hold the words in order, none is wider than allowed unless
   it is one word, and each break is there because the next word did not fit.
   */
  lemma {:induction false} WrapIsGreedy(max: int, words: seq<string>)
    requires NoNewlines(words)
    ensures var lines := Lines(max, words, 0, []);
            && Join(max, words) == Segments(lines)
            && lines != [] && Concat(lines) == words
            && (forall i | 0 <= i < |lines| :: Narrow(max, lines[i]))
            && Greedy(max, true, lines)
  {
    JoinIsLines(max, words);
    LinesKeepWords(max, words, 0, []);
    LinesFit(max, words, 0, [], true);
    assert [] + words == words;
  }

  // ----- descriptions -----

  predicate IsSeparator(c: char) {
    c == ' ' || c == '\n'
  }

  function WordLength(s: string): (n: nat)
    ensures n <= |s| && forall i | 0 <= i < n :: !IsSeparator(s[i])
    ensures n < |s| ==> IsSeparator(s[n])
  {
    if s == "" || IsSeparator(s[0]) then 0
    else
      var n := WordLength(s[1..]);
      assert forall i | 0 < i < 1 + n :: s[i] == s[1..][i - 1];
      1 + n
  }

  /** string:tokens(Desc, " \n") */
  function Tokens(s: string): seq<string>
    decreases |s|
  {
    if s == "" then []
    else if IsSeparator(s[0]) then Tokens(s[1..])
    else [s[..WordLength(s)]] + Tokens(s[WordLength(s)..])
  }

  lemma {:induction false} TokensNoNewlines(s: string)
    ensures NoNewlines(Tokens(s))
    decreases |s|
  {
    if s == "" {
    } else if IsSeparator(s[0]) {
      TokensNoNewlines(s[1..]);
    } else {
      var n := WordLength(s);
      TokensNoNewlines(s[n..]);
      var word, rest := s[..n], Tokens(s[n..]);
      assert '\n' !in word;
      forall i | 0 <= i < |Tokens(s)|
        ensures '\n' !in Tokens(s)[i]
      {
        assert i > 0 ==> Tokens(s)[i] == rest[i - 1];
      }
    }
  }

  predicate Separators(s: string) {
    forall i | 0 <= i < |s| :: s[i] == ' ' || s[i] == '\n'
  }

  /** A word with no separator in it. */
  predicate IsWord(s: string) {
    s != "" && forall i | 0 <= i < |s| :: s[i] != ' ' && s[i] != '\n'
  }

  /** The words with separators before, between and after them. */
  function Spaced(before: string, words: seq<string>, gaps: seq<string>): string
    requires |gaps| == |words|
    decreases words
  {
    if words == [] then before else before + words[0] + Spaced(gaps[0], words[1..], gaps[1..])
  }

  /** There are separators between two words, and perhaps at the ends. */
  predicate Apart(before: string, words: seq<string>, gaps: seq<string>) {
    && |gaps| == |words| && Separators(before)
    && (forall i | 0 <= i < |words| :: IsWord(words[i]) && Separators(gaps[i]))
    && forall i | 0 <= i < |words| - 1 :: gaps[i] != ""
  }

  /** The text is these words, separated. */
  ghost predicate WordsOf(s: string, words: seq<string>) {
    exists before, gaps :: Apart(before, words, gaps) && s == Spaced(before, words, gaps)
  }

  lemma {:induction false} SeparatorFirst(c: char, s: string, words: seq<string>)
    requires IsSeparator(c) && WordsOf(s, words)
    ensures WordsOf([c] + s, words)
  {
    var before, gaps :| Apart(before, words, gaps) && s == Spaced(before, words, gaps);
    if words != [] {
      var rest := Spaced(gaps[0], words[1..], gaps[1..]);
      assert [c] + (before + words[0] + rest) == [c] + before + words[0] + rest;
    }
    assert Apart([c] + before, words, gaps) && [c] + s == Spaced([c] + before, words, gaps);
  }

  lemma {:induction false} BeforeWord(before: string, word: string, rest: string)
    requires IsWord(word)
    ensures before == "" ==> !IsSeparator((before + word + rest)[0])
  {
    assert ("" + word + rest)[0] == word[0];
  }

  lemma {:induction false} WordFirst(word: string, s: string, words: seq<string>)
    requires IsWord(word) && WordsOf(s, words) && (s == "" || IsSeparator(s[0]))
    ensures WordsOf(word + s, [word] + words)
  {
    var before, gaps :| Apart(before, words, gaps) && s == Spaced(before, words, gaps);
    var more, spaces := [word] + words, [before] + gaps;
    assert more[1..] == words && spaces[1..] == gaps;
    assert Spaced("", more, spaces) == "" + word + s;
    if words != [] {
      BeforeWord(before, words[0], Spaced(gaps[0], words[1..], gaps[1..]));
    }
    forall i | 0 <= i < |spaces|
      ensures IsWord(more[i]) && Separators(spaces[i]) && (i < |spaces| - 1 ==> spaces[i] != "")
    {
      if i > 0 {
        assert spaces[i] == gaps[i - 1] && more[i] == words[i - 1];
      }
    }
    assert Apart("", more, spaces);
  }

  lemma {:induction false} TokensSplit(s: string)
    ensures WordsOf(s, Tokens(s))
    decreases |s|
  {
    if s == "" {
      assert Apart("", [], []) && s == Spaced("", [], []);
    } else if IsSeparator(s[0]) {
      TokensSplit(s[1..]);
      SeparatorFirst(s[0], s[1..], Tokens(s[1..]));
      assert [s[0]] + s[1..] == s;
    } else {
      var n := WordLength(s);
      TokensSplit(s[n..]);
      WordFirst(s[..n], s[n..], Tokens(s[n..]));
      assert s[..n] + s[n..] == s;
    }
  }

  /** The separators after a word start what follows it. */
  lemma {:induction false} AfterWord(words: seq<string>, gaps: seq<string>)
    requires words != [] && Apart("", words, gaps)
    ensures Apart(gaps[0], words[1..], gaps[1..])
    ensures var rest := Spaced(gaps[0], words[1..], gaps[1..]); rest != "" ==> IsSeparator(rest[0])
  {
    var more, spaces := words[1..], gaps[1..];
    assert forall i | 0 <= i < |more| :: more[i] == words[i + 1] && spaces[i] == gaps[i + 1];
    if |words| > 1 {
      assert gaps[0] != "";
      var tail := Spaced(spaces[0], more[1..], spaces[1..]);
      assert (gaps[0] + more[0] + tail)[0] == gaps[0][0];
    }
  }

  lemma {:induction false} FirstWordLength(word: string, rest: string)
    requires IsWord(word) && (rest != "" ==> IsSeparator(rest[0]))
    ensures WordLength(word + rest) == |word|
  {
    var s := word + rest;
    assert forall i | 0 <= i < |word| :: s[i] == word[i];
    assert rest != "" ==> s[|word|] == rest[0];
  }

  lemma {:induction false} TokensSkip(c: char, s: string)
    requires IsSeparator(c)
    ensures Tokens([c] + s) == Tokens(s)
  {
    assert ([c] + s)[1..] == s;
  }

  lemma {:induction false} TokensWord(word: string, rest: string)
    requires IsWord(word) && (rest != "" ==> IsSeparator(rest[0]))
    ensures Tokens(word + rest) == [word] + Tokens(rest)
  {
    var s := word + rest;
    FirstWordLength(word, rest);
    assert s[0] == word[0];
    assert s[..|word|] == word && s[|word|..] == rest;
  }

  lemma {:induction false} SpacedSkip(before: string, words: seq<string>, gaps: seq<string>)
    requires before != "" && |gaps| == |words|
    ensures Spaced(before, words, gaps) == [before[0]] + Spaced(before[1..], words, gaps)
  {
    if words != [] {
      var rest := Spaced(gaps[0], words[1..], gaps[1..]);
      assert before + words[0] + rest == [before[0]] + (before[1..] + words[0] + rest);
    }
  }

  lemma {:induction false} SpacedTokens(before: string, words: seq<string>, gaps: seq<string>)
    requires Apart(before, words, gaps)
    ensures Tokens(Spaced(before, words, gaps)) == words
    decreases |words|, |before|
  {
    if before != "" {
      SpacedTokens(before[1..], words, gaps);
      SpacedSkip(before, words, gaps);
      TokensSkip(before[0], Spaced(before[1..], words, gaps));
    } else if words != [] {
      var rest := Spaced(gaps[0], words[1..], gaps[1..]);
      AfterWord(words, gaps);
      SpacedTokens(gaps[0], words[1..], gaps[1..]);
      TokensWord(words[0], rest);
      assert "" + words[0] + rest == words[0] + rest;
    }
  }

  /** string:tokens gives the one list of words that the text is made of. */
  lemma {:induction false} TokensAre(s: string, words: seq<string>)
    ensures WordsOf(s, words) <==> words == Tokens(s)
  {
    TokensSplit(s);
    if WordsOf(s, words) {
      var before, gaps :| Apart(before, words, gaps) && s == Spaced(before, words, gaps);
      SpacedTokens(before, words, gaps);
    }
  }

  function Text(parts: seq<string>): string {
    if parts == [] then "" else parts[0] + Text(parts[1..])
  }

  /** mix_desc_segments: the segments after the first, each on a line behind the margin */
  function Continuation(margin: nat, segments: seq<seq<string>>): string {
    if segments == [] then "" else "\n" + Blanks(margin) + Text(segments[0]) + Continuation(margin, segments[1..])
  }

  lemma {:induction false} JoinNotEmpty(max: int, words: seq<string>)
    ensures Join(max, words) != []
  {
    JoinIsLines(max, words);
    LinesKeepWords(max, words, 0, []);
  }

  /** prepare_description */
  function Description(init: nat, maxC: int, desc: string): string {
    var segments := Join(maxC - init, Tokens(desc));
    JoinNotEmpty(maxC - init, Tokens(desc));
    Text(segments[0]) + Continuation(init, segments[1..])
  }

  // ----- commands -----

  datatype Command = Command(name: string, args: seq<string>, desc: string)

  function ArgsLength(args: seq<string>): nat {
    if args == [] then 0 else 1 + |args[0]| + ArgsLength(args[1..])
  }

  function CommandLength(c: Command): nat {
    |c.name| + ArgsLength(c.args)
  }

  /** The length of the longest command; 80 when there is none. */
  function MaxLength(cs: seq<Command>): nat {
    if cs == [] then 80 else if |cs| == 1 then CommandLength(cs[0])
    else if CommandLength(cs[0]) >= MaxLength(cs[1..]) then CommandLength(cs[0]) else MaxLength(cs[1..])
  }

  lemma {:induction false} MaxLengthBounds(cs: seq<Command>, i: nat)
    requires i < |cs|
    ensures CommandLength(cs[i]) <= MaxLength(cs)
    ensures exists j | 0 <= j < |cs| :: CommandLength(cs[j]) == MaxLength(cs)
  {
    if |cs| > 1 {
      MaxLengthBounds(cs[1..], if i > 0 then i - 1 else 0);
      var j :| 0 <= j < |cs[1..]| && CommandLength(cs[1..][j]) == MaxLength(cs[1..]);
      if CommandLength(cs[0]) >= MaxLength(cs[1..]) {
        assert CommandLength(cs[0]) == MaxLength(cs);
      } else {
        assert CommandLength(cs[j + 1]) == MaxLength(cs);
      }
    } else {
      assert CommandLength(cs[0]) == MaxLength(cs);
    }
  }

  function ArgsText(args: seq<string>): (s: string)
    ensures |s| == ArgsLength(args)
  {
    if args == [] then "" else args[0] + " " + ArgsText(args[1..])
  }

  /** Each argument is followed by a space, the last one too. */
  lemma {:induction false} ArgsTextSnoc(args: seq<string>, arg: string)
    ensures ArgsText([]) == "" && ArgsText(args + [arg]) == ArgsText(args) + arg + " "
  {
    if args == [] {
      assert args + [arg] == [arg] && [arg][1..] == [];
      assert arg + " " + "" == "" + arg + " ";
    } else {
      ArgsTextSnoc(args[1..], arg);
      assert (args + [arg])[1..] == args[1..] + [arg];
      assert args[0] + " " + (ArgsText(args[1..]) + arg + " ") == args[0] + " " + ArgsText(args[1..]) + arg + " ";
    }
  }

  predicate LongMode(maxLen: nat, maxC: int) {
    maxC - maxLen < 40
  }

  /** format_command_lines, for one command */
  function Format(c: Command, maxLen: nat, maxC: int): string
    requires CommandLength(c) <= maxLen
  {
    if LongMode(maxLen, maxC) then
      "\n  " + c.name + " " + ArgsText(c.args) + "\n" + "        " + Description(8, maxC, c.desc) + "\n"
    else
      "  " + c.name + " " + ArgsText(c.args) + Blanks(maxLen - CommandLength(c) + 1)
      + Description(maxLen + 4, maxC, c.desc) + "\n"
  }

  // ----- the printed lines -----

  /** What stands before the first line of the description. */
  function Lead(c: Command, maxLen: nat, maxC: int): string
    requires CommandLength(c) <= maxLen
  {
    if LongMode(maxLen, maxC) then "        "
    else "  " + c.name + " " + ArgsText(c.args) + Blanks(maxLen - CommandLength(c) + 1)
  }

  function Column(maxLen: nat, maxC: int): nat {
    if LongMode(maxLen, maxC) then 8 else maxLen + 4
  }

  /** The lines of the description: the first behind the lead, the others behind blanks. */
  function Printed(lead: string, lines: seq<seq<string>>): string
    requires lines != []
  {
    lead + Text(Segment(lines[0])) + Margins(|lead|, lines[1..])
  }

  function Margins(margin: nat, lines: seq<seq<string>>): string {
    if lines == [] then "" else "\n" + (Blanks(margin) + Text(Segment(lines[0]))) + Margins(margin, lines[1..])
  }

  lemma {:induction false} TextWidth(line: seq<string>)
    ensures |Text(Segment(line))| == Width(line)
  {
    if line != [] {
      TextWidth(line[1..]);
      var word, more := line[0], Segment(line[1..]);
      var parts := [word, " "] + more;
      assert parts[1..] == [" "] + more && ([" "] + more)[1..] == more;
      assert Text(parts) == word + Text([" "] + more);
      assert Text([" "] + more) == " " + Text(more);
    }
  }

  lemma {:induction false} ContinuationIsMargins(margin: nat, lines: seq<seq<string>>)
    ensures Continuation(margin, Segments(lines)) == Margins(margin, lines)
  {
    if lines != [] {
      ContinuationIsMargins(margin, lines[1..]);
      assert Segments(lines)[1..] == Segments(lines[1..]);
      assert "\n" + Blanks(margin) + Text(Segment(lines[0])) == "\n" + (Blanks(margin) + Text(Segment(lines[0])));
    }
  }

  lemma {:induction false} SegmentsTail(lines: seq<seq<string>>)
    requires lines != []
    ensures Segments(lines)[0] == Segment(lines[0]) && Segments(lines)[1..] == Segments(lines[1..])
  {
  }

  lemma {:induction false} LeadColumn(c: Command, maxLen: nat, maxC: int)
    requires CommandLength(c) <= maxLen
    ensures |Lead(c, maxLen, maxC)| == Column(maxLen, maxC)
  {
  }

  /** The lines hold the words, stay within maxC columns unless they are one word, and break only when they must. */
  predicate WellLaid(column: nat, maxC: int, words: seq<string>, lines: seq<seq<string>>) {
    && lines != [] && Concat(lines) == words
    && Greedy(maxC - column, true, lines)
    && forall i | 0 <= i < |lines| :: Within(column, maxC, lines[i])
  }

  /** The space after the last word does not count. */
  predicate Within(column: nat, maxC: int, line: seq<string>) {
    || line == []
    || column + |Text(Segment(line))| - 1 <= maxC
    || (|line| == 1 && column + |line[0]| > maxC)
  }

  lemma {:induction false} DescriptionLines(column: nat, maxC: int, desc: string)
    ensures var lines := Lines(maxC - column, Tokens(desc), 0, []);
            && WellLaid(column, maxC, Tokens(desc), lines)
            && Description(column, maxC, desc) == Text(Segment(lines[0])) + Margins(column, lines[1..])
  {
    var lines := Lines(maxC - column, Tokens(desc), 0, []);
    TokensNoNewlines(desc);
    WrapIsGreedy(maxC - column, Tokens(desc));
    SegmentsTail(lines);
    ContinuationIsMargins(column, lines[1..]);
    forall i | 0 <= i < |lines|
      ensures Within(column, maxC, lines[i])
    {
      TextWidth(lines[i]);
      assert Narrow(maxC - column, lines[i]);
    }
  }

  /** The command on a line of its own, in long mode. */
  function Heading(c: Command, maxLen: nat, maxC: int): string {
    if LongMode(maxLen, maxC) then "\n  " + c.name + " " + ArgsText(c.args) + "\n" else ""
  }

  lemma {:induction false} FormatParts(c: Command, maxLen: nat, maxC: int, description: string)
    requires CommandLength(c) <= maxLen && description == Description(Column(maxLen, maxC), maxC, c.desc)
    ensures Format(c, maxLen, maxC) == Heading(c, maxLen, maxC) + (Lead(c, maxLen, maxC) + description) + "\n"
  {
    var lead := Lead(c, maxLen, maxC);
    if LongMode(maxLen, maxC) {
      var heading := Heading(c, maxLen, maxC);
      assert heading + lead + description + "\n" == heading + (lead + description) + "\n";
    } else {
      assert "" + (lead + description) == lead + description;
    }
  }

  lemma {:induction false} PrintedParts(lead: string, first: string, more: string)
    ensures lead + (first + more) == lead + first + more
  {
  }

  /**
   Descriptions stand beside the commands, four columns behind the longest, exactly
   when this leaves them 36 columns; else each is below its command, behind 8 columns.
   */
  lemma {:induction false} ModeLeavesRoom(c: Command, maxLen: nat, maxC: int)
    requires CommandLength(c) <= maxLen
    ensures if maxC - (maxLen + 4) >= 36 then Heading(c, maxLen, maxC) == "" && |Lead(c, maxLen, maxC)| == maxLen + 4
            else Heading(c, maxLen, maxC) == "\n  " + c.name + " " + ArgsText(c.args) + "\n"
                 && Lead(c, maxLen, maxC) == Blanks(8)
  {
  }

  /** All lines of a command's description start at one column and are well laid out. */
  predicate LaidOut(c: Command, maxLen: nat, maxC: int)
    requires CommandLength(c) <= maxLen
  {
    var lead, column := Lead(c, maxLen, maxC), Column(maxLen, maxC);
    var lines := Lines(maxC - column, Tokens(c.desc), 0, []);
    && |lead| == column
    && WellLaid(column, maxC, Tokens(c.desc), lines)
    && Format(c, maxLen, maxC) == Heading(c, maxLen, maxC) + Printed(lead, lines) + "\n"
  }

  lemma {:induction false} CommandLaidOut(c: Command, maxLen: nat, maxC: int)
    requires CommandLength(c) <= maxLen
    ensures LaidOut(c, maxLen, maxC)
  {
    var lead, column := Lead(c, maxLen, maxC), Column(maxLen, maxC);
    var lines := Lines(maxC - column, Tokens(c.desc), 0, []);
    LeadColumn(c, maxLen, maxC);
    DescriptionLines(column, maxC, c.desc);
    var first, more := Text(Segment(lines[0])), Margins(column, lines[1..]);
    FormatParts(c, maxLen, maxC, first + more);
    PrintedParts(lead, first, more);
  }

  /** So are those of every command in a list, behind the longest command of the list. */
  lemma {:induction false} UsageLayout(cs: seq<Command>, k: nat, maxC: int)
    requires k < |cs|
    ensures CommandLength(cs[k]) <= MaxLength(cs) && LaidOut(cs[k], MaxLength(cs), maxC)
  {
    MaxLengthBounds(cs, k);
    CommandLaidOut(cs[k], MaxLength(cs), maxC);
  }
}
