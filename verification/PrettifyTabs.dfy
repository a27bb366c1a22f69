/**
 The tab expander of doc/open-extensions/prettify.js: a closure that keeps the
 current column between the pieces of text it is given.
 */
module PrettifyTabs {
  import opened Sequences
  import opened Decimal

  /** The column after a character. */
  function Advance(width: nat, column: nat, c: char): (r: nat)
    requires width > 0
    ensures c == '\t' ==> r % width == 0 && column < r <= column + width
  {
    if c == '\t' then
      NextMultiple(width, column);
      column + (width - column % width)
    else if c == '\n' then 0
    else column + 1
  }

  lemma {:induction false} NextMultiple(width: nat, column: nat)
    requires width > 0
    ensures (column + (width - column % width)) % width == 0
  {
    var q := column / width;
    assert column == q * width + column % width;
    assert column + (width - column % width) == (q + 1) * width;
    QuotientUnique((q + 1) * width, width, q + 1, 0);
  }

  function ColumnAfter(width: nat, column: nat, text: string): nat
    requires width > 0
    decreases text
  {
    if text == "" then column else ColumnAfter(width, Advance(width, column, text[0]), text[1..])
  }

  /** A character, or the spaces up to the next tab stop. */
  function Cell(width: nat, column: nat, c: char): string
    requires width > 0
  {
    if c == '\t' then Blanks(Advance(width, column, c) - column) else [c]
  }

  function Expanded(width: nat, column: nat, text: string): string
    requires width > 0
    decreases text
  {
    if text == "" then ""
    else Cell(width, column, text[0]) + Expanded(width, Advance(width, column, text[0]), text[1..])
  }

  // ----- the closure -----

  class TabExpander {
    const width: nat
    var column: nat

    constructor (width: nat)
      ensures this.width == width && column == 0
    {
      this.width, column := width, 0;
    }

    /** One call: the text is returned as it is when it has no tab. */
    method Expand(c: string) returns (s: string)
      requires width > 0
      modifies this
      ensures s == Expanded(width, old(column), c)
      ensures column == ColumnAfter(width, old(column), c)
    {
      var tabs, out, g: nat, i: nat := false, "", 0, 0;
      ghost var start := column;
      assert c[0..] == c;
      while i < |c|
        invariant Halfway(width, start, c, out, g, i, column)
        invariant !tabs ==> g == 0 && out == ""
      {
        if c[i] == '\t' {
          tabs := true;
        }
        out, g := Consume(c, out, g, i, start);
        i := i + 1;
      }
      Finish(width, start, c, out, g, column);
      s := if tabs then out + c[g..] else c;
    }

    /** One character: text before a tab is written, other text is kept for later. */
    method Consume(c: string, out: string, g: nat, i: nat, ghost start: nat) returns (out': string, g': nat)
      requires Halfway(width, start, c, out, g, i, column) && i < |c|
      modifies this
      ensures Halfway(width, start, c, out', g', i + 1, column)
      ensures c[i] != '\t' ==> out' == out && g' == g
    {
      Step(width, start, c, out, g, i, column);
      out', g' := out, g;
      if c[i] == '\t' {
        var spaces := Tab();
        out', g' := out + c[g..i] + spaces, i + 1;
      } else {
        column := if c[i] == '\n' then 0 else column + 1;
      }
    }

    /** The case of a tab. */
    method Tab() returns (spaces: string)
      requires width > 0
      modifies this
      ensures column == Advance(width, old(column), '\t') && spaces == Blanks(column - old(column))
    {
      var n := width - column % width;
      spaces := PushSpaces(n);
      column := column + n;
    }

    /** The loop that pushes spaces sixteen at a time. */
    method PushSpaces(k: nat) returns (s: string)
      ensures s == Blanks(k)
    {
      s := "";
      var sixteen := "                ";
      var n: int := k;
      while n >= 0
        invariant n >= -16 && s == Blanks(if n >= 0 then k - n else k) && n <= k
        decreases n + 16
      {
        s := s + sixteen[..if n < 16 then n else 16];
        n := n - 16;
      }
    }
  }

  /** What is written, what is kept for later and what is still to be expanded make the whole. */
  predicate Halfway(width: nat, start: nat, c: string, out: string, g: nat, i: nat, column: nat) {
    && width > 0 && g <= i <= |c|
    && Expanded(width, start, c) == out + c[g..i] + Expanded(width, column, c[i..])
    && ColumnAfter(width, start, c) == ColumnAfter(width, column, c[i..])
  }

  lemma {:induction false} Step(width: nat, start: nat, c: string, out: string, g: nat, i: nat, column: nat)
    requires Halfway(width, start, c, out, g, i, column) && i < |c|
    ensures var next := Advance(width, column, c[i]);
            if c[i] == '\t' then Halfway(width, start, c, out + c[g..i] + Blanks(next - column), i + 1, i + 1, next)
            else Halfway(width, start, c, out, g, i + 1, next)
  {
    var next := Advance(width, column, c[i]);
    var rest := Expanded(width, next, c[i + 1..]);
    assert c[i..][1..] == c[i + 1..];
    if c[i] == '\t' {
      assert c[i + 1..i + 1] == "";
      Regroup(out + c[g..i], Blanks(next - column), rest);
    } else {
      assert c[g..i + 1] == c[g..i] + [c[i]];
      assert out + c[g..i] + ([c[i]] + rest) == out + (c[g..i] + [c[i]]) + rest;
    }
  }

  lemma {:induction false} Regroup(before: string, blanks: string, rest: string)
    ensures before + (blanks + rest) == before + blanks + "" + rest
  {
  }

  lemma {:induction false} Finish(width: nat, start: nat, c: string, out: string, g: nat, column: nat)
    requires Halfway(width, start, c, out, g, |c|, column)
    ensures Expanded(width, start, c) == out + c[g..] && ColumnAfter(width, start, c) == column
    ensures g == 0 && out == "" ==> out + c[g..] == c
  {
    assert c[|c|..] == "" && c[g..|c|] == c[g..];
    assert out + c[g..] + "" == out + c[g..];
  }

  // ----- what the expansion is -----

  lemma {:induction false} ExpandedConcat(width: nat, column: nat, a: string, b: string)
    requires width > 0
    ensures Expanded(width, column, a + b) == Expanded(width, column, a)
            + Expanded(width, ColumnAfter(width, column, a), b)
    ensures ColumnAfter(width, column, a + b) == ColumnAfter(width, ColumnAfter(width, column, a), b)
    decreases a
  {
    if a == "" {
      assert a + b == b;
    } else {
      var next := Advance(width, column, a[0]);
      ExpandedConcat(width, next, a[1..], b);
      assert (a + b)[1..] == a[1..] + b;
      Associate(Cell(width, column, a[0]), Expanded(width, next, a[1..]),
                Expanded(width, ColumnAfter(width, column, a), b));
    }
  }

  function Whole(chunks: seq<string>): string {
    if chunks == [] then "" else chunks[0] + Whole(chunks[1..])
  }

  /** The outputs of successive calls, one after the other. */
  function Outputs(width: nat, column: nat, chunks: seq<string>): string
    requires width > 0
    decreases chunks
  {
    if chunks == [] then ""
    else Expanded(width, column, chunks[0]) + Outputs(width, ColumnAfter(width, column, chunks[0]), chunks[1..])
  }

  /** However a text is cut into calls, the outputs together are those of one call. */
  lemma {:induction false} ChunkingIrrelevant(width: nat, column: nat, chunks: seq<string>)
    requires width > 0
    ensures Outputs(width, column, chunks) == Expanded(width, column, Whole(chunks))
    decreases chunks
  {
    if chunks != [] {
      ChunkingIrrelevant(width, ColumnAfter(width, column, chunks[0]), chunks[1..]);
      ExpandedConcat(width, column, chunks[0], Whole(chunks[1..]));
    }
  }

  /** The column as a reader of tab-free text counts it. */
  function PlainColumn(column: nat, text: string): nat
    decreases text
  {
    if text == "" then column else PlainColumn(if text[0] == '\n' then 0 else column + 1, text[1..])
  }

  lemma {:induction false} PlainConcat(column: nat, a: string, b: string)
    ensures PlainColumn(column, a + b) == PlainColumn(PlainColumn(column, a), b)
    decreases a
  {
    if a == "" {
      assert a + b == b;
    } else {
      PlainConcat(if a[0] == '\n' then 0 else column + 1, a[1..], b);
      assert (a + b)[1..] == a[1..] + b;
    }
  }

  lemma {:induction false} PlainBlanks(column: nat, n: nat)
    ensures PlainColumn(column, Blanks(n)) == column + n
    decreases n
  {
    if n > 0 {
      assert Blanks(n)[1..] == Blanks(n - 1);
      PlainBlanks(column + 1, n - 1);
    }
  }

  /**
   The output has no tab, and a reader who counts its columns plainly is, after
   any prefix of the text, at the column that tab stops put that prefix's end.
   */
  lemma {:induction false} ExpandedColumns(width: nat, column: nat, text: string)
    requires width > 0
    ensures '\t' !in Expanded(width, column, text)
    ensures PlainColumn(column, Expanded(width, column, text)) == ColumnAfter(width, column, text)
    decreases text
  {
    if text != "" {
      var next, cell := Advance(width, column, text[0]), Cell(width, column, text[0]);
      ExpandedColumns(width, next, text[1..]);
      PlainConcat(column, cell, Expanded(width, next, text[1..]));
      if text[0] == '\t' {
        PlainBlanks(column, next - column);
      } else {
        assert cell[1..] == "";
      }
    }
  }
}
