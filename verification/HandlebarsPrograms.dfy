/**
 The nested programs of a template: compileChildren of
 doc/swagger/lib/handlebars-2.0.0.js compiles each into a table that the whole
 template shares, and reuses an entry for every later program that is equal to
 it.  Two programs count as equal when their opcodes and, recursively, their
 children are; whether they consist of a single statement is not compared.
 */
module HandlebarsPrograms {
  import opened Wrappers
  import opened HandlebarsSyntax
  import opened HandlebarsCompiler
  import opened HandlebarsGenerator
  import opened HandlebarsSemantics
  import opened HandlebarsMerge

  // ----- equal programs -----

  /** equals */
  predicate Same(a: Environment, b: Environment)
    decreases a
  {
    a.opcodes == b.opcodes && |a.children| == |b.children| && SameAll(a.children, b.children)
  }

  predicate SameAll(a: seq<Environment>, b: seq<Environment>)
    requires |a| == |b|
    decreases a
  {
    a == [] || (Same(a[0], b[0]) && SameAll(a[1..], b[1..]))
  }

  lemma {:induction false} SameAt(a: seq<Environment>, b: seq<Environment>, i: nat)
    requires |a| == |b| && SameAll(a, b) && i < |a|
    ensures Same(a[i], b[i])
    decreases i
  {
    if i > 0 {
      SameAt(a[1..], b[1..], i - 1);
    }
  }

  lemma {:induction false} SameItself(a: Environment)
    ensures Same(a, a)
    decreases a
  {
    SameAllItself(a.children);
  }

  lemma {:induction false} SameAllItself(a: seq<Environment>)
    ensures SameAll(a, a)
    decreases a
  {
    if a != [] {
      SameItself(a[0]);
      SameAllItself(a[1..]);
    }
  }

  lemma {:induction false} SameSymmetric(a: Environment, b: Environment)
    requires Same(a, b)
    ensures Same(b, a)
    decreases a
  {
    SameAllSymmetric(a.children, b.children);
  }

  lemma {:induction false} SameAllSymmetric(a: seq<Environment>, b: seq<Environment>)
    requires |a| == |b| && SameAll(a, b)
    ensures SameAll(b, a)
    decreases a
  {
    if a != [] {
      SameSymmetric(a[0], b[0]);
      SameAllSymmetric(a[1..], b[1..]);
    }
  }

  lemma {:induction false} SameTransitive(a: Environment, b: Environment, c: Environment)
    requires Same(a, b) && Same(b, c)
    ensures Same(a, c)
    decreases a
  {
    SameAllTransitive(a.children, b.children, c.children);
  }

  lemma {:induction false} SameAllTransitive(a: seq<Environment>, b: seq<Environment>, c: seq<Environment>)
    requires |a| == |b| == |c| && SameAll(a, b) && SameAll(b, c)
    ensures SameAll(a, c)
    decreases a
  {
    if a != [] {
      SameTransitive(a[0], b[0], c[0]);
      SameAllTransitive(a[1..], b[1..], c[1..]);
    }
  }

  /** Equal programs are those with the same key. */
  lemma {:induction false} SameKey(a: Environment, b: Environment)
    ensures Same(a, b) <==> KeyOf(a) == KeyOf(b)
    decreases a
  {
    if |a.children| == |b.children| {
      SameKeys(a.children, b.children);
    }
  }

  lemma {:induction false} SameKeys(a: seq<Environment>, b: seq<Environment>)
    requires |a| == |b|
    ensures SameAll(a, b) <==> KeysOf(a) == KeysOf(b)
    decreases a
  {
    if a != [] {
      SameKey(a[0], b[0]);
      SameKeys(a[1..], b[1..]);
      assert KeysOf(a)[1..] == KeysOf(a[1..]) && KeysOf(b)[1..] == KeysOf(b[1..]);
    }
  }

  /** A program and all nested in it. */
  function Size(e: Environment): nat
    decreases e
  {
    1 + Sizes(e.children)
  }

  function Sizes(es: seq<Environment>): nat
    decreases es
  {
    if es == [] then 0 else Size(es[0]) + Sizes(es[1..])
  }

  lemma {:induction false} SameSize(a: Environment, b: Environment)
    requires Same(a, b)
    ensures Size(a) == Size(b)
    decreases a
  {
    SameSizes(a.children, b.children);
  }

  lemma {:induction false} SameSizes(a: seq<Environment>, b: seq<Environment>)
    requires |a| == |b| && SameAll(a, b)
    ensures Sizes(a) == Sizes(b)
    decreases a
  {
    if a != [] {
      SameSize(a[0], b[0]);
      SameSizes(a[1..], b[1..]);
    }
  }

  // ----- depths -----

  function OwnDepths(ops: seq<Opcode>): set<nat> {
    set op | op in ops && op.GetContext? && op.depth > 0 :: op.depth
  }

  /** The depths that Compiler collects: those of nested programs count from one level further in. */
  function Depths(e: Environment): set<nat>
    decreases e
  {
    OwnDepths(e.opcodes) + NestedDepths(e.children)
  }

  function NestedDepths(es: seq<Environment>): set<nat>
    decreases es
  {
    if es == [] then {} else (set d | d in Depths(es[0]) && d >= 2 :: d - 1) + NestedDepths(es[1..])
  }

  /** The program, or one nested in it, refers to an enclosing context. */
  predicate UsesDepths(e: Environment)
    decreases e
  {
    OwnDepths(e.opcodes) != {} || AnyUsesDepths(e.children)
  }

  predicate AnyUsesDepths(es: seq<Environment>)
    decreases es
  {
    es != [] && (UsesDepths(es[0]) || AnyUsesDepths(es[1..]))
  }

  // ----- the shared table -----

  /** A compiled function: its body, whether it passes depths on, and the index of each of its programs. */
  datatype Compiled = Compiled(body: seq<Stmt>, useDepths: bool, refs: seq<nat>)

  /** context.programs, whose length is kept, and context.environments */
  datatype Context = Context(length: nat, code: map<nat, Compiled>, environments: map<nat, Environment>)

  const NO_PROGRAMS: Context := Context(0, map[], map[])

  /** What compiling some children gives: their indices, and whether one that was new uses depths. */
  datatype Kids = Kids(refs: seq<nat>, useDepths: bool, context: Context)

  /** matchExistingProgram */
  function Existing(environments: map<nat, Environment>, e: Environment, from: nat, to: nat): Option<nat>
    decreases to - from
  {
    if from >= to then None
    else if from in environments && Same(environments[from], e) then Some(from)
    else Existing(environments, e, from + 1, to)
  }

  function CompileProgram(e: Environment, ctx: Context): Outcome<(Compiled, Context)>
    decreases e, 0
  {
    var kids :- CompileChildren(e.children, ctx);
    var items :- Generate(e);
    Ok((Compiled(Merged(e.isSimple, items), kids.useDepths || Depths(e) != {}, kids.refs), kids.context))
  }

  /** compileChildren */
  function CompileChildren(es: seq<Environment>, ctx: Context): Outcome<Kids>
    decreases es
  {
    if es == [] then Ok(Kids([], false, ctx))
    else
      var first :- CompileChild(es[0], ctx);
      var rest :- CompileChildren(es[1..], first.context);
      Ok(Kids(first.refs + rest.refs, first.useDepths || rest.useDepths, rest.context))
  }

  function CompileChild(e: Environment, ctx: Context): Outcome<Kids>
    decreases e, 1
  {
    match Existing(ctx.environments, e, 0, ctx.length)
    case Some(h) => Ok(Kids([h], false, ctx))
    case None =>
      var index := ctx.length + 1;
      var r :- CompileProgram(e, ctx.(length := index));
      Ok(Kids([index], r.0.useDepths, Added(r.1, index, e, r.0)))
  }

  function Added(ctx: Context, index: nat, e: Environment, code: Compiled): Context {
    Context(if ctx.length > index then ctx.length else index + 1,
            ctx.code[index := code], ctx.environments[index := e])
  }

  // ----- what the table keeps -----

  /** The program is represented in the table, by an entry equal to it. */
  predicate Refers(ctx: Context, h: nat, e: Environment) {
    h in ctx.environments && Same(ctx.environments[h], e)
  }

  predicate RefersAll(ctx: Context, refs: seq<nat>, es: seq<Environment>) {
    |refs| == |es| && forall i | 0 <= i < |es| :: Refers(ctx, refs[i], es[i])
  }

  /** The code is that of the program, and its programs are represented. */
  predicate EntryFor(ctx: Context, e: Environment, code: Compiled) {
    && Generate(e).Ok? && code.body == Merged(e.isSimple, Generate(e).value)
    && RefersAll(ctx, code.refs, e.children)
  }

  predicate Distinct(ctx: Context) {
    forall h, k | h in ctx.environments && k in ctx.environments :: Same(ctx.environments[h], ctx.environments[k])
      ==> h == k
  }

  predicate Table(ctx: Context) {
    && ctx.code.Keys == ctx.environments.Keys
    && (forall h <- ctx.environments :: h < ctx.length)
    && Distinct(ctx)
    && forall h <- ctx.environments :: EntryFor(ctx, ctx.environments[h], ctx.code[h])
  }

  /** Entries stay. */
  predicate Keeps(a: Context, b: Context) {
    && a.code.Keys <= b.code.Keys && a.environments.Keys <= b.environments.Keys
    && (forall h <- a.environments :: b.environments[h] == a.environments[h])
    && (forall h <- a.code :: b.code[h] == a.code[h])
  }

  /** Entries stay; new ones are behind the old ones and no larger than a bound. */
  predicate Extends(a: Context, b: Context, bound: nat) {
    && Keeps(a, b) && a.length <= b.length
    && forall h <- b.environments :: h in a.environments || (a.length < h && Size(b.environments[h]) <= bound)
  }

  predicate NoneSame(environments: map<nat, Environment>, e: Environment, from: nat, to: nat) {
    forall h | h in environments && from <= h < to :: !Same(environments[h], e)
  }

  lemma {:induction false} ExistingIs(environments: map<nat, Environment>, e: Environment, from: nat, to: nat)
    ensures var x := Existing(environments, e, from, to);
            if x.Some? then x.value in environments && Same(environments[x.value], e)
            else NoneSame(environments, e, from, to)
    decreases if from < to then to - from else 0
  {
    if from < to {
      ExistingIs(environments, e, from + 1, to);
    }
  }

  lemma {:induction false} ExtendsTwice(a: Context, b: Context, c: Context, m: nat, n: nat, bound: nat)
    requires Extends(a, b, m) && Extends(b, c, n) && m <= bound && n <= bound
    ensures Extends(a, c, bound)
  {
  }

  lemma {:induction false} RefersKept(a: Context, b: Context, refs: seq<nat>, es: seq<Environment>)
    requires Keeps(a, b) && RefersAll(a, refs, es)
    ensures RefersAll(b, refs, es)
  {
    forall i | 0 <= i < |es|
      ensures Refers(b, refs[i], es[i])
    {
      assert Refers(a, refs[i], es[i]);
    }
  }

  lemma {:induction false} RefersMore(ctx: Context, h: nat, refs: seq<nat>, es: seq<Environment>)
    requires es != [] && Refers(ctx, h, es[0]) && RefersAll(ctx, refs, es[1..])
    ensures RefersAll(ctx, [h] + refs, es)
  {
    forall i | 0 <= i < |es|
      ensures Refers(ctx, ([h] + refs)[i], es[i])
    {
      if i > 0 {
        assert Refers(ctx, refs[i - 1], es[1..][i - 1]);
      }
    }
  }

  lemma {:induction false} CompileProgramTable(e: Environment, ctx: Context)
    requires Table(ctx) && CompileProgram(e, ctx).Ok?
    ensures var r := CompileProgram(e, ctx).value;
            Table(r.1) && Extends(ctx, r.1, Size(e) - 1) && EntryFor(r.1, e, r.0)
    decreases e, 0, 0
  {
    CompileChildrenTable(e.children, ctx);
  }

  lemma {:induction false} CompileChildrenTable(es: seq<Environment>, ctx: Context)
    requires Table(ctx) && CompileChildren(es, ctx).Ok?
    ensures var kids := CompileChildren(es, ctx).value;
            Table(kids.context) && Extends(ctx, kids.context, Sizes(es)) && RefersAll(kids.context, kids.refs, es)
    decreases es
  {
    if es != [] {
      CompileChildTable(es[0], ctx);
      var first := CompileChild(es[0], ctx).value;
      CompileChildrenTable(es[1..], first.context);
      var rest := CompileChildren(es[1..], first.context).value;
      ExtendsTwice(ctx, first.context, rest.context, Size(es[0]), Sizes(es[1..]), Sizes(es));
      assert Refers(rest.context, first.refs[0], es[0]) by {
        assert Refers(first.context, first.refs[0], es[0]);
      }
      RefersMore(rest.context, first.refs[0], rest.refs, es);
      assert first.refs == [first.refs[0]];
    }
  }

  /** After a child was compiled or found, it is represented. */
  predicate ChildCompiled(ctx: Context, kids: Kids, e: Environment) {
    && Table(kids.context) && Extends(ctx, kids.context, Size(e))
    && |kids.refs| == 1 && Refers(kids.context, kids.refs[0], e)
  }

  lemma {:induction false} CompileChildTable(e: Environment, ctx: Context)
    requires Table(ctx) && CompileChild(e, ctx).Ok?
    ensures ChildCompiled(ctx, CompileChild(e, ctx).value, e)
    decreases e, 1
  {
    ExistingIs(ctx.environments, e, 0, ctx.length);
    if Existing(ctx.environments, e, 0, ctx.length).None? {
      NewChildTable(e, ctx);
    }
  }

  lemma {:induction false} NewChildTable(e: Environment, ctx: Context)
    requires Table(ctx) && CompileChild(e, ctx).Ok? && NoneSame(ctx.environments, e, 0, ctx.length)
    requires Existing(ctx.environments, e, 0, ctx.length).None?
    ensures ChildCompiled(ctx, CompileChild(e, ctx).value, e)
    decreases e, 0, 1
  {
    var index := ctx.length + 1;
    var longer := ctx.(length := index);
    assert CompileProgram(e, longer).Ok?;
    LongerTable(ctx, index);
    CompileProgramTable(e, longer);
    var r := CompileProgram(e, longer).value;
    AddedTable(ctx, r.1, index, e, r.0);
    assert CompileChild(e, ctx).value == Kids([index], r.0.useDepths, Added(r.1, index, e, r.0));
  }

  lemma {:induction false} LongerTable(ctx: Context, index: nat)
    requires Table(ctx) && ctx.length <= index
    ensures Table(ctx.(length := index))
  {
    var c := ctx.(length := index);
    forall h <- c.environments
      ensures EntryFor(c, c.environments[h], c.code[h])
    {
      assert Keeps(ctx, c) && EntryFor(ctx, ctx.environments[h], ctx.code[h]);
      RefersKept(ctx, c, ctx.code[h].refs, ctx.environments[h].children);
    }
  }

  /** The entry of a program that has no equal in the table, once the programs nested in it have theirs. */
  lemma {:induction false} AddedTable(ctx: Context, c: Context, index: nat, e: Environment, code: Compiled)
    requires Table(ctx) && index == ctx.length + 1 && NoneSame(ctx.environments, e, 0, ctx.length)
    requires Table(c) && Extends(ctx.(length := index), c, Size(e) - 1) && EntryFor(c, e, code)
    ensures var b := Added(c, index, e, code);
            Table(b) && Extends(ctx, b, Size(e)) && Refers(b, index, e)
  {
    SameItself(e);
    forall h <- c.environments
      ensures h != index && !Same(c.environments[h], e)
    {
      if Same(c.environments[h], e) {
        SameSize(c.environments[h], e);
      }
    }
    AddedDistinct(c, index, e, code);
    AddedEntries(c, index, e, code);
    AddedKeys(c, index, e, code);
    AddedExtends(ctx, c, index, e, code);
  }

  lemma {:induction false} AddedKeys(c: Context, index: nat, e: Environment, code: Compiled)
    requires c.code.Keys == c.environments.Keys && forall h <- c.environments :: h < c.length
    ensures var b := Added(c, index, e, code);
            b.code.Keys == b.environments.Keys && forall h <- b.environments :: h < b.length
  {
  }

  lemma {:induction false} AddedExtends(ctx: Context, c: Context, index: nat, e: Environment, code: Compiled)
    requires index == ctx.length + 1 && index !in c.environments && index !in c.code
    requires Extends(ctx.(length := index), c, Size(e) - 1)
    ensures Extends(ctx, Added(c, index, e, code), Size(e))
  {
  }

  lemma {:induction false} AddedDistinct(c: Context, index: nat, e: Environment, code: Compiled)
    requires Distinct(c) && forall h <- c.environments :: !Same(c.environments[h], e)
    ensures Distinct(Added(c, index, e, code))
  {
    var b := Added(c, index, e, code);
    forall h, k | h in b.environments && k in b.environments && Same(b.environments[h], b.environments[k])
      ensures h == k
    {
      SameSymmetric(b.environments[h], b.environments[k]);
    }
  }

  lemma {:induction false} AddedEntries(c: Context, index: nat, e: Environment, code: Compiled)
    requires index !in c.environments && EntryFor(c, e, code) && c.code.Keys == c.environments.Keys
    requires forall h <- c.environments :: EntryFor(c, c.environments[h], c.code[h])
    ensures var b := Added(c, index, e, code);
            forall h <- b.environments :: EntryFor(b, b.environments[h], b.code[h])
  {
    var b := Added(c, index, e, code);
    assert Keeps(c, b);
    RefersKept(c, b, code.refs, e.children);
    forall h <- c.environments
      ensures EntryFor(b, c.environments[h], c.code[h])
    {
      assert EntryFor(c, c.environments[h], c.code[h]);
      RefersKept(c, b, c.code[h].refs, c.environments[h].children);
    }
  }

  lemma {:induction false} NothingYet()
    ensures Table(NO_PROGRAMS)
  {
  }

  // ----- nested programs -----

  /** The program x is nested in e, at any depth. */
  predicate Nested(x: Environment, e: Environment)
    decreases e
  {
    exists i | 0 <= i < |e.children| :: x == e.children[i] || Nested(x, e.children[i])
  }

  lemma {:induction false} NestedDeeper(x: Environment, y: Environment, e: Environment)
    requires Nested(y, e) && (x in y.children || Nested(x, y))
    ensures Nested(x, e)
    decreases e
  {
    var i :| 0 <= i < |e.children| && (y == e.children[i] || Nested(y, e.children[i]));
    if y == e.children[i] {
      if x in y.children {
        NestedChild(x, y);
      }
    } else {
      NestedDeeper(x, y, e.children[i]);
    }
  }

  lemma {:induction false} NestedChild(x: Environment, e: Environment)
    requires x in e.children
    ensures Nested(x, e)
  {
    var i :| 0 <= i < |e.children| && x == e.children[i];
  }

  /** Some entry represents the program. */
  predicate Represented(ctx: Context, e: Environment) {
    exists h <- ctx.environments :: Refers(ctx, h, e)
  }

  predicate AllRepresented(ctx: Context, es: seq<Environment>) {
    forall e <- es :: Represented(ctx, e)
  }

  lemma {:induction false} EntryRepresents(ctx: Context, e: Environment, code: Compiled)
    requires EntryFor(ctx, e, code)
    ensures AllRepresented(ctx, e.children)
  {
    forall x <- e.children
      ensures Represented(ctx, x)
    {
      var i :| 0 <= i < |e.children| && x == e.children[i];
      assert Refers(ctx, code.refs[i], x);
    }
  }

  /** What is nested in a represented program is represented, though it may never have been compiled itself. */
  lemma {:induction false} ChildrenRepresented(ctx: Context, h: nat, e: Environment)
    requires Table(ctx) && Refers(ctx, h, e)
    ensures AllRepresented(ctx, e.children)
  {
    var d := ctx.environments[h];
    assert EntryFor(ctx, d, ctx.code[h]);
    forall x <- e.children
      ensures Represented(ctx, x)
    {
      var i :| 0 <= i < |e.children| && x == e.children[i];
      SameAt(d.children, e.children, i);
      var k := ctx.code[h].refs[i];
      assert Refers(ctx, k, d.children[i]);
      SameTransitive(ctx.environments[k], d.children[i], x);
      assert Refers(ctx, k, x);
    }
  }

  lemma {:induction false} NestedRepresented(ctx: Context, e: Environment, x: Environment)
    requires Table(ctx) && AllRepresented(ctx, e.children) && Nested(x, e)
    ensures Represented(ctx, x)
    decreases e
  {
    var i :| 0 <= i < |e.children| && (x == e.children[i] || Nested(x, e.children[i]));
    var c := e.children[i];
    assert c in e.children;
    var h :| h in ctx.environments && Refers(ctx, h, c);
    if x != c {
      ChildrenRepresented(ctx, h, c);
      NestedRepresented(ctx, c, x);
    }
  }

  /** Every entry is a program of the template. */
  predicate AllNested(ctx: Context, root: Environment) {
    forall h <- ctx.environments :: Nested(ctx.environments[h], root)
  }

  lemma {:induction false} CompileProgramNested(e: Environment, ctx: Context, root: Environment)
    requires AllNested(ctx, root) && CompileProgram(e, ctx).Ok? && (e == root || Nested(e, root))
    ensures AllNested(CompileProgram(e, ctx).value.1, root)
    decreases e, 0
  {
    forall x <- e.children
      ensures Nested(x, root)
    {
      if e == root {
        NestedChild(x, e);
      } else {
        NestedDeeper(x, e, root);
      }
    }
    CompileChildrenNested(e.children, ctx, root);
  }

  lemma {:induction false} CompileChildrenNested(es: seq<Environment>, ctx: Context, root: Environment)
    requires AllNested(ctx, root) && CompileChildren(es, ctx).Ok? && forall x <- es :: Nested(x, root)
    ensures AllNested(CompileChildren(es, ctx).value.context, root)
    decreases es
  {
    if es != [] {
      CompileChildNested(es[0], ctx, root);
      CompileChildrenNested(es[1..], CompileChild(es[0], ctx).value.context, root);
    }
  }

  lemma {:induction false} CompileChildNested(e: Environment, ctx: Context, root: Environment)
    requires AllNested(ctx, root) && CompileChild(e, ctx).Ok? && Nested(e, root)
    ensures AllNested(CompileChild(e, ctx).value.context, root)
    decreases e, 1
  {
    if Existing(ctx.environments, e, 0, ctx.length).None? {
      CompileProgramNested(e, ctx.(length := ctx.length + 1), root);
    }
  }

  // ----- when sharing is harmless -----

  /** No two programs of the template are equal of which one is a single statement and the other is not. */
  ghost predicate Unmixed(root: Environment) {
    forall x, y | Nested(x, root) && Nested(y, root) && Same(x, y) :: x.isSimple == y.isSimple
  }

  lemma {:induction false} UnmixedEqual(root: Environment, a: Environment, b: Environment)
    requires Unmixed(root) && Nested(a, root) && Nested(b, root) && Same(a, b)
    ensures a == b
    decreases a
  {
    forall i | 0 <= i < |a.children|
      ensures a.children[i] == b.children[i]
    {
      SameAt(a.children, b.children, i);
      NestedDeeper(a.children[i], a, root);
      NestedDeeper(b.children[i], b, root);
      UnmixedEqual(root, a.children[i], b.children[i]);
    }
    assert a.children == b.children;
  }

  /** All programs of the template are in the table themselves. */
  ghost predicate AllExact(ctx: Context, root: Environment) {
    forall x | Nested(x, root) :: exists h <- ctx.environments :: ctx.environments[h] == x
  }

  ghost predicate CoversNested(ctx: Context, root: Environment) {
    forall x | Nested(x, root) :: Represented(ctx, x)
  }

  /** What compiling a template ends with. */
  predicate CompiledTo(root: Environment, code: Compiled, ctx: Context) {
    CompileProgram(root, NO_PROGRAMS) == Ok((code, ctx))
  }

  lemma {:induction false} CompiledTable(root: Environment, code: Compiled, ctx: Context)
    requires CompiledTo(root, code, ctx)
    ensures Table(ctx) && EntryFor(ctx, root, code) && AllNested(ctx, root)
    ensures CoversNested(ctx, root)
  {
    NothingYet();
    CompileProgramTable(root, NO_PROGRAMS);
    CompileProgramNested(root, NO_PROGRAMS, root);
    EntryRepresents(ctx, root, code);
    forall x | Nested(x, root)
      ensures Represented(ctx, x)
    {
      NestedRepresented(ctx, root, x);
    }
  }

  lemma {:induction false} NestedEntry(root: Environment, code: Compiled, ctx: Context, x: Environment)
    returns (h: nat)
    requires CompiledTo(root, code, ctx) && Nested(x, root)
    ensures Table(ctx) && Refers(ctx, h, x) && Nested(ctx.environments[h], root)
  {
    CompiledTable(root, code, ctx);
    h := CoveredEntry(ctx, root, x);
  }

  lemma {:induction false} CoveredEntry(ctx: Context, root: Environment, x: Environment) returns (h: nat)
    requires AllNested(ctx, root) && CoversNested(ctx, root) && Nested(x, root)
    ensures Refers(ctx, h, x) && Nested(ctx.environments[h], root)
  {
    h :| h in ctx.environments && Refers(ctx, h, x);
  }

  lemma {:induction false} UnmixedIsExact(ctx: Context, root: Environment, x: Environment)
    requires AllNested(ctx, root) && Unmixed(root) && Nested(x, root) && Represented(ctx, x)
    ensures exists h <- ctx.environments :: ctx.environments[h] == x
  {
    var h :| h in ctx.environments && Refers(ctx, h, x);
    UnmixedEqual(root, ctx.environments[h], x);
  }

  lemma {:induction false} ExactIsUnmixed(ctx: Context, root: Environment, x: Environment, y: Environment)
    requires Distinct(ctx) && AllExact(ctx, root) && Nested(x, root) && Nested(y, root) && Same(x, y)
    ensures x.isSimple == y.isSimple
  {
    var h :| h in ctx.environments && ctx.environments[h] == x;
    var k :| k in ctx.environments && ctx.environments[k] == y;
    assert h == k;
  }

  lemma {:induction false} UnmixedAllExact(ctx: Context, root: Environment)
    requires AllNested(ctx, root) && Unmixed(root) && CoversNested(ctx, root)
    ensures AllExact(ctx, root)
  {
    forall x | Nested(x, root)
      ensures exists h <- ctx.environments :: ctx.environments[h] == x
    {
      UnmixedIsExact(ctx, root, x);
    }
  }

  lemma {:induction false} AllExactUnmixed(ctx: Context, root: Environment)
    requires Distinct(ctx) && AllExact(ctx, root)
    ensures Unmixed(root)
  {
    forall x, y | Nested(x, root) && Nested(y, root) && Same(x, y)
      ensures x.isSimple == y.isSimple
    {
      ExactIsUnmixed(ctx, root, x, y);
    }
  }

  /**
   Programs are shared without any being replaced by a different one exactly
   when no two equal programs differ in being a single statement.
   */
  lemma {:induction false} SharingExactIff(root: Environment, code: Compiled, ctx: Context)
    requires CompiledTo(root, code, ctx)
    ensures AllExact(ctx, root) <==> Unmixed(root)
  {
    CompiledTable(root, code, ctx);
    if AllExact(ctx, root) {
      AllExactUnmixed(ctx, root);
    }
    if Unmixed(root) {
      UnmixedAllExact(ctx, root);
    }
  }

  // ----- two programs that are equal -----

  lemma {:induction false} FirstChild(a: Environment, length: nat)
    requires a.children == [] && Generate(a).Ok?
    ensures var code := Compiled(Merged(a.isSimple, Generate(a).value), Depths(a) != {}, []);
            CompileChild(a, Context(length, map[], map[]))
            == Ok(Kids([length + 1], code.useDepths,
                       Context(length + 2, map[length + 1 := code], map[length + 1 := a])))
  {
    ExistingIs(map[], a, 0, length);
    var ctx := Context(length + 1, map[], map[]);
    assert CompileChildren(a.children, ctx) == Ok(Kids([], false, ctx));
  }

  /** The second of two equal programs is not compiled. */
  lemma {:induction false} SecondShared(a: Environment, b: Environment)
    requires a.children == [] && Same(a, b) && CompileChildren([a, b], NO_PROGRAMS).Ok?
    ensures var kids := CompileChildren([a, b], NO_PROGRAMS).value;
            kids.refs == [1, 1] && kids.context.environments == map[1 := a]
  {
    assert [a, b][1..] == [b] && [b][1..] == [];
    assert CompileChild(a, NO_PROGRAMS).Ok?;
    FirstChild(a, 0);
    var ctx := CompileChild(a, NO_PROGRAMS).value.context;
    ExistingIs(ctx.environments, b, 0, ctx.length);
    assert Existing(ctx.environments, b, 0, ctx.length) == Some(1);
    assert CompileChild(b, ctx) == Ok(Kids([1], false, ctx));
    assert CompileChildren([b], ctx) == Ok(Kids([1] + [], false, ctx));
  }
}
