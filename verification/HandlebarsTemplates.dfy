/**
 Whole templates: every program nested in a template, called through the table
 of compiled programs, computes what it denotes.
 */
module HandlebarsTemplates {
  import opened Wrappers
  import opened HandlebarsSyntax
  import opened HandlebarsCompiler
  import opened HandlebarsGenerator
  import opened HandlebarsTranslation
  import opened HandlebarsSemantics
  import opened HandlebarsMerge
  import opened HandlebarsJavaScriptCompiler
  import opened HandlebarsPrograms
  import opened HandlebarsDepths
  import opened HandlebarsCorrectness

  // ----- the programs nested in a template -----

  predicate NestedProgram(q: Program, p: Program)
    decreases p, 1
  {
    exists i | 0 <= i < |p.statements| :: InStatement(q, p.statements[i])
  }

  predicate InStatement(q: Program, s: Statement)
    decreases s
  {
    s.Block? && InBodies(q, s.bodies)
  }

  predicate InBodies(q: Program, b: Bodies)
    decreases b
  {
    || (!b.OnlyInverse? && (q == b.program || NestedProgram(q, b.program)))
    || (!b.OnlyProgram? && (q == b.inverse || NestedProgram(q, b.inverse)))
  }

  lemma {:induction false} CompilableAt(ss: seq<Statement>, i: nat)
    requires CompilableStatements(ss) && i < |ss|
    ensures CompilableStatement(ss[i])
  {
    if i > 0 {
      CompilableAt(ss[1..], i - 1);
    }
  }

  lemma {:induction false} ChildOfStatement(known: KnownHelpers, ss: seq<Statement>, i: nat, e: Environment)
    requires CompilableStatements(ss) && i < |ss| && CompilableStatement(ss[i]) && e in Children(known, ss[i])
    ensures e in ChildrenOf(known, ss)
  {
    if i > 0 {
      ChildOfStatement(known, ss[1..], i - 1, e);
    }
  }

  /** Programs nested in a template are compiled to programs nested in what it is compiled to. */
  lemma {:induction false} NestedEnvironment(known: KnownHelpers, q: Program, p: Program)
    requires CompilableStatements(p.statements) && NestedProgram(q, p)
    ensures CompilableStatements(q.statements) && Nested(EnvironmentOf(known, q), EnvironmentOf(known, p))
    decreases p
  {
    var i :| 0 <= i < |p.statements| && InStatement(q, p.statements[i]);
    var s := p.statements[i];
    CompilableAt(p.statements, i);
    assert InBodies(q, s.bodies);
    if !s.bodies.OnlyInverse? && (q == s.bodies.program || NestedProgram(q, s.bodies.program)) {
      NestedInBody(known, q, s.bodies.program, p, i);
    } else {
      NestedInBody(known, q, s.bodies.inverse, p, i);
    }
  }

  lemma {:induction false} NestedInBody(known: KnownHelpers, q: Program, body: Program, p: Program, i: nat)
    requires CompilableStatements(p.statements) && i < |p.statements| && CompilableStatement(p.statements[i])
    requires p.statements[i].Block? && body < p.statements[i]
    requires CompilableStatements(body.statements) && EnvironmentOf(known, body) in Children(known, p.statements[i])
    requires q == body || NestedProgram(q, body)
    ensures CompilableStatements(q.statements) && Nested(EnvironmentOf(known, q), EnvironmentOf(known, p))
    decreases p, 0
  {
    var b, e := EnvironmentOf(known, body), EnvironmentOf(known, p);
    ChildOfStatement(known, p.statements, i, b);
    NestedChild(b, e);
    if q != body {
      NestedEnvironment(known, q, body);
      NestedDeeper(EnvironmentOf(known, q), b, e);
    }
  }

  // ----- when all of a template compiles -----

  /** No block of the template, nested ones included, is over a data reference. */
  ghost predicate AllNamed(p: Program) {
    NamedBlocks(p.statements) && forall q | NestedProgram(q, p) :: NamedBlocks(q.statements)
  }

  predicate Generates(e: Environment)
    decreases e
  {
    Generate(e).Ok? && AllGenerate(e.children)
  }

  predicate AllGenerate(es: seq<Environment>)
    decreases es
  {
    es != [] ==> Generates(es[0]) && AllGenerate(es[1..])
  }

  lemma {:induction false} AllGenerateConcat(a: seq<Environment>, b: seq<Environment>)
    requires AllGenerate(a) && AllGenerate(b)
    ensures AllGenerate(a + b)
    decreases a
  {
    if a == [] {
      assert a + b == b;
    } else {
      assert (a + b)[1..] == a[1..] + b;
      AllGenerateConcat(a[1..], b);
    }
  }

  lemma {:induction false} NamedGenerates(known: KnownHelpers, p: Program)
    requires CompilableStatements(p.statements) && AllNamed(p)
    ensures Generates(EnvironmentOf(known, p))
    decreases p, 1
  {
    GenerateSucceedsIff(known, p);
    assert p.statements[0..] == p.statements;
    NamedChildrenGenerate(known, p, 0);
  }

  lemma {:induction false} NamedChildrenGenerate(known: KnownHelpers, p: Program, i: nat)
    requires i <= |p.statements| && CompilableStatements(p.statements[i..]) && AllNamed(p)
    ensures AllGenerate(ChildrenOf(known, p.statements[i..]))
    decreases p, 0, |p.statements| - i + 1
  {
    var ss := p.statements[i..];
    if ss != [] {
      assert ss[1..] == p.statements[i + 1..] && ss[0] == p.statements[i];
      NamedChildrenGenerate(known, p, i + 1);
      if ss[0].Block? {
        BodiesGenerate(known, p, i);
      }
      AllGenerateConcat(Children(known, ss[0]), ChildrenOf(known, ss[1..]));
    }
  }

  lemma {:induction false} BodiesGenerate(known: KnownHelpers, p: Program, i: nat)
    requires i < |p.statements| && p.statements[i].Block? && AllNamed(p)
    requires CompilableBodies(p.statements[i].bodies)
    ensures AllGenerate(ChildrenOfBodies(known, p.statements[i].bodies))
    decreases p, 0, 0
  {
    var b := p.statements[i].bodies;
    if !b.OnlyInverse? {
      BodyNamed(b.program, p, i);
      NamedGenerates(known, b.program);
      var e := EnvironmentOf(known, b.program);
      assert AllGenerate([e][1..]);
      assert AllGenerate([e]);
    }
    if !b.OnlyProgram? {
      BodyNamed(b.inverse, p, i);
      NamedGenerates(known, b.inverse);
      var e := EnvironmentOf(known, b.inverse);
      assert AllGenerate([e][1..]);
      assert AllGenerate([e]);
    }
    if b.Both? {
      var x, y := EnvironmentOf(known, b.program), EnvironmentOf(known, b.inverse);
      AllGenerateConcat([x], [y]);
      assert [x] + [y] == [x, y];
    }
  }

  lemma {:induction false} BodyNamed(body: Program, p: Program, i: nat)
    requires i < |p.statements| && p.statements[i].Block? && AllNamed(p)
    requires var b := p.statements[i].bodies;
             (!b.OnlyInverse? && body == b.program) || (!b.OnlyProgram? && body == b.inverse)
    ensures AllNamed(body)
  {
    assert InBodies(body, p.statements[i].bodies) && InStatement(body, p.statements[i]);
    forall q | NestedProgram(q, body)
      ensures NestedProgram(q, p)
    {
      assert InBodies(q, p.statements[i].bodies) && InStatement(q, p.statements[i]);
    }
  }

  lemma {:induction false} GeneratesCompiles(e: Environment, ctx: Context)
    requires Generates(e)
    ensures CompileProgram(e, ctx).Ok?
    decreases e
  {
    AllGenerateCompile(e.children, ctx);
  }

  lemma {:induction false} AllGenerateCompile(es: seq<Environment>, ctx: Context)
    requires AllGenerate(es)
    ensures CompileChildren(es, ctx).Ok?
    decreases es
  {
    if es != [] {
      GeneratesCompiles(es[0], ctx.(length := ctx.length + 1));
      assert CompileChild(es[0], ctx).Ok?;
      AllGenerateCompile(es[1..], CompileChild(es[0], ctx).value.context);
    }
  }

  /** The opcode of a block without a name raises in every state. */
  lemma {:induction false} UnnamedOpcodeRaises(env: Environment, ops: seq<Opcode>, s: State)
    requires BlockValue(None) in ops
    ensures Run(env, ops, s).Throw?
    decreases ops
  {
    if ops[0] != BlockValue(None) && Step(env, ops[0], s).Ok? {
      UnnamedOpcodeRaises(env, ops[1..], Step(env, ops[0], s).value);
    }
  }

  lemma {:induction false} UnnamedOpcode(known: KnownHelpers, ss: seq<Statement>, guid: nat)
    requires CompilableStatements(ss) && !NamedBlocks(ss)
    ensures BlockValue(None) in OpsStatements(known, ss, guid)
    decreases ss
  {
    var first := OpsStatement(known, ss[0], guid);
    if IsDataBlock(ss[0]) {
      var p, i := ProgramIndex(ss[0].bodies, guid), InverseIndex(ss[0].bodies, guid);
      var block := OpsSimple(ss[0].sexpr) + (OpsBodies(p, i) + [BlockValue(None)]);
      assert first == block + [Append];
      assert block[|block| - 1] == BlockValue(None);
      assert BlockValue(None) in block;
    } else {
      UnnamedOpcode(known, ss[1..], guid + ChildCount(ss[0]));
    }
  }

  /** Equal programs raise alike, so a program that was not compiled for itself raises nothing either. */
  lemma {:induction false} CompiledIsNamed(known: KnownHelpers, q: Program, ctx: Context)
    requires CompilableStatements(q.statements) && Table(ctx)
    requires Represented(ctx, EnvironmentOf(known, q))
    ensures NamedBlocks(q.statements)
  {
    var e := EnvironmentOf(known, q);
    var h :| h in ctx.environments && Refers(ctx, h, e);
    var d := ctx.environments[h];
    assert EntryFor(ctx, d, ctx.code[h]);
    if !NamedBlocks(q.statements) {
      UnnamedOpcode(known, q.statements, 0);
      UnnamedOpcodeRaises(d, d.opcodes, INITIAL);
    }
  }

  /** A template compiles to a table of programs exactly when none of its blocks is over a data reference. */
  lemma {:induction false} CompileProgramSucceedsIff(known: KnownHelpers, p: Program)
    requires CompilableStatements(p.statements)
    ensures CompileProgram(EnvironmentOf(known, p), NO_PROGRAMS).Ok? <==> AllNamed(p)
  {
    var root := EnvironmentOf(known, p);
    if CompileProgram(root, NO_PROGRAMS).Ok? {
      var (code, ctx) := CompileProgram(root, NO_PROGRAMS).value;
      CompiledTable(root, code, ctx);
      GenerateSucceedsIff(known, p);
      forall q | NestedProgram(q, p)
        ensures NamedBlocks(q.statements)
      {
        NestedEnvironment(known, q, p);
        CompiledIsNamed(known, q, ctx);
      }
    }
    if AllNamed(p) {
      NamedGenerates(known, p);
      GeneratesCompiles(root, NO_PROGRAMS);
    }
  }

  /** Every program nested in what a template is compiled to is compiled from a program of the template. */
  lemma {:induction false} NestedIsCompiled(known: KnownHelpers, p: Program, x: Environment) returns (q: Program)
    requires CompilableStatements(p.statements) && Nested(x, EnvironmentOf(known, p))
    ensures NestedProgram(q, p) && CompilableStatements(q.statements) && EnvironmentOf(known, q) == x
    decreases p
  {
    var e := EnvironmentOf(known, p);
    var i :| 0 <= i < |e.children| && (x == e.children[i] || Nested(x, e.children[i]));
    var j, body := BodyOfChild(known, p, p.statements, 0, e.children[i]);
    if x == e.children[i] {
      q := body;
    } else {
      q := NestedIsCompiled(known, body, x);
    }
    assert InBodies(q, p.statements[j].bodies) && InStatement(q, p.statements[j]);
  }

  lemma {:induction false} BodyOfChild(known: KnownHelpers, p: Program, ss: seq<Statement>, n: nat, c: Environment)
    returns (j: nat, body: Program)
    requires n <= |p.statements| && ss == p.statements[n..] && CompilableStatements(ss) && c in ChildrenOf(known, ss)
    ensures j < |p.statements| && p.statements[j].Block? && CompilableStatements(body.statements)
    ensures var b := p.statements[j].bodies;
            (!b.OnlyInverse? && body == b.program) || (!b.OnlyProgram? && body == b.inverse)
    ensures EnvironmentOf(known, body) == c
    decreases ss
  {
    assert ss[0] == p.statements[n];
    if c in Children(known, ss[0]) {
      var b := ss[0].bodies;
      assert CompilableBodies(b) && Children(known, ss[0]) == ChildrenOfBodies(known, b);
      j := n;
      body := if !b.OnlyInverse? && c == EnvironmentOf(known, b.program) then b.program else b.inverse;
    } else {
      j, body := BodyOfChild(known, p, ss[1..], n + 1, c);
    }
  }

  // ----- calling nested programs -----

  /** The arguments of the function of a nested program, when fn or inverse is called. */
  function Inner<V, W>(rt: Runtime<V, W>, scope: Scope<V>, args: seq<V>, useDepths: bool): Frame<V> {
    var context := if |args| > 0 then args[0] else rt.undefinedValue;
    var data := if |args| > 1 && rt.truthy(args[1]) then rt.get(args[1], "data") else rt.undefinedValue;
    Entered(scope, context, if rt.truthy(data) then data else scope.data, rt.undefinedValue, useDepths)
  }

  /** A context around a program that was passed no depths is missing, for which undefined stands. */
  function Entered<V>(scope: Scope<V>, context: V, data: V, missing: V, useDepths: bool): Frame<V> {
    Frame(depth => if depth == 0 then context else if scope.outer.Some? then scope.outer.value(depth - 1) else missing,
          data, scope.helpers, scope.partials, useDepths && scope.outer.Some?)
  }

  /**
   In one call of a function that this.program made, the runtime runs the code of
   the entry.  That the call ends is part of this: one that does not has no value.
   */
  ghost predicate RunsCode<V, W>(rt: Runtime<V, W>, key: Key, code: Compiled, scope: Scope<V>, self: V, args: seq<V>,
                                      w: W) {
    rt.call(rt.program(key, scope), self, args, w)
    == CallBody(rt, Inner(rt, scope, args, code.useDepths), code.body, w)
  }

  /** A call of a nested program gives what a program denotes that passes depths on, or not. */
  ghost predicate CallGives<V, W>(rt: Runtime<V, W>, known: KnownHelpers, key: Key, d: Program, useDepths: bool,
                                  scope: Scope<V>, self: V, args: seq<V>, w: W)
    requires GenerableAll(d.statements)
  {
    rt.call(rt.program(key, scope), self, args, w)
    == DenProgram(rt, Inner(rt, scope, args, useDepths), known, d, w)
  }

  /** The code is the merged body of the program. */
  predicate BodyOf(code: Compiled, known: KnownHelpers, d: Program) {
    && GenerableAll(d.statements) && Generate(EnvironmentOf(known, d)).Ok?
    && code.body == Merged(EnvironmentOf(known, d).isSimple, Generate(EnvironmentOf(known, d)).value)
  }

  /** A program runs as the one that its entry was made from. */
  lemma {:induction false} RepresentativeRuns<V, W>(rt: Runtime<V, W>, known: KnownHelpers, code: Compiled,
                                                    key: Key, d: Program,
                                                    scope: Scope<V>, self: V, args: seq<V>, w: W)
    requires BodyOf(code, known, d) && RunsCode(rt, key, code, scope, self, args, w)
    ensures CallGives(rt, known, key, d, code.useDepths, scope, self, args, w)
  {
    CompiledTemplateIsCorrect(rt, Inner(rt, scope, args, code.useDepths), known, d, w);
  }

  // ----- programs that share an entry -----

  /** The last opcode of a program that ends with an unescaped value, a block or a partial. */
  predicate EndsInAppend(e: Environment) {
    e.opcodes != [] && e.opcodes[|e.opcodes| - 1] == Append
  }

  /** Of programs that share an entry and end in a value, all or none consist of that value alone. */
  ghost predicate Harmless(root: Environment) {
    forall x, y | Nested(x, root) && Nested(y, root) && Same(x, y) && EndsInAppend(x) :: x.isSimple == y.isSimple
  }

  predicate IsValue(s: Statement) {
    (s.Mustache? && !s.escaped) || s.Block? || s.Partial?
  }

  lemma {:induction false} SingleEndsInAppend(known: KnownHelpers, s: Statement)
    requires CompilableStatements([s])
    ensures EndsInAppend(EnvironmentOf(known, Program([s]))) <==> IsValue(s)
  {
    var ops := OpsStatement(known, s, 0);
    assert [s][1..] == [];
    assert OpsStatements(known, [s], 0) == ops + [];
    assert ops + [] == ops;
    match s
    case Mustache(e, escaped) => assert ops[|ops| - 1] == if escaped then AppendEscaped else Append;
    case Block(_, _) => assert ops[|ops| - 1] == Append;
    case Partial(_, _, _, _) => assert ops[|ops| - 1] == Append;
    case _ =>
  }

  /** A program that is not a single value denotes its text. */
  lemma {:induction false} DenotesText<V, W>(rt: Runtime<V, W>, fr: Frame<V>, known: KnownHelpers, p: Program, w: W)
    requires GenerableAll(p.statements)
    requires var e := EnvironmentOf(known, p); !(e.isSimple && EndsInAppend(e))
    ensures var t := DenTexts(rt, fr, known, p.statements, w); DenProgram(rt, fr, known, p, w) == (rt.text(t.0), t.1)
  {
    if |p.statements| == 1 {
      assert p.statements == [p.statements[0]] && p == Program([p.statements[0]]);
      SingleEndsInAppend(known, p.statements[0]);
    }
  }

  /** Equal programs have the same text. */
  lemma {:induction false} SameTexts<V, W>(rt: Runtime<V, W>, fr: Frame<V>, known: KnownHelpers, q: Program, d: Program,
                                           w: W)
    requires GenerableAll(q.statements) && GenerableAll(d.statements)
    requires Same(EnvironmentOf(known, q), EnvironmentOf(known, d))
    ensures var t, u := DenTexts(rt, fr, known, q.statements, w), DenTexts(rt, fr, known, d.statements, w);
            (rt.text(t.0), t.1) == (rt.text(u.0), u.1)
  {
    SameKey(EnvironmentOf(known, q), EnvironmentOf(known, d));
    SameGenerate(EnvironmentAs(known, q, false), EnvironmentAs(known, d, false));
    SourceGeneratedAs(known, q, false);
    SourceGeneratedAs(known, d, false);
    TextsAreCorrect(rt, fr, known, q.statements, w);
    TextsAreCorrect(rt, fr, known, d.statements, w);
  }

  /** Equal programs denote the same, unless one is a single value and the other is more. */
  lemma {:induction false} SameDenotation<V, W>(rt: Runtime<V, W>, fr: Frame<V>, known: KnownHelpers, q: Program,
                                                d: Program, w: W)
    requires GenerableAll(q.statements) && GenerableAll(d.statements)
    requires var a, b := EnvironmentOf(known, q), EnvironmentOf(known, d);
             Same(a, b) && (EndsInAppend(a) ==> a.isSimple == b.isSimple)
    ensures DenProgram(rt, fr, known, q, w) == DenProgram(rt, fr, known, d, w)
  {
    var a, b := EnvironmentOf(known, q), EnvironmentOf(known, d);
    if a.isSimple == b.isSimple {
      SameKey(a, b);
      SameGenerate(a, b);
      CompiledTemplateIsCorrect(rt, fr, known, q, w);
      CompiledTemplateIsCorrect(rt, fr, known, d, w);
    } else {
      DenotesText(rt, fr, known, q, w);
      DenotesText(rt, fr, known, d, w);
      SameTexts(rt, fr, known, q, d, w);
    }
  }

  // ----- the whole template -----

  /** The program that the entry of a nested program was made from. */
  lemma {:induction false} Representative(known: KnownHelpers, p: Program, code: Compiled, ctx: Context, q: Program,
                                          h: nat) returns (d: Program)
    requires CompilableStatements(p.statements) && CompilableStatements(q.statements)
    requires CompiledTo(EnvironmentOf(known, p), code, ctx) && Refers(ctx, h, EnvironmentOf(known, q))
    ensures NestedProgram(d, p) && GenerableAll(d.statements) && GenerableAll(q.statements)
    ensures h in ctx.code && ctx.environments[h] == EnvironmentOf(known, d) && BodyOf(ctx.code[h], known, d)
    ensures Same(EnvironmentOf(known, d), EnvironmentOf(known, q))
  {
    CompiledTable(EnvironmentOf(known, p), code, ctx);
    d := NestedIsCompiled(known, p, ctx.environments[h]);
    RepresentsItself(known, ctx, d, h);
    CompiledIsNamed(known, q, ctx);
  }

  lemma {:induction false} RepresentsItself(known: KnownHelpers, ctx: Context, d: Program, h: nat)
    requires CompilableStatements(d.statements) && Table(ctx)
    requires h in ctx.environments && ctx.environments[h] == EnvironmentOf(known, d)
    ensures GenerableAll(d.statements) && h in ctx.code && BodyOf(ctx.code[h], known, d)
  {
    SameItself(ctx.environments[h]);
    assert Refers(ctx, h, EnvironmentOf(known, d));
    CompiledIsNamed(known, d, ctx);
    assert EntryFor(ctx, ctx.environments[h], ctx.code[h]);
  }

  /** Depths were passed to the program if it uses them. */
  predicate Provided<V>(scope: Scope<V>, e: Environment) {
    UsesDepths(e) ==> scope.outer.Some?
  }

  /**
   The whole template is correct: when no program shares its entry harmfully and
   every function passes the depths that are used, each call of a program nested
   in it, at any depth, gives the value and the world that the program denotes,
   as long as depths were passed to it; and then it passes them to its own.
   */
  lemma {:induction false} NestedProgramsAreCorrect<V, W>(
      rt: Runtime<V, W>, known: KnownHelpers, p: Program, code: Compiled, ctx: Context, q: Program, h: nat,
      scope: Scope<V>, self: V, args: seq<V>, w: W)
    requires CompilableStatements(p.statements) && CompiledTo(EnvironmentOf(known, p), code, ctx)
    requires Harmless(EnvironmentOf(known, p)) && AllKeepDepths(EnvironmentOf(known, p).children, [])
    requires NestedProgram(q, p) && CompilableStatements(q.statements) && Refers(ctx, h, EnvironmentOf(known, q))
    requires h in ctx.code
    requires RunsCode(rt, KeyOf(EnvironmentOf(known, q)), ctx.code[h], scope, self, args, w)
    ensures var e := EnvironmentOf(known, q);
            && GenerableAll(q.statements)
            && CallGives(rt, known, KeyOf(e), q, UsesDepths(e), scope, self, args, w)
            && (Provided(scope, e) ==> forall c <- e.children ::
                  Provided(ScopeOf(Inner(rt, scope, args, UsesDepths(e))), c))
  {
    var e := EnvironmentOf(known, q);
    var d := Representative(known, p, code, ctx, q, h);
    RepresentativeRuns(rt, known, ctx.code[h], KeyOf(e), d, scope, self, args, w);
    SharedDenotation(rt, Inner(rt, scope, args, ctx.code[h].useDepths), known, p, q, d, w);
    EntryPasses(EnvironmentOf(known, p), code, ctx, h, e);
    if Provided(scope, e) {
      ChildrenProvided(scope, e);
    }
  }

  lemma {:induction false} EntryPasses(root: Environment, code: Compiled, ctx: Context, h: nat, e: Environment)
    requires CompiledTo(root, code, ctx) && AllKeepDepths(root.children, [])
    requires Refers(ctx, h, e) && h in ctx.code
    ensures ctx.code[h].useDepths == UsesDepths(e)
  {
    AllPassIff(root, code, ctx);
    assert PassesAt(ctx, h);
    SameDepths(ctx.environments[h], e);
  }

  lemma {:induction false} SharedDenotation<V, W>(rt: Runtime<V, W>, fr: Frame<V>, known: KnownHelpers, p: Program,
                                                  q: Program, d: Program, w: W)
    requires CompilableStatements(p.statements) && Harmless(EnvironmentOf(known, p))
    requires NestedProgram(q, p) && NestedProgram(d, p)
    requires GenerableAll(q.statements) && GenerableAll(d.statements)
    requires Same(EnvironmentOf(known, d), EnvironmentOf(known, q))
    ensures DenProgram(rt, fr, known, d, w) == DenProgram(rt, fr, known, q, w)
  {
    NestedEnvironment(known, q, p);
    NestedEnvironment(known, d, p);
    SameDenotation(rt, fr, known, d, q, w);
  }

  lemma {:induction false} ChildrenProvided<V>(scope: Scope<V>, e: Environment)
    requires Provided(scope, e)
    ensures forall c <- e.children :: UsesDepths(c) ==> UsesDepths(e) && scope.outer.Some?
  {
    forall c <- e.children | UsesDepths(c)
      ensures UsesDepths(e)
    {
      var i :| 0 <= i < |e.children| && c == e.children[i];
      ChildUses(e.children, i);
    }
  }

  /** ... and so does the template itself, whose function is not shared. */
  lemma {:induction false} MainIsCorrect<V, W>(rt: Runtime<V, W>, fr: Frame<V>, known: KnownHelpers, p: Program,
                                               code: Compiled, ctx: Context, w: W)
    requires CompilableStatements(p.statements) && CompiledTo(EnvironmentOf(known, p), code, ctx)
    ensures GenerableAll(p.statements) && CallBody(rt, fr, code.body, w) == DenProgram(rt, fr, known, p, w)
  {
    CompiledTable(EnvironmentOf(known, p), code, ctx);
    GenerateSucceedsIff(known, p);
    CompiledTemplateIsCorrect(rt, fr, known, p, w);
  }

  // ----- when sharing does harm -----

  function Unescaped(e: Sexpr): Statement {
    Mustache(e, false)
  }

  /** A comment makes no opcodes, so a program with one beside a value equals the value alone. */
  lemma {:induction false} CommentIsShared(known: KnownHelpers, e: Sexpr)
    requires CompilableSexpr(e)
    ensures var q, d := Program([Comment, Unescaped(e)]), Program([Unescaped(e)]);
            && GenerableAll(q.statements) && GenerableAll(d.statements)
            && Same(EnvironmentOf(known, d), EnvironmentOf(known, q))
            && EnvironmentOf(known, d).isSimple && !EnvironmentOf(known, q).isSimple
  {
    var q, d := Program([Comment, Unescaped(e)]), Program([Unescaped(e)]);
    assert q.statements[1..] == d.statements && d.statements[1..] == [];
    var ops := OpsStatement(known, Unescaped(e), 0);
    assert OpsStatements(known, d.statements, 0) == ops + [];
    assert OpsStatements(known, q.statements, 0) == [] + OpsStatements(known, d.statements, 0);
    assert ChildrenOf(known, d.statements) == [];
    assert ChildrenOf(known, q.statements) == [] + ChildrenOf(known, d.statements);
  }

  /** Two blocks, with and without a comment in the body. */
  function CommentTemplate(f: Sexpr, e: Sexpr): Program {
    Program([Block(f, OnlyProgram(Program([Unescaped(e)]))), Block(f, OnlyProgram(Program([Comment, Unescaped(e)])))])
  }

  lemma {:induction false} CommentTemplateChildren(known: KnownHelpers, f: Sexpr, e: Sexpr)
    requires CompilableSexpr(e) && CompilableSexpr(f)
    ensures var p, q, d := CommentTemplate(f, e), Program([Comment, Unescaped(e)]), Program([Unescaped(e)]);
            && CompilableStatements(p.statements) && GenerableAll(q.statements) && GenerableAll(d.statements)
            && EnvironmentOf(known, p).children == [EnvironmentOf(known, d), EnvironmentOf(known, q)]
            && EnvironmentOf(known, d).children == []
  {
    var p, q, d := CommentTemplate(f, e), Program([Comment, Unescaped(e)]), Program([Unescaped(e)]);
    CommentIsShared(known, e);
    assert d.statements[1..] == [];
    assert ChildrenOf(known, d.statements) == [];
    var first, second := p.statements[0], p.statements[1];
    assert CompilableBodies(first.bodies) && CompilableBodies(second.bodies);
    assert p.statements[1..] == [second] && [second][1..] == [];
    assert ChildrenOfBodies(known, first.bodies) == [EnvironmentOf(known, d)];
    assert ChildrenOfBodies(known, second.bodies) == [EnvironmentOf(known, q)];
    assert Children(known, first) == [EnvironmentOf(known, d)] && Children(known, second) == [EnvironmentOf(known, q)];
    assert ChildrenOf(known, [second]) == [EnvironmentOf(known, q)] + [];
    assert ChildrenOf(known, p.statements) == [EnvironmentOf(known, d)] + [EnvironmentOf(known, q)];
  }

  /** In this template a call of the second body runs the first. */
  lemma {:induction false} CommentChangesBody<V, W>(
      rt: Runtime<V, W>, known: KnownHelpers, f: Sexpr, e: Sexpr, code: Compiled, ctx: Context,
      scope: Scope<V>, self: V, args: seq<V>, w: W)
    requires CompilableSexpr(e) && CompilableSexpr(f)
    requires CompilableStatements(CommentTemplate(f, e).statements)
    requires CompiledTo(EnvironmentOf(known, CommentTemplate(f, e)), code, ctx)
    requires var q := Program([Comment, Unescaped(e)]);
             CompilableStatements(q.statements) && 1 in ctx.code
             && RunsCode(rt, KeyOf(EnvironmentOf(known, q)), ctx.code[1], scope, self, args, w)
    ensures var q, d := Program([Comment, Unescaped(e)]), Program([Unescaped(e)]);
            && GenerableAll(d.statements) && Refers(ctx, 1, EnvironmentOf(known, q))
            && CallGives(rt, known, KeyOf(EnvironmentOf(known, q)), d, ctx.code[1].useDepths, scope, self, args, w)
  {
    var q, d := Program([Comment, Unescaped(e)]), Program([Unescaped(e)]);
    CommentTable(known, f, e, code, ctx);
    RepresentsItself(known, ctx, d, 1);
    RepresentativeRuns(rt, known, ctx.code[1], KeyOf(EnvironmentOf(known, q)), d, scope, self, args, w);
  }

  lemma {:induction false} CommentTable(known: KnownHelpers, f: Sexpr, e: Sexpr, code: Compiled, ctx: Context)
    requires CompilableSexpr(e) && CompilableSexpr(f)
    requires CompilableStatements(CommentTemplate(f, e).statements)
    requires CompiledTo(EnvironmentOf(known, CommentTemplate(f, e)), code, ctx)
    ensures var q, d := Program([Comment, Unescaped(e)]), Program([Unescaped(e)]);
            && CompilableStatements(q.statements) && GenerableAll(d.statements) && Table(ctx)
            && Refers(ctx, 1, EnvironmentOf(known, q)) && ctx.environments[1] == EnvironmentOf(known, d)
  {
    var q, d := Program([Comment, Unescaped(e)]), Program([Unescaped(e)]);
    CommentTemplateChildren(known, f, e);
    CommentIsShared(known, e);
    var a, b, root := EnvironmentOf(known, d), EnvironmentOf(known, q), EnvironmentOf(known, CommentTemplate(f, e));
    SecondShared(a, b);
    CompiledTable(root, code, ctx);
    assert ctx == CompileChildren([a, b], NO_PROGRAMS).value.context;
  }

  /** The value itself instead of its text: the two differ for every value that is not a text. */
  lemma {:induction false} CommentMeaning<V, W>(rt: Runtime<V, W>, fr: Frame<V>, known: KnownHelpers, e: Sexpr, w: W)
    requires CompilableSexpr(e) && rt.notNull(DenSexpr(rt, fr, known, e, w).0)
    ensures var q, d := Program([Comment, Unescaped(e)]), Program([Unescaped(e)]);
            var v := DenSexpr(rt, fr, known, e, w);
            && GenerableAll(q.statements) && GenerableAll(d.statements)
            && DenProgram(rt, fr, known, d, w) == v
            && DenProgram(rt, fr, known, q, w) == (rt.text(rt.show(v.0)), v.1)
  {
    var q, d := Program([Comment, Unescaped(e)]), Program([Unescaped(e)]);
    var v := DenSexpr(rt, fr, known, e, w);
    CommentIsShared(known, e);
    assert q.statements[1..] == d.statements && d.statements[1..] == [];
    TextOfOne(rt, fr, known, Unescaped(e), w);
    assert DenTexts(rt, fr, known, d.statements, w) == (rt.show(v.0), v.1);
    assert "" + rt.show(v.0) == rt.show(v.0);
  }

  /** A runtime for which every text is true and everything else false. */
  const TEXTS: Runtime<bool, bool> :=
    Runtime(false, false, false, s => true, s => false, v => true, v => v, v => false,
            (v, name) => false, fields => false, (key, scope) => false, (v, n) => false,
            (f, self, args, w) => (false, w), (v, self, w) => (false, w),
            (f, indent, name, context, hash, w) => (false, w), v => "", v => "")

  const NOTHING: Frame<bool> := Frame(depth => false, false, false, false, false)

  lemma {:induction false} LookupIsFalse(lax: bool, parts: seq<string>)
    ensures DenLookup(TEXTS, false, lax, parts) == false
    decreases parts
  {
    if parts != [] {
      LookupIsFalse(lax, parts[1..]);
    }
  }

  lemma {:induction false} ValueIsFalse(known: KnownHelpers, s: Statement, w: bool)
    requires Generable(s) && (s.Mustache? || s.Block? || s.Partial?)
    ensures DenValue(TEXTS, NOTHING, known, s, w).0 == false
  {
    match s
    case Mustache(e, _) =>
      if e.Call? {
        LookupIsFalse(false, e.path.parts);
      }
    case Block(e, _) =>
      LookupIsFalse(false, e.path.parts);
    case Partial(_, _, _, _) =>
  }

  /** With that runtime a single value and anything else are told apart. */
  lemma {:induction false} ValueOrText(known: KnownHelpers, p: Program, w: bool)
    requires GenerableAll(p.statements)
    ensures var e := EnvironmentOf(known, p);
            DenProgram(TEXTS, NOTHING, known, p, w).0 == !(e.isSimple && EndsInAppend(e))
  {
    var e := EnvironmentOf(known, p);
    if e.isSimple && EndsInAppend(e) {
      var s := p.statements[0];
      assert p.statements == [s] && p == Program([s]);
      SingleEndsInAppend(known, s);
      ValueIsFalse(known, s, w);
    } else {
      DenotesText(TEXTS, NOTHING, known, p, w);
    }
  }

  /** For one runtime and frame: all nested programs denote what the programs of their entries denote. */
  ghost predicate OutputsKept<V(!new), W(!new)>(rt: Runtime<V, W>, fr: Frame<V>, known: KnownHelpers, p: Program,
                                                ctx: Context) {
    forall q, d, h, w | SharesEntry(known, p, ctx, q, d, h) ::
      DenProgram(rt, fr, known, q, w) == DenProgram(rt, fr, known, d, w)
  }

  predicate SharesEntry(known: KnownHelpers, p: Program, ctx: Context, q: Program, d: Program, h: nat) {
    && NestedProgram(q, p) && NestedProgram(d, p) && GenerableAll(q.statements) && GenerableAll(d.statements)
    && Refers(ctx, h, EnvironmentOf(known, q)) && ctx.environments[h] == EnvironmentOf(known, d)
  }

  /**
   Sharing changes what some program computes exactly when of two programs with
   an entry in common, which end in a value, one is that value alone and the
   other is not; and one runtime is enough to see it.
   */
  lemma {:induction false} OutputsKeptIff(known: KnownHelpers, p: Program, code: Compiled, ctx: Context)
    requires CompilableStatements(p.statements) && CompiledTo(EnvironmentOf(known, p), code, ctx)
    ensures OutputsKept(TEXTS, NOTHING, known, p, ctx) <==> Harmless(EnvironmentOf(known, p))
  {
    var root := EnvironmentOf(known, p);
    if Harmless(root) {
      HarmlessKeepsOutputs(TEXTS, NOTHING, known, p, code, ctx);
    } else {
      var x, y :| Nested(x, root) && Nested(y, root) && Same(x, y) && EndsInAppend(x) && x.isSimple != y.isSimple;
      HarmIsSeen(known, p, code, ctx, x, y);
    }
  }

  /** ... and harmless sharing keeps the outputs for every runtime and frame. */
  lemma {:induction false} HarmlessKeepsOutputs<V(!new), W(!new)>(
      rt: Runtime<V, W>, fr: Frame<V>, known: KnownHelpers, p: Program, code: Compiled, ctx: Context)
    requires CompilableStatements(p.statements) && CompiledTo(EnvironmentOf(known, p), code, ctx)
    requires Harmless(EnvironmentOf(known, p))
    ensures OutputsKept(rt, fr, known, p, ctx)
  {
    forall q, d, h, w | SharesEntry(known, p, ctx, q, d, h)
      ensures DenProgram(rt, fr, known, q, w) == DenProgram(rt, fr, known, d, w)
    {
      SharedDenotation(rt, fr, known, p, q, d, w);
    }
  }

  lemma {:induction false} HarmIsSeen(known: KnownHelpers, p: Program, code: Compiled, ctx: Context,
                                      x: Environment, y: Environment)
    requires CompilableStatements(p.statements) && CompiledTo(EnvironmentOf(known, p), code, ctx)
    requires Nested(x, EnvironmentOf(known, p)) && Nested(y, EnvironmentOf(known, p))
    requires Same(x, y) && EndsInAppend(x) && x.isSimple != y.isSimple
    ensures !OutputsKept(TEXTS, NOTHING, known, p, ctx)
  {
    var h := NestedEntry(EnvironmentOf(known, p), code, ctx, x);
    SameTransitive(ctx.environments[h], x, y);
    HarmAt(known, p, code, ctx, if ctx.environments[h].isSimple != x.isSimple then x else y, h);
  }

  lemma {:induction false} HarmAt(known: KnownHelpers, p: Program, code: Compiled, ctx: Context, u: Environment, h: nat)
    requires CompilableStatements(p.statements) && CompiledTo(EnvironmentOf(known, p), code, ctx)
    requires Nested(u, EnvironmentOf(known, p)) && Refers(ctx, h, u)
    requires EndsInAppend(u) && ctx.environments[h].isSimple != u.isSimple
    ensures !OutputsKept(TEXTS, NOTHING, known, p, ctx)
  {
    var q := NestedIsCompiled(known, p, u);
    var d := Representative(known, p, code, ctx, q, h);
    assert SharesEntry(known, p, ctx, q, d, h);
    ValueOrText(known, q, false);
    ValueOrText(known, d, false);
  }

  // ----- depths that are not passed on -----

  function Name(name: string, depth: nat): Sexpr {
    Call(Path(name, [name], depth, false), [], NoHash)
  }

  /** A name looked up in the context around the program. */
  function OuterProgram(): Program {
    Program([Unescaped(Name("x", 1))])
  }

  function AroundProgram(): Program {
    Program([Block(Name("a", 0), OnlyProgram(OuterProgram()))])
  }

  /** The outer program in a block of its own, and again inside a block inside a block. */
  function DepthTemplate(): Program {
    Program([Block(Name("a", 0), OnlyProgram(OuterProgram())), Block(Name("b", 0), OnlyProgram(AroundProgram()))])
  }

  lemma {:induction false} NoDepths(ops: seq<Opcode>)
    requires forall op <- ops :: op.GetContext? ==> op.depth == 0
    ensures OwnDepths(ops) == {}
  {
  }

  lemma {:induction false} OuterEnvironment(known: KnownHelpers)
    ensures CompilableStatements(OuterProgram().statements)
    ensures var q := EnvironmentOf(known, OuterProgram());
            q.children == [] && OwnDepths(q.opcodes) == {1}
  {
    var s, ss := Unescaped(Name("x", 1)), OuterProgram().statements;
    assert ss[1..] == [];
    assert Classify(known, s.sexpr) == SimpleKind;
    var ops := OpsStatements(known, ss, 0);
    assert ops == [GetContext(1)] + [LookupOnContext(["x"], false, false)] + [ResolvePossibleLambda] + [Append] + [];
    assert ops[0] == GetContext(1);
    assert ChildrenOf(known, ss) == [];
  }

  lemma {:induction false} AroundEnvironment(known: KnownHelpers)
    requires "a" !in known
    ensures CompilableStatements(OuterProgram().statements) && CompilableStatements(AroundProgram().statements)
    ensures var p := EnvironmentOf(known, AroundProgram());
            p.children == [EnvironmentOf(known, OuterProgram())] && OwnDepths(p.opcodes) == {}
  {
    OuterEnvironment(known);
    var ss := AroundProgram().statements;
    var s := ss[0];
    assert CompilableBodies(s.bodies) && ss[1..] == [];
    assert Children(known, s) == [EnvironmentOf(known, OuterProgram())];
    assert ChildrenOf(known, ss) == Children(known, s) + [];
    AroundOpcodes(known, s.sexpr, Some(0));
    var ops := OpsBlockCall(known, s.sexpr, Some(0), None) + [Append];
    assert OpsStatements(known, ss, 0) == ops + [];
    assert ops + [] == ops;
    NoDepths(ops);
  }

  /** A block over a plain name refers to no enclosing context. */
  lemma {:induction false} AroundOpcodes(known: KnownHelpers, e: Sexpr, p: Option<nat>)
    requires e.Call? && Classify(known, e) == AmbiguousKind
    ensures forall op <- OpsBlockCall(known, e, p, None) :: op.GetContext? ==> op.depth == 0
  {
  }

  /**
   In this template the function of the second block, which contains the outer
   program, does not pass the depths that the function of the latter reads.
   */
  lemma {:induction false} DepthsLost(known: KnownHelpers, code: Compiled, ctx: Context)
    requires "a" !in known && CompilableStatements(DepthTemplate().statements)
    requires CompiledTo(EnvironmentOf(known, DepthTemplate()), code, ctx)
    ensures CompilableStatements(OuterProgram().statements) && CompilableStatements(AroundProgram().statements)
    ensures && ctx.environments == map[1 := EnvironmentOf(known, OuterProgram()),
                                       3 := EnvironmentOf(known, AroundProgram())]
            && 1 in ctx.code && ctx.code[1].useDepths
            && 3 in ctx.code && ctx.code[3].refs == [1] && !ctx.code[3].useDepths
    ensures !AllKeepDepths(EnvironmentOf(known, DepthTemplate()).children, [])
  {
    DepthEnvironment(known);
    var q, p := EnvironmentOf(known, OuterProgram()), EnvironmentOf(known, AroundProgram());
    SharingLosesDepths(q, p);
    assert ctx == CompileChildren([q, p], NO_PROGRAMS).value.context;
    LostAt(EnvironmentOf(known, DepthTemplate()), code, ctx, 3);
  }

  lemma {:induction false} DepthEnvironment(known: KnownHelpers)
    requires "a" !in known && CompilableStatements(DepthTemplate().statements)
    ensures CompilableStatements(OuterProgram().statements) && CompilableStatements(AroundProgram().statements)
    ensures var q, p := EnvironmentOf(known, OuterProgram()), EnvironmentOf(known, AroundProgram());
            && EnvironmentOf(known, DepthTemplate()).children == [q, p]
            && q.children == [] && OwnDepths(q.opcodes) == {1} && p.children == [q] && OwnDepths(p.opcodes) == {}
  {
    OuterEnvironment(known);
    AroundEnvironment(known);
    var q, p, ss := OuterProgram(), AroundProgram(), DepthTemplate().statements;
    var first, second := ss[0], ss[1];
    assert CompilableBodies(first.bodies) && CompilableBodies(second.bodies);
    assert ss[1..] == [second] && [second][1..] == [];
    assert Children(known, first) == [EnvironmentOf(known, q)] && Children(known, second) == [EnvironmentOf(known, p)];
    assert ChildrenOf(known, [second]) == [EnvironmentOf(known, p)] + [];
    assert ChildrenOf(known, ss) == [EnvironmentOf(known, q), EnvironmentOf(known, p)];
  }

  lemma {:induction false} LostAt(root: Environment, code: Compiled, ctx: Context, h: nat)
    requires CompiledTo(root, code, ctx) && h in ctx.code && h in ctx.environments && !PassesAt(ctx, h)
    ensures !AllKeepDepths(root.children, [])
  {
    AllPassIff(root, code, ctx);
  }

  // ----- the objects -----

  /** The context object that all compilers of a template share. */
  class ProgramTable {
    var length: nat
    var code: map<nat, Compiled>
    var environments: map<nat, Environment>

    constructor ()
      ensures Abs() == NO_PROGRAMS
    {
      length, code, environments := 0, map[], map[];
    }

    ghost function Abs(): Context
      reads this
    {
      Context(length, code, environments)
    }

    method MatchExistingProgram(e: Environment) returns (h: Option<nat>)
      ensures h == Existing(environments, e, 0, length)
    {
      for b := 0 to length
        invariant Existing(environments, e, 0, length) == Existing(environments, e, b, length)
      {
        if b in environments && Same(environments[b], e) {
          return Some(b);
        }
      }
      h := None;
    }

    /** JavaScriptCompiler.compile with its context: first the children, then the program itself. */
    method CompileWhole(e: Environment) returns (ok: bool, c: Compiled)
      modifies this
      ensures ok == CompileProgram(e, old(Abs())).Ok?
      ensures ok ==> (c, Abs()) == CompileProgram(e, old(Abs())).value
      decreases e, 1
    {
      var refs, useDepths;
      ok, refs, useDepths := CompileAll(e.children);
      c := Compiled([], useDepths, refs);
      if ok {
        var generator := new JavaScriptCompiler(e);
        ok := generator.Compile();
        if ok {
          var body := MergeSource(e.isSimple, generator.source);
          c := Compiled(body, useDepths || Depths(e) != {}, refs);
        }
      }
    }

    /** compileChildren */
    method CompileAll(es: seq<Environment>) returns (ok: bool, refs: seq<nat>, useDepths: bool)
      modifies this
      ensures ok == CompileChildren(es, old(Abs())).Ok?
      ensures ok ==> Kids(refs, useDepths, Abs()) == CompileChildren(es, old(Abs())).value
      decreases es
    {
      refs, useDepths := [], false;
      OnwardNothing(CompileChildren(es, Abs()));
      assert es[0..] == es;
      for i := 0 to |es|
        invariant CompileChildren(es, old(Abs())) == Onward(refs, useDepths, CompileChildren(es[i..], Abs()))
      {
        assert es[i..][0] == es[i] && es[i..][1..] == es[i + 1..];
        OneMoreChild(es[i..], Abs(), refs, useDepths);
        var h, used;
        ok, h, used := CompileNext(es[i]);
        if !ok {
          return;
        }
        refs, useDepths := refs + [h], useDepths || used;
      }
      assert es[|es|..] == [] && refs + [] == refs;
      ok := true;
    }

    method CompileNext(e: Environment) returns (ok: bool, index: nat, used: bool)
      modifies this
      ensures ok == CompileChild(e, old(Abs())).Ok?
      ensures ok ==> Kids([index], used, Abs()) == CompileChild(e, old(Abs())).value
      decreases e, 2
    {
      var existing := MatchExistingProgram(e);
      if existing.Some? {
        return true, existing.value, false;
      }
      index := length + 1;
      length := index;
      var c;
      ok, c := CompileWhole(e);
      used := c.useDepths;
      if ok {
        code, environments := code[index := c], environments[index := e];
        if length <= index {
          length := index + 1;
        }
      }
    }
  }

  /** What the children so far and those still to come give together. */
  function Onward(refs: seq<nat>, useDepths: bool, rest: Outcome<Kids>): Outcome<Kids> {
    if rest.Throw? then rest
    else Ok(Kids(refs + rest.value.refs, useDepths || rest.value.useDepths, rest.value.context))
  }

  lemma {:induction false} OnwardNothing(rest: Outcome<Kids>)
    ensures Onward([], false, rest) == rest
  {
    if rest.Ok? {
      assert [] + rest.value.refs == rest.value.refs;
    }
  }

  lemma {:induction false} OneMoreChild(es: seq<Environment>, ctx: Context, refs: seq<nat>, useDepths: bool)
    requires es != []
    ensures var first := CompileChild(es[0], ctx);
            Onward(refs, useDepths, CompileChildren(es, ctx))
            == if first.Throw? then Throw(first.message)
               else Onward(refs + first.value.refs, useDepths || first.value.useDepths,
                           CompileChildren(es[1..], first.value.context))
  {
    var first := CompileChild(es[0], ctx);
    if first.Ok? && CompileChildren(es[1..], first.value.context).Ok? {
      var rest := CompileChildren(es[1..], first.value.context).value;
      assert refs + (first.value.refs + rest.refs) == refs + first.value.refs + rest.refs;
    }
  }

  /** Handlebars.compile of a whole template, on its objects. */
  method CompileAllPrograms(known: KnownHelpers, p: Program) returns (ok: bool, main: Compiled, table: ProgramTable)
    ensures CompilableStatements(p.statements) ==> (ok <==> AllNamed(p))
    ensures ok ==> CompilableStatements(p.statements)
    ensures ok ==> CompiledTo(EnvironmentOf(known, p), main, table.Abs())
  {
    table := new ProgramTable();
    main := Compiled([], false, []);
    var compiler := new Compiler(known);
    ok := compiler.CompileStatements(p.statements);
    if ok {
      CompileProgramSucceedsIff(known, p);
      var root := Environment(compiler.opcodes, compiler.children, compiler.isSimple);
      assert root == EnvironmentOf(known, p);
      ok, main := table.CompileWhole(root);
    }
  }
}
