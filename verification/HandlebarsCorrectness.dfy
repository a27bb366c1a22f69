/**
 The generated code means what the template means: for every template that
 compiles, and every runtime, context and initial world.
 */
module HandlebarsCorrectness {
  import opened Wrappers
  import opened Sequences
  import opened HandlebarsSyntax
  import opened HandlebarsCompiler
  import opened HandlebarsGenerator
  import opened HandlebarsTranslation
  import opened HandlebarsSemantics
  import opened HandlebarsMerge
  import opened HandlebarsJavaScriptCompiler

  // ----- expressions -----

  /** Evaluating js in s yields the value and the world of d, whatever the variables hold. */
  predicate Means<V(==), W(==)>(rt: Runtime<V, W>, fr: Frame<V>, js: Js, s: Store<V, W>, d: (V, W)) {
    var r := Eval(rt, fr, js, s);
    r.0 == d.0 && r.1.world == d.1
  }

  lemma {:induction false} EvalLooked<V, W>(rt: Runtime<V, W>, fr: Frame<V>, slot: nat, e: Entry, g: Guard,
                                            parts: seq<string>,
                                            s: Store<V, W>, v: V)
    requires Means(rt, fr, e.js, s, (v, s.world))
    requires e.Literal? ==> Eval(rt, fr, e.js, s) == (v, s)
    ensures Means(rt, fr, Looked(slot, e, g, parts).js, s, (DenLookup(rt, v, g.TruthGuard?, parts), s.world))
    decreases parts
  {
    if parts != [] {
      var e' := Value(Replaced(slot, e, g, parts[0]));
      var more := if g.TruthGuard? then rt.truthy(v) else rt.notNull(v);
      EvalReplaced(rt, fr, slot, e, g, parts[0], s, v);
      EvalLooked(rt, fr, slot, e', g, parts[1..], s, if more then rt.get(v, parts[0]) else v);
    }
  }

  /** The scratch variable is read only right after it has been assigned. */
  lemma {:induction false} EvalReplaced<V, W>(rt: Runtime<V, W>, fr: Frame<V>, slot: nat, e: Entry, g: Guard,
                                              part: string, s: Store<V, W>, v: V)
    requires Means(rt, fr, e.js, s, (v, s.world))
    requires e.Literal? ==> Eval(rt, fr, e.js, s) == (v, s)
    ensures Means(rt, fr, Replaced(slot, e, g, part), s,
                  (if (if g.TruthGuard? then rt.truthy(v) else rt.notNull(v)) then rt.get(v, part) else v, s.world))
  {
    if e.Value? {
      var t := Assign(Slot(slot), e.js);
      var s1 := Eval(rt, fr, t, s).1;
      assert Eval(rt, fr, t, s).0 == v;
      assert Eval(rt, fr, Read(Slot(slot)), s1) == (v, s1);
      assert Eval(rt, fr, Get(Read(Slot(slot)), part), s1) == (rt.get(v, part), s1);
    } else {
      assert Eval(rt, fr, Get(e.js, part), s) == (rt.get(v, part), s);
    }
  }

  lemma {:induction false} EvalPath<V, W>(rt: Runtime<V, W>, fr: Frame<V>, slot: nat, p: Path, falsy: bool,
                                          s: Store<V, W>)
    ensures Means(rt, fr, EntryPath(slot, p, falsy).js, s, (DenPath(rt, fr, p, falsy), s.world))
  {
    EvalLooked(rt, fr, slot, Literal(ContextVar(p.depth)), if falsy then TruthGuard else NullGuard, p.parts, s,
               fr.context(p.depth));
  }

  lemma {:induction false} EvalData<V, W>(rt: Runtime<V, W>, fr: Frame<V>, slot: nat, p: Path, s: Store<V, W>)
    ensures Means(rt, fr, EntryData(slot, p).js, s, (DenData(rt, fr, p), s.world))
  {
    EvalLooked(rt, fr, slot, Literal(if p.depth == 0 then DataVar else DataAt(p.depth)), TruthGuard, p.parts, s,
               if p.depth == 0 then fr.data else rt.dataAt(fr.data, p.depth));
  }

  lemma {:induction false} EvalAllConcat<V, W>(rt: Runtime<V, W>, fr: Frame<V>, a: seq<Js>, b: seq<Js>, s: Store<V, W>)
    ensures var x := EvalAll(rt, fr, a, s);
            var y := EvalAll(rt, fr, b, x.1);
            EvalAll(rt, fr, a + b, s).0 == x.0 + y.0 && EvalAll(rt, fr, a + b, s).1 == y.1
    decreases a
  {
    if a == [] {
      assert a + b == b;
    } else {
      assert (a + b)[1..] == a[1..] + b;
      EvalAllConcat(rt, fr, a[1..], b, Eval(rt, fr, a[0], s).1);
    }
  }

  lemma {:induction false} EvalFieldsConcat<V, W>(rt: Runtime<V, W>, fr: Frame<V>, a: seq<Field>, b: seq<Field>,
                                                  s: Store<V, W>)
    ensures var x := EvalFields(rt, fr, a, s);
            var y := EvalFields(rt, fr, b, x.1);
            EvalFields(rt, fr, a + b, s).0 == x.0 + y.0 && EvalFields(rt, fr, a + b, s).1 == y.1
    decreases a
  {
    if a == [] {
      assert a + b == b;
    } else {
      assert (a + b)[1..] == a[1..] + b;
      var v := Eval(rt, fr, a[0].value, s);
      EvalFieldsConcat(rt, fr, a[1..], b, v.1);
      var x := EvalFields(rt, fr, a[1..], v.1);
      Associate([(a[0].key, v.0)], x.0, EvalFields(rt, fr, b, x.1).0);
    }
  }

  lemma {:induction false} EvalThreeFields<V, W>(rt: Runtime<V, W>, fr: Frame<V>, a: seq<Field>, b: seq<Field>,
                                                 c: seq<Field>,
                                                 s: Store<V, W>, t: Store<V, W>)
    requires EvalFields(rt, fr, a, s).1 == t && EvalFields(rt, fr, b, t).1 == t && EvalFields(rt, fr, c, t).1 == t
    ensures EvalFields(rt, fr, a + b + c, s).1 == t
    ensures EvalFields(rt, fr, a + b + c, s).0
         == EvalFields(rt, fr, a, s).0 + EvalFields(rt, fr, b, t).0 + EvalFields(rt, fr, c, t).0
  {
    EvalFieldsConcat(rt, fr, a + b, c, s);
    EvalFieldsConcat(rt, fr, a, b, s);
  }

  lemma {:induction false} EvalOne<V, W>(rt: Runtime<V, W>, fr: Frame<V>, e: Js, s: Store<V, W>)
    ensures var r := Eval(rt, fr, e, s);
            EvalAll(rt, fr, [e], s).0 == [r.0] && EvalAll(rt, fr, [e], s).1 == r.1
  {
    assert [e][1..] == [];
    assert [Eval(rt, fr, e, s).0] + [] == [Eval(rt, fr, e, s).0];
  }

  lemma {:induction false} EvalOneField<V, W>(rt: Runtime<V, W>, fr: Frame<V>, f: Field, s: Store<V, W>)
    ensures var r := Eval(rt, fr, f.value, s);
            EvalFields(rt, fr, [f], s).0 == [(f.key, r.0)] && EvalFields(rt, fr, [f], s).1 == r.1
  {
    assert [f][1..] == [];
  }

  lemma {:induction false} EvalOptions<V, W>(rt: Runtime<V, W>, fr: Frame<V>, name: string, hash: Js,
                          p: Option<Environment>, i: Option<Environment>, s: Store<V, W>)
    ensures var h := Eval(rt, fr, hash, s);
            Eval(rt, fr, Options(name, hash, ProgramLit(p), ProgramLit(i)), s)
              == (DenOptions(rt, fr, name, h.0, p, i), h.1)
  {
    OptionFields(name, hash, p, i);
    EvalProgramFields(rt, fr, p, i, Eval(rt, fr, hash, s).1);
    EvalOptionFields(rt, fr, Field("name", StringLit(name)), Field("hash", hash), ProgramFields(p, i),
                     Field("data", DataVar), s);
  }

  lemma {:induction false} OptionFields(name: string, hash: Js, p: Option<Environment>, i: Option<Environment>)
    ensures Options(name, hash, ProgramLit(p), ProgramLit(i))
         == ObjectLit([Field("name", StringLit(name)), Field("hash", hash)] + ProgramFields(p, i)
                      + [Field("data", DataVar)])
  {
  }

  lemma {:induction false} EvalOptionFields<V, W>(rt: Runtime<V, W>, fr: Frame<V>, name: Field, hash: Field,
                                                  programs: seq<Field>, data: Field, s: Store<V, W>)
    requires name.value.StringLit? && data.value == DataVar
    requires EvalFields(rt, fr, programs, Eval(rt, fr, hash.value, s).1).1 == Eval(rt, fr, hash.value, s).1
    ensures var h := Eval(rt, fr, hash.value, s);
            EvalFields(rt, fr, [name, hash] + programs + [data], s)
              == ([(name.key, rt.text(name.value.text)), (hash.key, h.0)] + EvalFields(rt, fr, programs, h.1).0
                  + [(data.key, fr.data)], h.1)
  {
    var h := Eval(rt, fr, hash.value, s);
    EvalTwoFields(rt, fr, name, hash, s);
    EvalOneField(rt, fr, data, h.1);
    EvalThreeFields(rt, fr, [name, hash], programs, [data], s, h.1);
  }

  function ProgramFields(p: Option<Environment>, i: Option<Environment>): seq<Field> {
    if p.Some? || i.Some?
    then [Field("fn", if p.Some? then ProgramLit(p) else Noop),
          Field("inverse", if i.Some? then ProgramLit(i) else Noop)]
    else []
  }

  lemma {:induction false} EvalProgramFields<V, W>(rt: Runtime<V, W>, fr: Frame<V>, p: Option<Environment>,
                                                   i: Option<Environment>, s: Store<V, W>)
    ensures EvalFields(rt, fr, ProgramFields(p, i), s).1 == s
    ensures EvalFields(rt, fr, ProgramFields(p, i), s).0
         == if p.Some? || i.Some?
            then [("fn", if p.Some? then rt.program(KeyOf(p.value), ScopeOf(fr)) else rt.noop),
                  ("inverse", if i.Some? then rt.program(KeyOf(i.value), ScopeOf(fr)) else rt.noop)]
            else []
  {
    if p.Some? || i.Some? {
      EvalTwoFields(rt, fr, ProgramFields(p, i)[0], ProgramFields(p, i)[1], s);
    }
  }

  lemma {:induction false} EvalTwoFields<V, W>(rt: Runtime<V, W>, fr: Frame<V>, a: Field, b: Field, s: Store<V, W>)
    ensures var x := Eval(rt, fr, a.value, s);
            var y := Eval(rt, fr, b.value, x.1);
            EvalFields(rt, fr, [a, b], s).0 == [(a.key, x.0), (b.key, y.0)] && EvalFields(rt, fr, [a, b], s).1 == y.1
  {
    assert [a, b] == [a] + [b];
    EvalFieldsConcat(rt, fr, [a], [b], s);
    EvalOneField(rt, fr, a, s);
    EvalOneField(rt, fr, b, Eval(rt, fr, a.value, s).1);
  }

  lemma {:induction false} EvalParam<V, W>(rt: Runtime<V, W>, fr: Frame<V>, slot: nat, known: KnownHelpers, p: Param,
                                           s: Store<V, W>)
    ensures Means(rt, fr, EntryParam(slot, known, p).js, s, DenParam(rt, fr, known, p, s.world))
    decreases p
  {
    match p
    case Id(path) => EvalPath(rt, fr, slot, path, false, s);
    case Data(path) => EvalData(rt, fr, slot, path, s);
    case Quoted(_) =>
    case Verbatim(_) =>
    case SubExpr(e) =>
      if e.Call? {
        EvalHelper(rt, fr, slot, known, e, None, None, s);
      }
  }

  lemma {:induction false} EvalParams<V, W>(rt: Runtime<V, W>, fr: Frame<V>, slot: nat, known: KnownHelpers,
                                            ps: seq<Param>, s: Store<V, W>)
    ensures var r := EvalAll(rt, fr, Jss(EntryParams(slot, known, ps)), s);
            var d := DenParams(rt, fr, known, ps, s.world);
            r.0 == d.0 && r.1.world == d.1
    decreases ps
  {
    if ps != [] {
      EvalParam(rt, fr, slot, known, ps[0], s);
      EvalParams(rt, fr, slot, known, ps[1..], Eval(rt, fr, EntryParam(slot, known, ps[0]).js, s).1);
      assert EntryParams(slot, known, ps)[1..] == EntryParams(slot, known, ps[1..]);
      assert Jss(EntryParams(slot, known, ps))[1..] == Jss(EntryParams(slot, known, ps[1..]));
    }
  }

  lemma {:induction false} EvalPairs<V, W>(rt: Runtime<V, W>, fr: Frame<V>, slot: nat, known: KnownHelpers,
                                           ps: seq<Pair>, s: Store<V, W>)
    ensures var r := EvalFields(rt, fr, Fields(slot, known, ps), s);
            var d := DenPairs(rt, fr, known, ps, s.world);
            r.0 == d.0 && r.1.world == d.1
    decreases ps
  {
    if ps != [] {
      var rest := Fields(slot, known, ps[1..]);
      var f := Field(ps[0].key, EntryParam(slot, known, ps[0].value).js);
      EvalPairs(rt, fr, slot, known, ps[1..], s);
      EvalFieldsConcat(rt, fr, rest, [f], s);
      var s1 := EvalFields(rt, fr, rest, s).1;
      EvalOneField(rt, fr, f, s1);
      EvalParam(rt, fr, slot, known, ps[0].value, s1);
    }
  }

  lemma {:induction false} EvalHash<V, W>(rt: Runtime<V, W>, fr: Frame<V>, slot: nat, known: KnownHelpers, h: Hash,
                                          s: Store<V, W>)
    ensures Means(rt, fr, EntryHash(slot, known, h).js, s, DenHash(rt, fr, known, h, s.world))
    decreases h
  {
    if h.Hash? {
      EvalPairs(rt, fr, slot, known, h.pairs, s);
    }
  }

  lemma {:induction false} EvalCallee<V, W>(rt: Runtime<V, W>, fr: Frame<V>, slot: nat, name: string, path: Path,
                                            s: Store<V, W>)
    ensures Means(rt, fr, Callee(name, EntryPath(slot, path, true).js, path.IsSimple()), s,
                  (var fallback := Either(rt, DenPath(rt, fr, path, true), rt.get(fr.helpers, "helperMissing"));
                   if path.IsSimple() then Either(rt, rt.get(fr.helpers, name), fallback) else fallback,
                   s.world))
  {
    EvalPath(rt, fr, slot, path, true, s);
    var found := EntryPath(slot, path, true).js;
    var s1 := Eval(rt, fr, found, s).1;
    assert Eval(rt, fr, HELPER_MISSING, s1) == (rt.get(fr.helpers, "helperMissing"), s1);
    assert Eval(rt, fr, Get(HelpersVar, name), s) == (rt.get(fr.helpers, name), s);
  }

  lemma {:induction false} EvalHelper<V, W>(rt: Runtime<V, W>, fr: Frame<V>, slot: nat, known: KnownHelpers, e: Sexpr,
                                            p: Option<Environment>, i: Option<Environment>, s: Store<V, W>)
    requires e.Call?
    ensures Means(rt, fr, JsHelper(slot, known, e, ProgramLit(p), ProgramLit(i)), s,
                  DenHelper(rt, fr, known, e, p, i, s.world))
    decreases e, 1
  {
    var isKnown := e.path.Head() in known;
    var name := if isKnown then e.path.Head() else e.path.original;
    var callee := if isKnown then Get(HelpersVar, name)
                  else Callee(name, EntryPath(slot, e.path, true).js, e.path.IsSimple());
    if !isKnown {
      EvalCallee(rt, fr, slot, name, e.path, s);
    }
    var s1 := Eval(rt, fr, callee, s).1;
    EvalArguments(rt, fr, slot, known, e, name, p, i, s1);
    EvalCall(rt, fr, callee, Jss(EntryParams(slot, known, e.params))
                             + [Options(name, EntryHash(slot, known, e.hash).js, ProgramLit(p), ProgramLit(i))], s);
  }

  lemma {:induction false} EvalCall<V, W>(rt: Runtime<V, W>, fr: Frame<V>, callee: Js, args: seq<Js>, s: Store<V, W>)
    ensures var f := Eval(rt, fr, callee, s);
            var a := EvalAll(rt, fr, args, f.1);
            Means(rt, fr, CallJs(callee, ContextVar(0), args), s, rt.call(f.0, fr.context(0), a.0, a.1.world))
  {
    var s1 := Eval(rt, fr, callee, s).1;
    assert Eval(rt, fr, ContextVar(0), s1) == (fr.context(0), s1);
  }

  lemma {:induction false} EvalArguments<V, W>(rt: Runtime<V, W>, fr: Frame<V>, slot: nat, known: KnownHelpers,
                                               e: Sexpr, name: string,
                            p: Option<Environment>, i: Option<Environment>, s: Store<V, W>)
    requires e.Call?
    ensures var args := DenParams(rt, fr, known, e.params, s.world);
            var hash := DenHash(rt, fr, known, e.hash, args.1);
            var r := EvalAll(rt, fr, Jss(EntryParams(slot, known, e.params))
                                     + [Options(name, EntryHash(slot, known, e.hash).js, ProgramLit(p),
                                                ProgramLit(i))], s);
            r.0 == args.0 + [DenOptions(rt, fr, name, hash.0, p, i)] && r.1.world == hash.1
    decreases e, 0
  {
    var params, hash := Jss(EntryParams(slot, known, e.params)), EntryHash(slot, known, e.hash).js;
    var options := Options(name, hash, ProgramLit(p), ProgramLit(i));
    EvalParams(rt, fr, slot, known, e.params, s);
    var s1 := EvalAll(rt, fr, params, s).1;
    EvalHash(rt, fr, slot, known, e.hash, s1);
    EvalOptions(rt, fr, name, hash, p, i, s1);
    EvalAllConcat(rt, fr, params, [options], s);
    EvalOne(rt, fr, options, s1);
  }

  lemma {:induction false} EvalSimple<V, W>(rt: Runtime<V, W>, fr: Frame<V>, slot: nat, e: Sexpr, s: Store<V, W>)
    ensures Means(rt, fr, JsSimple(slot, e), s, DenSimple(rt, fr, e, s.world))
  {
    match e
    case DataRef(path) => EvalData(rt, fr, slot, path, s);
    case Call(path, _, _) => EvalPath(rt, fr, slot, path, false, s);
  }

  lemma {:induction false} EvalBlockSimple<V, W>(rt: Runtime<V, W>, fr: Frame<V>, slot: nat, e: Sexpr, name: string,
                              p: Option<Environment>, i: Option<Environment>, s: Store<V, W>)
    ensures var v := DenSimple(rt, fr, e, s.world);
            Means(rt, fr, CallJs(BLOCK_HELPER_MISSING, ContextVar(0),
                                 [JsSimple(slot, e), Options(name, ObjectLit([]), ProgramLit(p), ProgramLit(i))]), s,
                  rt.call(rt.get(fr.helpers, "blockHelperMissing"), fr.context(0),
                          [v.0, DenOptions(rt, fr, name, rt.record([]), p, i)], v.1))
  {
    var options := Options(name, ObjectLit([]), ProgramLit(p), ProgramLit(i));
    EvalSimple(rt, fr, slot, e, s);
    var s1 := Eval(rt, fr, JsSimple(slot, e), s).1;
    EvalOptions(rt, fr, name, ObjectLit([]), p, i, s1);
    EvalBlockMissing(rt, fr, JsSimple(slot, e), options, s);
  }

  lemma {:induction false} EvalPair<V, W>(rt: Runtime<V, W>, fr: Frame<V>, x: Js, y: Js, s: Store<V, W>)
    ensures var v := Eval(rt, fr, x, s);
            var o := Eval(rt, fr, y, v.1);
            EvalAll(rt, fr, [x, y], s).0 == [v.0, o.0] && EvalAll(rt, fr, [x, y], s).1 == o.1
  {
    var v := Eval(rt, fr, x, s);
    var o := Eval(rt, fr, y, v.1);
    assert [x, y] == [x] + [y];
    EvalAllConcat(rt, fr, [x], [y], s);
    EvalOne(rt, fr, x, s);
    EvalOne(rt, fr, y, v.1);
    assert [v.0] + [o.0] == [v.0, o.0];
  }

  lemma {:induction false} EvalBlockMissing<V, W>(rt: Runtime<V, W>, fr: Frame<V>, x: Js, y: Js, s: Store<V, W>)
    ensures var v := Eval(rt, fr, x, s);
            var o := Eval(rt, fr, y, v.1);
            var r := Eval(rt, fr, CallJs(BLOCK_HELPER_MISSING, ContextVar(0), [x, y]), s);
            var d := rt.call(rt.get(fr.helpers, "blockHelperMissing"), fr.context(0), [v.0, o.0], o.1.world);
            r.0 == d.0 && r.1 == o.1.(world := d.1)
  {
    EvalPair(rt, fr, x, y, s);
    assert Eval(rt, fr, BLOCK_HELPER_MISSING, s) == (rt.get(fr.helpers, "blockHelperMissing"), s);
    EvalCall(rt, fr, BLOCK_HELPER_MISSING, [x, y], s);
  }

  /** The choice of the ambiguous helper leaves it in the helper variable. */
  function Choose(name: string, found: Js): Js {
    Chosen(Or(Get(HelpersVar, name), found))
  }

  function Chosen(found: Js): Js {
    Assign(HelperRegister, IfNotNull(Assign(HelperRegister, found), Read(HelperRegister), HELPER_MISSING))
  }

  function Use(argument: Js): Js {
    IfFunction(Read(HelperRegister), CallJs(Read(HelperRegister), ContextVar(0), [argument]), Read(HelperRegister))
  }

  lemma {:induction false} EvalChoose<V, W>(rt: Runtime<V, W>, fr: Frame<V>, slot: nat, name: string, path: Path,
                                            s: Store<V, W>)
    ensures var found := Either(rt, rt.get(fr.helpers, name), DenPath(rt, fr, path, false));
            var f := if rt.notNull(found) then found else rt.get(fr.helpers, "helperMissing");
            var t := Eval(rt, fr, Choose(name, EntryPath(slot, path, false).js), s).1;
            t.world == s.world && HelperRegister in t.registers && t.registers[HelperRegister] == f
  {
    EvalEither(rt, fr, slot, name, path, s);
    EvalAssignFound(rt, fr, Or(Get(HelpersVar, name), EntryPath(slot, path, false).js), s);
  }

  lemma {:induction false} EvalEither<V, W>(rt: Runtime<V, W>, fr: Frame<V>, slot: nat, name: string, path: Path,
                                            s: Store<V, W>)
    ensures var first := Eval(rt, fr, Or(Get(HelpersVar, name), EntryPath(slot, path, false).js), s);
            first.0 == Either(rt, rt.get(fr.helpers, name), DenPath(rt, fr, path, false)) && first.1.world == s.world
  {
    EvalPath(rt, fr, slot, path, false, s);
    assert Eval(rt, fr, Get(HelpersVar, name), s) == (rt.get(fr.helpers, name), s);
  }

  lemma {:induction false} EvalAssignFound<V, W>(rt: Runtime<V, W>, fr: Frame<V>, found: Js, s: Store<V, W>)
    ensures var first := Eval(rt, fr, found, s);
            var f := if rt.notNull(first.0) then first.0 else rt.get(fr.helpers, "helperMissing");
            var t := Eval(rt, fr, Chosen(found), s).1;
            t.world == first.1.world && HelperRegister in t.registers && t.registers[HelperRegister] == f
  {
    var first := Eval(rt, fr, found, s);
    var a := Eval(rt, fr, Assign(HelperRegister, found), s);
    assert a.0 == first.0 && a.1.world == first.1.world;
    assert Eval(rt, fr, Read(HelperRegister), a.1) == (first.0, a.1);
    assert Eval(rt, fr, HELPER_MISSING, a.1) == (rt.get(fr.helpers, "helperMissing"), a.1);
  }

  lemma {:induction false} EvalUse<V, W>(rt: Runtime<V, W>, fr: Frame<V>, argument: Js, f: V, o: V, s: Store<V, W>)
    requires HelperRegister in s.registers && s.registers[HelperRegister] == f
    requires Eval(rt, fr, argument, s) == (o, s)
    ensures var r := Eval(rt, fr, Use(argument), s);
            var d := if rt.isFunction(f) then rt.call(f, fr.context(0), [o], s.world) else (f, s.world);
            r.0 == d.0 && r.1 == s.(world := d.1)
  {
    assert Eval(rt, fr, Read(HelperRegister), s) == (f, s);
    assert Eval(rt, fr, ContextVar(0), s) == (fr.context(0), s);
    EvalOne(rt, fr, argument, s);
  }

  /** An ambiguous call. */
  lemma {:induction false} EvalAmbiguous<V, W>(rt: Runtime<V, W>, fr: Frame<V>, slot: nat, path: Path, s: Store<V, W>)
    ensures Means(rt, fr, JsAmbiguous(slot, path, NullLit, NullLit, false), s,
                  DenAmbiguous(rt, fr, path, None, None, s.world))
  {
    var options := Options(path.Head(), ObjectLit([]), NullLit, NullLit);
    var choose := Choose(path.Head(), EntryPath(slot, path, false).js);
    EvalChoose(rt, fr, slot, path.Head(), path, s);
    var s1 := Eval(rt, fr, choose, s).1;
    EvalOptions(rt, fr, path.Head(), ObjectLit([]), None, None, s1);
    EvalUse(rt, fr, options, s1.registers[HelperRegister],
            DenOptions(rt, fr, path.Head(), rt.record([]), None, None), s1);
    assert JsAmbiguous(slot, path, NullLit, NullLit, false) == Comma(choose, Use(options));
  }

  /** As a block, it also leaves its options in the options variable. */
  lemma {:induction false} EvalAmbiguousBlock<V, W>(rt: Runtime<V, W>, fr: Frame<V>, slot: nat, path: Path,
                                 p: Option<Environment>, i: Option<Environment>, s: Store<V, W>)
    ensures var js := JsAmbiguous(slot, path, ProgramLit(p), ProgramLit(i), true);
            var t := Eval(rt, fr, js, s).1;
            && Means(rt, fr, js, s, DenAmbiguous(rt, fr, path, p, i, s.world))
            && OptionsRegister in t.registers
            && t.registers[OptionsRegister] == DenOptions(rt, fr, path.Head(), rt.record([]), p, i)
  {
    var options := Options(path.Head(), ObjectLit([]), ProgramLit(p), ProgramLit(i));
    var choose := Choose(path.Head(), EntryPath(slot, path, false).js);
    EvalChoose(rt, fr, slot, path.Head(), path, s);
    var s1 := Eval(rt, fr, choose, s).1;
    EvalOptions(rt, fr, path.Head(), ObjectLit([]), p, i, s1);
    EvalStored(rt, fr, options, s1.registers[HelperRegister],
               DenOptions(rt, fr, path.Head(), rt.record([]), p, i), s1);
    assert JsAmbiguous(slot, path, ProgramLit(p), ProgramLit(i), true)
        == Comma(choose, Comma(Assign(OptionsRegister, options), Use(Read(OptionsRegister))));
  }

  lemma {:induction false} EvalStored<V, W>(rt: Runtime<V, W>, fr: Frame<V>, options: Js, f: V, o: V, s: Store<V, W>)
    requires HelperRegister in s.registers && s.registers[HelperRegister] == f
    requires Eval(rt, fr, options, s) == (o, s)
    ensures var r := Eval(rt, fr, Comma(Assign(OptionsRegister, options), Use(Read(OptionsRegister))), s);
            var d := if rt.isFunction(f) then rt.call(f, fr.context(0), [o], s.world) else (f, s.world);
            && r.0 == d.0 && r.1.world == d.1
            && OptionsRegister in r.1.registers && r.1.registers[OptionsRegister] == o
  {
    var s1 := Eval(rt, fr, Assign(OptionsRegister, options), s).1;
    assert s1 == s.(registers := s.registers[OptionsRegister := o]);
    EvalUse(rt, fr, Read(OptionsRegister), f, o, s1);
  }

  lemma {:induction false} EvalSexpr<V, W>(rt: Runtime<V, W>, fr: Frame<V>, slot: nat, known: KnownHelpers, e: Sexpr,
                                           s: Store<V, W>)
    ensures Means(rt, fr, JsSexpr(slot, known, e), s, DenSexpr(rt, fr, known, e, s.world))
  {
    match Classify(known, e)
    case SimpleKind => EvalSimple(rt, fr, slot, e, s);
    case HelperKind => EvalHelper(rt, fr, slot, known, e, None, None, s);
    case AmbiguousKind => EvalAmbiguous(rt, fr, slot, e.path, s);
  }

  lemma {:induction false} EvalPartial<V, W>(rt: Runtime<V, W>, fr: Frame<V>, known: KnownHelpers, e: Statement,
                                             s: Store<V, W>)
    requires e.Partial?
    ensures Means(rt, fr, JsPartial(known, e.name, e.context, e.hash, e.indent), s,
                  DenPartial(rt, fr, known, e, s.world))
  {
    var c := if e.context.Some? then EntryParam(1, known, e.context.value).js else ContextVar(0);
    if e.context.Some? {
      EvalParam(rt, fr, 1, known, e.context.value, s);
    }
    var s1 := Eval(rt, fr, c, s).1;
    if e.hash.Hash? {
      EvalHash(rt, fr, 1, known, e.hash, s1);
    }
    assert Eval(rt, fr, Get(PartialsVar, e.name), s) == (rt.get(fr.partials, e.name), s);
  }

  // ----- statements -----

  /** The items between the store and the append of a statement. */
  function Between(known: KnownHelpers, s: Statement): seq<Item> {
    if s.Block? && Classify(known, s.sexpr) == AmbiguousKind then MissingItems(s.sexpr.path.Head()) else []
  }

  function JsValue(known: KnownHelpers, s: Statement): Js
    requires Generable(s) && (s.Mustache? || s.Block? || s.Partial?)
  {
    match s
    case Mustache(e, _) => JsSexpr(1, known, e)
    case Block(e, b) =>
      JsBlock(known, e, ProgramLit(ProgramEnvironment(known, b)), ProgramLit(InverseEnvironment(known, b)))
    case Partial(name, c, h, indent) => JsPartial(known, name, c, h, indent)
  }

  lemma {:induction false} ItemsOfValue(known: KnownHelpers, isSimple: bool, s: Statement)
    requires Generable(s) && (s.Mustache? || s.Block? || s.Partial?) && !(s.Mustache? && s.escaped)
    ensures Items(known, isSimple, s) == StoreItems(isSimple, JsValue(known, s), Between(known, s))
  {
  }

  /** After the store, and blockHelperMissing's turn, stack1 holds the value of the statement. */
  lemma {:induction false} ExecStored<V, W>(rt: Runtime<V, W>, fr: Frame<V>, known: KnownHelpers, s: Statement,
                                            buffer: string, st: Store<V, W>)
    requires Generable(s) && (s.Mustache? || s.Block? || s.Partial?)
    ensures var d := DenValue(rt, fr, known, s, st.world);
            var p := ExecItems(rt, fr, [Code(Set(1, JsValue(known, s)))] + Between(known, s), Running(buffer, st));
            && p.Running? && p.buffer == buffer && p.store.world == d.1
            && Slot(1) in p.store.registers && p.store.registers[Slot(1)] == d.0
  {
    var js := JsValue(known, s);
    var p0: Progress<V, W> := Running(buffer, st);
    var v := Eval(rt, fr, js, st);
    var p1: Progress<V, W> := Running(buffer, SetRegister(v.1, Slot(1), v.0));
    ExecConcat(rt, fr, [Code(Set(1, js))], Between(known, s), p0);
    ExecSingle(rt, fr, Code(Set(1, js)), p0);
    match s
    case Mustache(e, _) => EvalSexpr(rt, fr, 1, known, e, st);
    case Partial(_, _, _, _) => EvalPartial(rt, fr, known, s, st);
    case Block(e, b) =>
      var p, i := ProgramEnvironment(known, b), InverseEnvironment(known, b);
      if Classify(known, e) == AmbiguousKind {
        EvalAmbiguousBlock(rt, fr, 1, e.path, p, i, st);
        ExecMissing(rt, fr, e.path.Head(), DenOptions(rt, fr, e.path.Head(), rt.record([]), p, i), p1);
      } else if Classify(known, e) == HelperKind {
        EvalHelper(rt, fr, 1, known, e, p, i, st);
      } else {
        EvalBlockSimple(rt, fr, 1, e, e.path.original, p, i, st);
      }
  }

  lemma {:induction false} ExecMissing<V, W>(rt: Runtime<V, W>, fr: Frame<V>, name: string, o: V, p: Progress<V, W>)
    requires p.Running? && Slot(1) in p.store.registers
    requires OptionsRegister in p.store.registers && p.store.registers[OptionsRegister] == o
    ensures var v := p.store.registers[Slot(1)];
            var d := if rt.truthy(rt.get(fr.helpers, name)) then (v, p.store.world)
                     else rt.call(rt.get(fr.helpers, "blockHelperMissing"), fr.context(0), [v, o], p.store.world);
            var q := ExecItems(rt, fr, MissingItems(name), p);
            && q.Running? && q.buffer == p.buffer && q.store.world == d.1
            && Slot(1) in q.store.registers && q.store.registers[Slot(1)] == d.0
  {
    ExecSingle(rt, fr, MissingItems(name)[0], p);
    var s := p.store;
    assert Eval(rt, fr, Get(HelpersVar, name), s) == (rt.get(fr.helpers, name), s);
    assert Eval(rt, fr, BLOCK_HELPER_MISSING, s) == (rt.get(fr.helpers, "blockHelperMissing"), s);
    assert Eval(rt, fr, SLOT_1, s) == (s.registers[Slot(1)], s);
    assert Eval(rt, fr, Read(OptionsRegister), s) == (o, s);
    assert [SLOT_1, Read(OptionsRegister)] == [SLOT_1] + [Read(OptionsRegister)];
    EvalAllConcat(rt, fr, [SLOT_1], [Read(OptionsRegister)], s);
    EvalOne(rt, fr, SLOT_1, s);
    EvalOne(rt, fr, Read(OptionsRegister), s);
    assert EvalAll(rt, fr, [SLOT_1, Read(OptionsRegister)], s).0 == [s.registers[Slot(1)], o];
    EvalCall(rt, fr, BLOCK_HELPER_MISSING, [SLOT_1, Read(OptionsRegister)], s);
  }

  /** In a program of several statements, each one adds its text to the buffer. */
  lemma {:induction false} ExecStatement<V, W>(rt: Runtime<V, W>, fr: Frame<V>, known: KnownHelpers, s: Statement,
                                               buffer: string, st: Store<V, W>)
    requires Generable(s) && (s.Mustache? || s.Block? || s.Partial?)
    ensures var d := DenText(rt, fr, known, s, st.world);
            var p := ExecItems(rt, fr, Items(known, false, s), Running(buffer, st));
            p.Running? && p.buffer == buffer + d.0 && p.store.world == d.1
  {
    if s.Mustache? && s.escaped {
      ExecSingle(rt, fr, Buffer(Escaped(JsSexpr(1, known, s.sexpr))), Running(buffer, st));
      EvalSexpr(rt, fr, 1, known, s.sexpr, st);
    } else {
      ItemsOfValue(known, false, s);
      var front, last := [Code(Set(1, JsValue(known, s)))] + Between(known, s), Code(AppendUnlessNull(SLOT_1));
      assert Items(known, false, s) == front + [last];
      ExecConcat(rt, fr, front, [last], Running(buffer, st));
      ExecStored(rt, fr, known, s, buffer, st);
      ExecAppend(rt, fr, ExecItems(rt, fr, front, Running(buffer, st)));
    }
  }

  lemma {:induction false} ExecAppend<V, W>(rt: Runtime<V, W>, fr: Frame<V>, p: Progress<V, W>)
    requires p.Running? && Slot(1) in p.store.registers
    ensures var v := p.store.registers[Slot(1)];
            ExecItems(rt, fr, [Code(AppendUnlessNull(SLOT_1))], p)
              == Running(p.buffer + (if rt.notNull(v) then rt.show(v) else ""), p.store)
  {
    ExecSingle(rt, fr, Code(AppendUnlessNull(SLOT_1)), p);
    assert p.buffer + "" == p.buffer;
  }

  lemma {:induction false} SourcePrefix(known: KnownHelpers, isSimple: bool, ss: seq<Statement>, source: seq<Item>,
                                        pending: string)
    requires GenerableAll(ss)
    ensures Source(known, isSimple, ss, source, pending) == source + Source(known, isSimple, ss, [], pending)
    decreases ss
  {
    if ss == [] {
      assert [] + PendingItems(isSimple, pending) == PendingItems(isSimple, pending);
    } else {
      var a := After(known, isSimple, ss[0], source, pending);
      var b := After(known, isSimple, ss[0], [], pending);
      AfterPrefix(known, isSimple, ss[0], source, pending);
      var rest := Source(known, isSimple, ss[1..], [], b.1);
      calc {
        Source(known, isSimple, ss, source, pending);
        Source(known, isSimple, ss[1..], a.0, a.1);
        { SourcePrefix(known, isSimple, ss[1..], a.0, a.1); }
        source + b.0 + rest;
        { Associate(source, b.0, rest); }
        source + (b.0 + rest);
        { SourcePrefix(known, isSimple, ss[1..], b.0, b.1); }
        source + Source(known, isSimple, ss, [], pending);
      }
    }
  }

  lemma {:induction false} AfterPrefix(known: KnownHelpers, isSimple: bool, s: Statement, source: seq<Item>,
                                       pending: string)
    requires Generable(s)
    ensures var a, b := After(known, isSimple, s, source, pending), After(known, isSimple, s, [], pending);
            a.0 == source + b.0 && a.1 == b.1
  {
  }

  lemma {:induction false} ExecPending<V, W>(rt: Runtime<V, W>, fr: Frame<V>, pending: string, buffer: string,
                                             st: Store<V, W>)
    ensures ExecItems(rt, fr, PendingItems(false, pending), Running(buffer, st)) == Running(buffer + pending, st)
  {
    if pending == "" {
      assert buffer + pending == buffer;
    } else {
      ExecSingle(rt, fr, Buffer(Text(pending)), Running(buffer, st));
    }
  }

  lemma {:induction false} ExecSource<V, W>(rt: Runtime<V, W>, fr: Frame<V>, known: KnownHelpers, ss: seq<Statement>,
                                            pending: string, buffer: string, st: Store<V, W>)
    requires GenerableAll(ss)
    ensures var d := DenTexts(rt, fr, known, ss, st.world);
            var p := ExecItems(rt, fr, Source(known, false, ss, [], pending), Running(buffer, st));
            p.Running? && p.buffer == buffer + pending + d.0 && p.store.world == d.1
    decreases ss
  {
    if ss == [] {
      ExecPending(rt, fr, pending, buffer, st);
      assert [] + PendingItems(false, pending) == PendingItems(false, pending);
      assert buffer + pending + "" == buffer + pending;
    } else if ss[0].Content? || ss[0].Comment? {
      var text := DenText(rt, fr, known, ss[0], st.world).0;
      SourceOfText(known, ss, pending, text);
      ExecSource(rt, fr, known, ss[1..], pending + text, buffer, st);
      TextsAssociate(buffer, pending, text, DenTexts(rt, fr, known, ss[1..], st.world).0);
    } else {
      var after := Source(known, false, ss[1..], [], "");
      var items := PendingItems(false, pending) + Items(known, false, ss[0]);
      SourceOfValue(known, ss, pending);
      ExecConcat(rt, fr, items, after, Running(buffer, st));
      ExecFront(rt, fr, known, ss[0], pending, buffer, st);
      var p := ExecItems(rt, fr, items, Running(buffer, st));
      ExecSource(rt, fr, known, ss[1..], "", p.buffer, p.store);
      TextAssociate(p.buffer, buffer + pending, DenText(rt, fr, known, ss[0], st.world).0,
                    DenTexts(rt, fr, known, ss[1..], p.store.world).0);
    }
  }

  lemma {:induction false} SourceOfText(known: KnownHelpers, ss: seq<Statement>, pending: string, text: string)
    requires GenerableAll(ss) && ss != [] && (ss[0].Content? || ss[0].Comment?)
    requires text == if ss[0].Content? then ss[0].text else ""
    ensures Source(known, false, ss, [], pending) == Source(known, false, ss[1..], [], pending + text)
  {
    assert pending + "" == pending;
  }

  lemma {:induction false} TextsAssociate(a: string, b: string, c: string, d: string)
    ensures a + (b + c) + d == a + b + (c + d)
  {
  }

  lemma {:induction false} TextAssociate(all: string, front: string, text: string, rest: string)
    requires all == front + text
    ensures all + "" + rest == front + (text + rest)
  {
  }

  lemma {:induction false} SourceOfValue(known: KnownHelpers, ss: seq<Statement>, pending: string)
    requires GenerableAll(ss) && ss != [] && !ss[0].Content? && !ss[0].Comment?
    ensures Source(known, false, ss, [], pending)
         == PendingItems(false, pending) + Items(known, false, ss[0]) + Source(known, false, ss[1..], [], "")
  {
    var items := PendingItems(false, pending) + Items(known, false, ss[0]);
    assert [] + PendingItems(false, pending) + Items(known, false, ss[0]) == items;
    SourcePrefix(known, false, ss[1..], items, "");
  }

  lemma {:induction false} ExecFront<V, W>(rt: Runtime<V, W>, fr: Frame<V>, known: KnownHelpers, s: Statement,
                        pending: string, buffer: string, st: Store<V, W>)
    requires Generable(s) && !s.Content? && !s.Comment?
    ensures var d := DenText(rt, fr, known, s, st.world);
            var p := ExecItems(rt, fr, PendingItems(false, pending) + Items(known, false, s), Running(buffer, st));
            p.Running? && p.buffer == buffer + pending + d.0 && p.store.world == d.1
  {
    ExecConcat(rt, fr, PendingItems(false, pending), Items(known, false, s), Running(buffer, st));
    ExecPending(rt, fr, pending, buffer, st);
    ExecStatement(rt, fr, known, s, buffer + pending, st);
  }

  // ----- programs of one statement -----

  lemma {:induction false} SingleSource(known: KnownHelpers, s: Statement)
    requires Generable(s) && GenerableAll([s])
    ensures Source(known, true, [s], [], "")
         == if s.Content? then PendingItems(true, s.text) else if s.Comment? then [] else Items(known, true, s)
  {
    var a := After(known, true, s, [], "");
    assert [s][1..] == [];
    assert Source(known, true, [s], [], "") == a.0 + PendingItems(true, a.1);
    if s.Content? {
      assert "" + s.text == s.text;
    } else if !s.Comment? {
      assert [] + PendingItems(true, "") + Items(known, true, s) == Items(known, true, s);
    }
  }

  lemma {:induction false} ExecReturn<V, W>(rt: Runtime<V, W>, fr: Frame<V>, p: Progress<V, W>)
    requires p.Running? && Slot(1) in p.store.registers
    ensures var v := p.store.registers[Slot(1)];
            ExecItems(rt, fr, [Code(ReturnUnlessNull(SLOT_1))] + [Code(ElseReturnEmpty)], p)
              == Returned(if rt.notNull(v) then v else rt.text(""), p.store)
  {
    var test, other := Code(ReturnUnlessNull(SLOT_1)), Code(ElseReturnEmpty);
    ExecConcat(rt, fr, [test], [other], p);
    ExecSingle(rt, fr, test, p);
    ExecSingle(rt, fr, other, ExecItem(rt, fr, test, p));
  }

  /** A single unescaped value is returned as it is, or as the empty string. */
  lemma {:induction false} ExecSingleValue<V, W>(rt: Runtime<V, W>, fr: Frame<V>, known: KnownHelpers, s: Statement,
                                                 st: Store<V, W>)
    requires Generable(s) && (s.Mustache? || s.Block? || s.Partial?) && !(s.Mustache? && s.escaped)
    ensures var d := DenValue(rt, fr, known, s, st.world);
            var p := ExecItems(rt, fr, Items(known, true, s), Running("", st));
            && p.Returned? && p.store.world == d.1
            && p.value == if rt.notNull(d.0) then d.0 else rt.text("")
  {
    ItemsOfValue(known, true, s);
    var front := [Code(Set(1, JsValue(known, s)))] + Between(known, s);
    var last := [Code(ReturnUnlessNull(SLOT_1))] + [Code(ElseReturnEmpty)];
    assert Items(known, true, s) == front + last;
    ExecConcat(rt, fr, front, last, Running("", st));
    ExecStored(rt, fr, known, s, "", st);
    ExecReturn(rt, fr, ExecItems(rt, fr, front, Running("", st)));
  }

  lemma {:induction false} SingleItemsAreCode(known: KnownHelpers, s: Statement)
    requires Generable(s) && GenerableAll([s])
    ensures var items := Source(known, true, [s], [], "");
            forall k | 0 <= k < |items| :: items[k].Code?
  {
    SingleSource(known, s);
  }

  lemma {:induction false} ExecSingleText<V, W>(rt: Runtime<V, W>, fr: Frame<V>, known: KnownHelpers, s: Statement,
                                                st: Store<V, W>)
    requires Generable(s) && GenerableAll([s])
    requires s.Content? || s.Comment? || (s.Mustache? && s.escaped)
    ensures var d := DenText(rt, fr, known, s, st.world);
            var items := Source(known, true, [s], [], "");
            var p := ExecItems(rt, fr, items, Running("", st));
            (items == [] || p.Returned?) && Finished(rt, p) == (rt.text(d.0), d.1)
  {
    SingleSource(known, s);
    if s.Content? && s.text != "" {
      ExecSingle(rt, fr, Code(Return(Text(s.text))), Running("", st));
    } else if s.Mustache? {
      ExecSingle(rt, fr, Code(Return(Escaped(JsSexpr(1, known, s.sexpr)))), Running("", st));
      EvalSexpr(rt, fr, 1, known, s.sexpr, st);
    }
  }

  /** Statements merged as several return their text. */
  lemma {:induction false} TextsAreCorrect<V, W>(rt: Runtime<V, W>, fr: Frame<V>, known: KnownHelpers,
                                                 ss: seq<Statement>, w: W)
    requires GenerableAll(ss)
    ensures var t := DenTexts(rt, fr, known, ss, w);
            CallBody(rt, fr, Merged(false, Source(known, false, ss, [], "")), w) == (rt.text(t.0), t.1)
  {
    MergedMeaning(rt, fr, Source(known, false, ss, [], ""), w);
    ExecSource(rt, fr, known, ss, "", "", Store(map[], w));
    assert "" + "" + DenTexts(rt, fr, known, ss, w).0 == DenTexts(rt, fr, known, ss, w).0;
  }

  /**
   The compiler is correct: for every template that compiles, the two stages
   succeed, and calling the merged function body gives, for every runtime,
   arguments and world, the value and the world that the template denotes.
   */
  lemma {:induction false} CompiledTemplateIsCorrect<V, W>(rt: Runtime<V, W>, fr: Frame<V>, known: KnownHelpers,
                                                           p: Program, w: W)
    requires GenerableAll(p.statements)
    ensures var env := EnvironmentOf(known, p);
            var source := Generate(env);
            && source.Ok?
            && CallBody(rt, fr, Merged(env.isSimple, source.value), w) == DenProgram(rt, fr, known, p, w)
  {
    var ss := p.statements;
    SourceGenerated(known, p);
    if |ss| == 1 {
      assert ss == [ss[0]];
      SingleProgram(rt, fr, known, ss[0], w);
    } else {
      TextsAreCorrect(rt, fr, known, ss, w);
    }
  }

  lemma {:induction false} TextOfOne<V, W>(rt: Runtime<V, W>, fr: Frame<V>, known: KnownHelpers, s: Statement, w: W)
    requires GenerableAll([s])
    ensures DenTexts(rt, fr, known, [s], w) == DenText(rt, fr, known, s, w)
  {
    var t := DenText(rt, fr, known, s, w);
    assert [s][1..] == [];
    assert DenTexts(rt, fr, known, [], t.1) == ("", t.1);
    assert t.0 + "" == t.0;
  }

  lemma {:induction false} SingleProgram<V, W>(rt: Runtime<V, W>, fr: Frame<V>, known: KnownHelpers, s: Statement, w: W)
    requires GenerableAll([s])
    ensures CallBody(rt, fr, Merged(true, Source(known, true, [s], [], "")), w)
         == DenProgram(rt, fr, known, Program([s]), w)
  {
    var st: Store<V, W> := Store(map[], w);
    var items := Source(known, true, [s], [], "");
    SingleItemsAreCode(known, s);
    if s.Content? || s.Comment? || (s.Mustache? && s.escaped) {
      ExecSingleText(rt, fr, known, s, st);
      MergedSimpleMeaning(rt, fr, items, w);
      TextOfOne(rt, fr, known, s, w);
    } else {
      SingleSource(known, s);
      ExecSingleValue(rt, fr, known, s, st);
      MergedSimpleMeaning(rt, fr, items, w);
    }
  }

  /** Handlebars.compile without its nested programs: both stages and mergeSource, run on their objects. */
  method CompileTemplate(known: KnownHelpers, p: Program) returns (ok: bool, body: seq<Stmt>)
    ensures ok == GenerableAll(p.statements)
    ensures ok ==> Generate(EnvironmentOf(known, p)).Ok?
    ensures ok ==> body == Merged(|p.statements| == 1, Generate(EnvironmentOf(known, p)).value)
  {
    body := [];
    var compiler := new Compiler(known);
    ok := compiler.CompileStatements(p.statements);
    if ok {
      GenerateSucceedsIff(known, p);
      var environment := Environment(compiler.opcodes, compiler.children, compiler.isSimple);
      var generator := new JavaScriptCompiler(environment);
      ok := generator.Compile();
      if ok {
        body := MergeSource(environment.isSimple, generator.source);
      }
    }
  }
}
