/**
 The two stages composed: running the opcodes of an expression pushes exactly one
 operand, which a direct recursion over the expression computes.
 */
module HandlebarsTranslation {
  import opened Wrappers
  import opened HandlebarsSyntax
  import opened HandlebarsCompiler
  import opened HandlebarsGenerator

  // ----- the direct translation of expressions -----

  function EntryPath(slot: nat, p: Path, falsy: bool): Entry {
    var context := Literal(ContextVar(p.depth));
    if p.IsContext() then context else Looked(slot, context, if falsy then TruthGuard else NullGuard, p.parts)
  }

  function EntryData(slot: nat, p: Path): Entry {
    Looked(slot, Literal(if p.depth == 0 then DataVar else DataAt(p.depth)), TruthGuard, p.parts)
  }

  function EntryParam(slot: nat, known: KnownHelpers, p: Param): Entry
    decreases p
  {
    match p
    case Id(path) => EntryPath(slot, path, false)
    case Data(path) => EntryData(slot, path)
    case Quoted(text) => Literal(StringLit(text))
    case Verbatim(text) => Literal(RawLit(text))
    case SubExpr(s) =>
      if s.Call? then Value(JsHelper(slot, known, s, NullLit, NullLit)) else Value(UndefinedLit)
  }

  function EntryParams(slot: nat, known: KnownHelpers, ps: seq<Param>): (es: seq<Entry>)
    ensures |es| == |ps|
    decreases ps
  {
    if ps == [] then [] else [EntryParam(slot, known, ps[0])] + EntryParams(slot, known, ps[1..])
  }

  function EntryValues(slot: nat, known: KnownHelpers, ps: seq<Pair>): (es: seq<Entry>)
    decreases ps
  {
    if ps == [] then [] else [EntryParam(slot, known, ps[0].value)] + EntryValues(slot, known, ps[1..])
  }

  /** The fields of a hash literal: in reverse order of the template. */
  function Fields(slot: nat, known: KnownHelpers, ps: seq<Pair>): seq<Field>
    decreases ps
  {
    if ps == [] then []
    else Fields(slot, known, ps[1..]) + [Field(ps[0].key, EntryParam(slot, known, ps[0].value).js)]
  }

  /** In an object literal the last field of a name counts. */
  function LastField(fs: seq<Field>, key: string): Option<Js> {
    if fs == [] then None
    else if fs[|fs| - 1].key == key then Some(fs[|fs| - 1].value)
    else LastField(fs[..|fs| - 1], key)
  }

  function FirstPair(ps: seq<Pair>, key: string): Option<Param>
    decreases ps
  {
    if ps == [] then None else if ps[0].key == key then Some(ps[0].value) else FirstPair(ps[1..], key)
  }

  /** As the order of hash pairs is reversed, the first of several pairs with one key counts. */
  lemma {:induction false} FirstPairCounts(slot: nat, known: KnownHelpers, ps: seq<Pair>, key: string)
    ensures LastField(Fields(slot, known, ps), key)
         == match FirstPair(ps, key) case None => None case Some(p) => Some(EntryParam(slot, known, p).js)
    decreases ps
  {
    if ps != [] {
      FirstPairCounts(slot, known, ps[1..], key);
      var rest := Fields(slot, known, ps[1..]);
      assert Fields(slot, known, ps)[..|rest|] == rest;
    }
  }

  /** k="a" k="b" passes "a". */
  lemma {:induction false} RepeatedKey(slot: nat, known: KnownHelpers)
    ensures LastField(Fields(slot, known, [Pair("k", Quoted("a")), Pair("k", Quoted("b"))]), "k")
         == Some(StringLit("a"))
  {
    FirstPairCounts(slot, known, [Pair("k", Quoted("a")), Pair("k", Quoted("b"))], "k");
  }

  function EntryHash(slot: nat, known: KnownHelpers, h: Hash): Entry
    decreases h
  {
    if h.NoHash? then Literal(ObjectLit([])) else Value(ObjectLit(Fields(slot, known, h.pairs)))
  }

  function JsHelper(slot: nat, known: KnownHelpers, s: Sexpr, program: Js, inverse: Js): Js
    requires s.Call?
    decreases s
  {
    var isKnown := s.path.Head() in known;
    var name := if isKnown then s.path.Head() else s.path.original;
    var callee := if isKnown then Get(HelpersVar, name)
                  else Callee(name, EntryPath(slot, s.path, true).js, s.path.IsSimple());
    HelperCall(callee, Jss(EntryParams(slot, known, s.params)),
               Options(name, EntryHash(slot, known, s.hash).js, program, inverse))
  }

  // ----- running opcodes -----

  /** Hashes are saved only while one is open. */
  predicate Ready(s: State) {
    s.hash.None? ==> s.hashes == []
  }

  /** The variable that lookups overwrite. */
  function SlotOf(s: State): nat {
    Scratch(s.stackSlot)
  }

  /** The outcome r of a run from s: the operands es were pushed, and nothing else changed. */
  predicate Pushed(r: Outcome<State>, s: State, es: seq<Entry>) {
    && r.Ok?
    && r.value == s.(inlineStack := s.inlineStack + es, lastContext := r.value.lastContext)
  }

  lemma {:induction false} RunOne(env: Environment, op: Opcode, s: State)
    ensures Run(env, [op], s) == Step(env, op, s)
  {
    assert [op][1..] == [];
    if Step(env, op, s).Ok? {
      assert Run(env, [], Step(env, op, s).value) == Step(env, op, s);
    }
  }

  lemma {:induction false} RunTwo(env: Environment, a: Opcode, b: Opcode, s: State)
    ensures Run(env, [a, b], s) == (var t :- Step(env, a, s); Step(env, b, t))
  {
    assert [a, b] == [a] + [b];
    RunConcat(env, [a], [b], s);
    RunOne(env, a, s);
    if Step(env, a, s).Ok? {
      RunOne(env, b, Step(env, a, s).value);
    }
  }

  lemma {:induction false} RunThen(env: Environment, ops: seq<Opcode>, tail: seq<Opcode>, s: State, t: State)
    requires Run(env, ops, s) == Ok(t)
    ensures Run(env, ops + tail, s) == Run(env, tail, t)
  {
    RunConcat(env, ops, tail, s);
  }

  lemma {:induction false} RunPath(env: Environment, p: Path, falsy: bool, s: State)
    ensures Pushed(Run(env, OpsPath(p, falsy), s), s, [EntryPath(SlotOf(s), p, falsy)])
  {
    var op := if p.IsContext() then PushContext else LookupOnContext(p.parts, falsy, p.isScoped);
    assert OpsPath(p, falsy) == [GetContext(p.depth), op];
    RunTwo(env, GetContext(p.depth), op, s);
    ReplaceLooks(s.(lastContext := p.depth), Literal(ContextVar(p.depth)),
              if falsy then TruthGuard else NullGuard, p.parts);
  }

  lemma {:induction false} RunData(env: Environment, p: Path, s: State)
    ensures Pushed(Run(env, [LookupData(p.depth, p.parts)], s), s, [EntryData(SlotOf(s), p)])
  {
    RunOne(env, LookupData(p.depth, p.parts), s);
    ReplaceLooks(s, Literal(if p.depth == 0 then DataVar else DataAt(p.depth)), TruthGuard, p.parts);
  }

  /** Two runs in sequence, each pushing operands. */
  lemma {:induction false} RunBoth(env: Environment, a: seq<Opcode>, b: seq<Opcode>, s: State, es: seq<Entry>,
                                   fs: seq<Entry>)
    requires Pushed(Run(env, a, s), s, es)
    requires Pushed(Run(env, b, Run(env, a, s).value), Run(env, a, s).value, fs)
    ensures Pushed(Run(env, a + b, s), s, es + fs)
  {
    RunConcat(env, a, b, s);
    assert s.inlineStack + es + fs == s.inlineStack + (es + fs);
  }

  lemma {:induction false} RunParam(env: Environment, known: KnownHelpers, p: Param, s: State)
    requires CompilableParam(p) && Ready(s)
    ensures Pushed(Run(env, OpsParam(known, p), s), s, [EntryParam(SlotOf(s), known, p)])
    decreases p
  {
    match p
    case Id(path) => RunPath(env, path, false, s);
    case Data(path) => RunData(env, path, s);
    case Quoted(text) => RunOne(env, PushString(text), s);
    case Verbatim(text) => RunOne(env, PushLiteral(text), s);
    case SubExpr(e) => RunHelper(env, known, e, None, None, s);
  }

  lemma {:induction false} RunParams(env: Environment, known: KnownHelpers, ps: seq<Param>, s: State)
    requires CompilableParams(ps) && Ready(s)
    ensures Pushed(Run(env, OpsParams(known, ps), s), s, EntryParams(SlotOf(s), known, ps))
    decreases ps
  {
    if ps == [] {
      assert s.inlineStack + [] == s.inlineStack;
    } else {
      RunParam(env, known, ps[0], s);
      var t := Run(env, OpsParam(known, ps[0]), s).value;
      RunParams(env, known, ps[1..], t);
      RunBoth(env, OpsParam(known, ps[0]), OpsParams(known, ps[1..]), s,
              [EntryParam(SlotOf(s), known, ps[0])], EntryParams(SlotOf(s), known, ps[1..]));
    }
  }

  lemma {:induction false} RunValues(env: Environment, known: KnownHelpers, ps: seq<Pair>, s: State)
    requires CompilablePairs(ps) && Ready(s)
    ensures Pushed(Run(env, OpsValues(known, ps), s), s, EntryValues(SlotOf(s), known, ps))
    decreases ps, 0
  {
    if ps == [] {
      assert s.inlineStack + [] == s.inlineStack;
    } else {
      RunParam(env, known, ps[0].value, s);
      var t := Run(env, OpsParam(known, ps[0].value), s).value;
      RunValues(env, known, ps[1..], t);
      RunBoth(env, OpsParam(known, ps[0].value), OpsValues(known, ps[1..]), s,
              [EntryParam(SlotOf(s), known, ps[0].value)], EntryValues(SlotOf(s), known, ps[1..]));
    }
  }

  lemma {:induction false} PopPushed(s: State, e: Entry)
    ensures Pop(Push(s, e)) == Ok((e.js, s))
  {
    assert Push(s, e).inlineStack[..|s.inlineStack|] == s.inlineStack;
  }

  /** assignToHash pairs each key with its own value, last pair first. */
  lemma {:induction false} RunKeys(env: Environment, known: KnownHelpers, ps: seq<Pair>, s: State, h: seq<Field>)
    requires s.hash == Some(h)
    ensures Run(env, OpsKeys(ps), s.(inlineStack := s.inlineStack + EntryValues(SlotOf(s), known, ps)))
         == Ok(s.(hash := Some(h + Fields(SlotOf(s), known, ps))))
    decreases ps
  {
    if ps == [] {
      assert s.inlineStack + [] == s.inlineStack && h + [] == h;
    } else {
      var e := EntryParam(SlotOf(s), known, ps[0].value);
      var t := Push(s, e);
      var full := s.(inlineStack := s.inlineStack + EntryValues(SlotOf(s), known, ps));
      assert full.inlineStack == t.inlineStack + EntryValues(SlotOf(s), known, ps[1..]);
      RunKeys(env, known, ps[1..], t, h);
      RunConcat(env, OpsKeys(ps[1..]), [AssignToHash(ps[0].key)], full);
      AssignPushed(env, s, e, ps[0].key, h + Fields(SlotOf(s), known, ps[1..]));
      assert h + Fields(SlotOf(s), known, ps[1..]) + [Field(ps[0].key, e.js)] == h + Fields(SlotOf(s), known, ps);
    }
  }

  lemma {:induction false} AssignPushed(env: Environment, s: State, e: Entry, key: string, h: seq<Field>)
    ensures Run(env, [AssignToHash(key)], Push(s, e).(hash := Some(h)))
         == Ok(s.(hash := Some(h + [Field(key, e.js)])))
  {
    var u := s.(hash := Some(h));
    assert Push(s, e).(hash := Some(h)) == Push(u, e);
    RunOne(env, AssignToHash(key), Push(u, e));
    PopPushed(u, e);
  }

  lemma {:induction false} RunHash(env: Environment, known: KnownHelpers, ps: seq<Pair>, s: State)
    requires CompilablePairs(ps) && Ready(s)
    ensures Pushed(Run(env, OpsHash(known, ps), s), s, [EntryHash(SlotOf(s), known, Hash(ps))])
    decreases ps, 1
  {
    var open := PushHashEffect(s);
    RunOne(env, PushHash, s);
    RunValues(env, known, ps, open);
    var values := Run(env, OpsValues(known, ps), open).value;
    var base := open.(lastContext := values.lastContext);
    RunKeys(env, known, ps, base, []);
    assert [] + Fields(SlotOf(s), known, ps) == Fields(SlotOf(s), known, ps);
    var closed := base.(hash := Some(Fields(SlotOf(s), known, ps)));
    RunOne(env, PopHash, closed);
    HashRestored(s, closed);
    RunConcat(env, [PushHash] + OpsValues(known, ps) + OpsKeys(ps), [PopHash], s);
    RunConcat(env, [PushHash] + OpsValues(known, ps), OpsKeys(ps), s);
    RunConcat(env, [PushHash], OpsValues(known, ps), s);
  }

  lemma {:induction false} HashRestored(s: State, closed: State)
    requires Ready(s) && closed.hash.Some?
    requires closed == PushHashEffect(s).(hash := closed.hash, lastContext := closed.lastContext)
    ensures Pushed(PopHashEffect(closed), s, [Value(ObjectLit(closed.hash.value))])
  {
    if s.hash.Some? {
      assert closed.hashes[..|closed.hashes| - 1] == s.hashes;
    }
  }

  /** The child that a pushProgram opcode refers to. */
  function ProgramJs(env: Environment, child: Option<nat>): Js
    requires child.Some? ==> child.value < |env.children|
  {
    if child.None? then NullLit else ProgramRef(KeyOf(env.children[child.value]))
  }

  predicate ValidChild(env: Environment, child: Option<nat>) {
    child.Some? ==> child.value < |env.children|
  }

  lemma {:induction false} PopParamsPushed(s: State, es: seq<Entry>)
    ensures PopParams(s.(inlineStack := s.inlineStack + es), |es|) == Ok((Jss(es), s))
    decreases es
  {
    if es == [] {
      assert s.inlineStack + [] == s.inlineStack;
    } else {
      var last := |es| - 1;
      var t := s.(inlineStack := s.inlineStack + es[..last]);
      assert s.inlineStack + es == t.inlineStack + [es[last]];
      PopPushed(t, es[last]);
      PopParamsPushed(s, es[..last]);
      JssSnoc(es[..last], es[last]);
      assert es == es[..last] + [es[last]];
    }
  }

  /** setupParams finds parameters, program, inverse and hash where they were pushed. */
  lemma {:induction false} SetupPushed(s: State, es: seq<Entry>, p: Entry, i: Entry, h: Entry, name: string)
    ensures SetupParams(s.(inlineStack := s.inlineStack + es + [p, i, h]), name, |es|)
         == Ok((Options(name, h.js, p.js, i.js), Jss(es), s))
  {
    var s0 := s.(inlineStack := s.inlineStack + es);
    var s1 := Push(s0, p);
    var s2 := Push(s1, i);
    ThreeMore(s.inlineStack + es, p, i, h);
    SetupFrom(s, s0, s1, s2, es, p, i, h, name);
  }

  lemma {:induction false} ThreeMore(x: seq<Entry>, p: Entry, i: Entry, h: Entry)
    ensures x + [p, i, h] == x + [p] + [i] + [h]
  {
  }

  lemma {:induction false} SetupFrom(s: State, s0: State, s1: State, s2: State, es: seq<Entry>, p: Entry, i: Entry,
                                     h: Entry, name: string)
    requires s0 == s.(inlineStack := s.inlineStack + es) && s1 == Push(s0, p) && s2 == Push(s1, i)
    ensures SetupParams(Push(s2, h), name, |es|) == Ok((Options(name, h.js, p.js, i.js), Jss(es), s))
  {
    PopPushed(s2, h);
    PopPushed(s1, i);
    PopPushed(s0, p);
    PopParamsPushed(s, es);
  }

  /** The operands of a helper call, up to its hash. */
  lemma {:induction false} RunArguments(env: Environment, known: KnownHelpers, e: Sexpr, p: Option<nat>,
                                        i: Option<nat>, s: State)
    requires e.Call? && CompilableSexpr(e) && Ready(s) && ValidChild(env, p) && ValidChild(env, i)
    ensures Pushed(Run(env, OpsParams(known, e.params) + [PushProgram(p), PushProgram(i)]
                            + (if e.hash.Hash? then OpsHash(known, e.hash.pairs) else [EmptyHash]), s),
                   s, EntryParams(SlotOf(s), known, e.params)
                      + [Literal(ProgramJs(env, p)), Literal(ProgramJs(env, i)), EntryHash(SlotOf(s), known, e.hash)])
    decreases e, 0
  {
    var ops := OpsParams(known, e.params);
    var es := EntryParams(SlotOf(s), known, e.params);
    RunParams(env, known, e.params, s);
    var s1 := Run(env, ops, s).value;
    RunTwo(env, PushProgram(p), PushProgram(i), s1);
    var programs := [Literal(ProgramJs(env, p)), Literal(ProgramJs(env, i))];
    assert s1.inlineStack + [programs[0]] + [programs[1]] == s1.inlineStack + programs;
    RunBoth(env, ops, [PushProgram(p), PushProgram(i)], s, es, programs);
    var s2 := Run(env, ops + [PushProgram(p), PushProgram(i)], s).value;
    var hashOps := if e.hash.Hash? then OpsHash(known, e.hash.pairs) else [EmptyHash];
    if e.hash.Hash? {
      RunHash(env, known, e.hash.pairs, s2);
    } else {
      RunOne(env, EmptyHash, s2);
    }
    RunBoth(env, ops + [PushProgram(p), PushProgram(i)], hashOps, s, es
            + programs, [EntryHash(SlotOf(s), known, e.hash)]);
    assert es + programs + [EntryHash(SlotOf(s), known, e.hash)]
        == es + [programs[0], programs[1], EntryHash(SlotOf(s), known, e.hash)];
  }

  lemma {:induction false} RunHelper(env: Environment, known: KnownHelpers, e: Sexpr, p: Option<nat>, i: Option<nat>,
                                     s: State)
    requires e.Call? && CompilableSexpr(e) && Ready(s) && ValidChild(env, p) && ValidChild(env, i)
    ensures Pushed(Run(env, OpsHelper(known, e, p, i), s), s,
                   [Value(JsHelper(SlotOf(s), known, e, ProgramJs(env, p), ProgramJs(env, i)))])
    decreases e, 1
  {
    var es := EntryParams(SlotOf(s), known, e.params);
    var h, pj, ij := EntryHash(SlotOf(s), known, e.hash), Literal(ProgramJs(env, p)), Literal(ProgramJs(env, i));
    var args := OpsParams(known, e.params) + [PushProgram(p), PushProgram(i)]
                + (if e.hash.Hash? then OpsHash(known, e.hash.pairs) else [EmptyHash]);
    RunArguments(env, known, e, p, i, s);
    var s1 := Run(env, args, s).value;
    var base := s.(lastContext := s1.lastContext);
    assert s.inlineStack + (es + [pj, ij, h]) == s.inlineStack + es + [pj, ij, h];
    if e.path.Head() in known {
      assert OpsHelper(known, e, p, i) == args + [InvokeKnownHelper(|es|, e.path.Head())];
      RunThen(env, args, [InvokeKnownHelper(|es|, e.path.Head())], s, s1);
      RunKnown(env, e.path.Head(), es, pj, ij, h, base, s1);
    } else {
      var op := InvokeHelper(|es|, e.path.original, e.path.IsSimple());
      assert OpsHelper(known, e, p, i) == args + (OpsPath(e.path, true) + [op]);
      RunThen(env, args, OpsPath(e.path, true) + [op], s, s1);
      RunUnknown(env, e.path, es, pj, ij, h, base, s1);
    }
  }

  lemma {:induction false} RunKnown(env: Environment, name: string, es: seq<Entry>, p: Entry, i: Entry, h: Entry,
                                    base: State, s1: State)
    requires s1 == base.(inlineStack := base.inlineStack + es + [p, i, h])
    ensures Pushed(Run(env, [InvokeKnownHelper(|es|, name)], s1), base,
                   [Value(HelperCall(Get(HelpersVar, name), Jss(es), Options(name, h.js, p.js, i.js)))])
  {
    RunOne(env, InvokeKnownHelper(|es|, name), s1);
    SetupPushed(base, es, p, i, h, name);
  }

  lemma {:induction false} HelperPushed(base: State, es: seq<Entry>, p: Entry, i: Entry, h: Entry, found: Entry,
                                        name: string, isSimple: bool)
    ensures HelperEffect(Push(base.(inlineStack := base.inlineStack + es + [p, i, h]), found), |es|, name, isSimple)
         == Ok(Push(base, Value(HelperCall(Callee(name, found.js, isSimple), Jss(es),
                                           Options(name, h.js, p.js, i.js)))))
  {
    PopPushed(base.(inlineStack := base.inlineStack + es + [p, i, h]), found);
    SetupPushed(base, es, p, i, h, name);
  }

  /** The tail of an unknown helper's opcodes: the lookup and the call. */
  lemma {:induction false} RunUnknown(env: Environment, path: Path, es: seq<Entry>, p: Entry, i: Entry, h: Entry,
                                      base: State, s1: State)
    requires s1 == base.(inlineStack := base.inlineStack + es + [p, i, h])
    ensures Pushed(Run(env, OpsPath(path, true) + [InvokeHelper(|es|, path.original, path.IsSimple())], s1), base,
                   [Value(HelperCall(Callee(path.original, EntryPath(SlotOf(base), path, true).js, path.IsSimple()),
                                     Jss(es), Options(path.original, h.js, p.js, i.js)))])
  {
    var op, found := InvokeHelper(|es|, path.original, path.IsSimple()), EntryPath(SlotOf(base), path, true);
    RunPath(env, path, true, s1);
    var s2 := Run(env, OpsPath(path, true), s1).value;
    RunThen(env, OpsPath(path, true), [op], s1, s2);
    RunOne(env, op, s2);
    var moved := base.(lastContext := s2.lastContext);
    assert s2 == Push(moved.(inlineStack := base.inlineStack + es + [p, i, h]), found);
    HelperPushed(moved, es, p, i, h, found, path.original, path.IsSimple());
  }

  // ----- the direct translation of statements -----

  /** this.program(i, data) for a compiled child, or null */
  function ProgramLit(p: Option<Environment>): Js {
    if p.None? then NullLit else ProgramRef(KeyOf(p.value))
  }

  function EntrySimple(slot: nat, s: Sexpr): Entry {
    match s
    case DataRef(path) => EntryData(slot, path)
    case Call(path, _, _) => EntryPath(slot, path, false)
  }

  function JsSimple(slot: nat, s: Sexpr): Js {
    Lambda(EntrySimple(slot, s).js, ContextVar(0))
  }

  function JsAmbiguous(slot: nat, path: Path, program: Js, inverse: Js, isBlock: bool): Js {
    AmbiguousCall(path.Head(), EntryPath(slot, path, false).js,
                  Options(path.Head(), ObjectLit([]), program, inverse), isBlock)
  }

  function JsSexpr(slot: nat, known: KnownHelpers, s: Sexpr): Js {
    match Classify(known, s)
    case SimpleKind => JsSimple(slot, s)
    case HelperKind => JsHelper(slot, known, s, NullLit, NullLit)
    case AmbiguousKind => JsAmbiguous(slot, s.path, NullLit, NullLit, false)
  }

  /** The value of a block, before blockHelperMissing has its say on an ambiguous one. */
  function JsBlock(known: KnownHelpers, s: Sexpr, program: Js, inverse: Js): Js {
    match Classify(known, s)
    case HelperKind => JsHelper(1, known, s, program, inverse)
    case SimpleKind =>
      CallJs(BLOCK_HELPER_MISSING, ContextVar(0),
             [JsSimple(1, s), Options(s.path.original, ObjectLit([]), program, inverse)])
    case AmbiguousKind => JsAmbiguous(1, s.path, program, inverse, program != NullLit || inverse != NullLit)
  }

  /** Storing a value in stack1 and appending it. */
  function StoreItems(isSimple: bool, js: Js, between: seq<Item>): seq<Item> {
    [Code(Set(1, js))] + between
    + if isSimple then [Code(ReturnUnlessNull(Read(Slot(1)))), Code(ElseReturnEmpty)]
      else [Code(AppendUnlessNull(Read(Slot(1))))]
  }

  const SLOT_1: Js := Read(Slot(1))

  function MissingItems(name: string): seq<Item> {
    SetMissing(Get(HelpersVar, name), SLOT_1)
  }

  /** What a statement other than content adds to the source. */
  function Items(known: KnownHelpers, isSimple: bool, s: Statement): seq<Item>
    requires Generable(s)
  {
    match s
    case Mustache(e, escaped) =>
      if escaped then [AppendItem(isSimple, Escaped(JsSexpr(1, known, e)))]
      else StoreItems(isSimple, JsSexpr(1, known, e), [])
    case Block(e, b) =>
      StoreItems(isSimple, JsBlock(known, e, ProgramLit(ProgramEnvironment(known, b)),
                                   ProgramLit(InverseEnvironment(known, b))),
                 if Classify(known, e) == AmbiguousKind then MissingItems(e.path.Head()) else [])
    case Partial(name, c, h, indent) =>
      StoreItems(isSimple, JsPartial(known, name, c, h, indent), [])
    case Content(_) => []
    case Comment => []
  }

  function JsPartial(known: KnownHelpers, name: string, c: Option<Param>, h: Hash, indent: string): Js {
    PartialJs(Get(PartialsVar, name), indent, name,
              if c.Some? then EntryParam(1, known, c.value).js else ContextVar(0),
              if h.Hash? then EntryHash(1, known, h).js else UndefinedLit)
  }

  // ----- running the opcodes of statements -----

  /** Pushed, except that the name of the last helper may have changed. */
  predicate PushedTop(r: Outcome<State>, s: State, js: Js) {
    && r.Ok?
    && r.value == s.(inlineStack := s.inlineStack + [Value(js)],
                     lastContext := r.value.lastContext, lastHelper := r.value.lastHelper)
  }

  lemma {:induction false} RunSimple(env: Environment, e: Sexpr, s: State)
    ensures Pushed(Run(env, OpsSimple(e), s), s, [Value(JsSimple(SlotOf(s), e))])
  {
    var entry := EntrySimple(SlotOf(s), e);
    var ops := match e
               case DataRef(path) => [LookupData(path.depth, path.parts)]
               case Call(path, _, _) =>
                 if |path.parts| > 0 then OpsPath(path, false) else [GetContext(path.depth), PushContext];
    if e.DataRef? {
      RunData(env, e.path, s);
    } else {
      assert ops == OpsPath(e.path, false);
      RunPath(env, e.path, false, s);
    }
    var s1 := Run(env, ops, s).value;
    RunConcat(env, ops, [ResolvePossibleLambda], s);
    RunOne(env, ResolvePossibleLambda, s1);
    var below := s.(lastContext := s1.lastContext);
    assert s1 == Push(below, entry);
    PopPushed(below, entry);
  }

  lemma {:induction false} RunAmbiguous(env: Environment, path: Path, p: Option<nat>, i: Option<nat>, s: State)
    requires ValidChild(env, p) && ValidChild(env, i)
    ensures PushedTop(Run(env, OpsAmbiguous(path, p, i), s), s,
                      JsAmbiguous(SlotOf(s), path, ProgramJs(env, p), ProgramJs(env, i), p.Some? || i.Some?))
    ensures Run(env, OpsAmbiguous(path, p, i), s).value.lastHelper == Get(HelpersVar, path.Head())
  {
    var isBlock := p.Some? || i.Some?;
    var tail := OpsPath(path, false) + [InvokeAmbiguous(path.Head(), isBlock)];
    var s0 := s.(lastContext := path.depth);
    assert OpsAmbiguous(path, p, i) == [GetContext(path.depth)] + ([PushProgram(p), PushProgram(i)] + tail);
    RunConcat(env, [GetContext(path.depth)], [PushProgram(p), PushProgram(i)] + tail, s);
    RunOne(env, GetContext(path.depth), s);
    RunConcat(env, [PushProgram(p), PushProgram(i)], tail, s0);
    RunPrograms(env, p, i, s0);
    RunAmbiguousTail(env, path, Literal(ProgramJs(env, p)), Literal(ProgramJs(env, i)), isBlock, s0);
  }

  lemma {:induction false} RunPrograms(env: Environment, p: Option<nat>, i: Option<nat>, s: State)
    requires ValidChild(env, p) && ValidChild(env, i)
    ensures Run(env, [PushProgram(p), PushProgram(i)], s)
         == Ok(Push(Push(s, Literal(ProgramJs(env, p))), Literal(ProgramJs(env, i))))
  {
    RunTwo(env, PushProgram(p), PushProgram(i), s);
  }

  lemma {:induction false} RunAmbiguousTail(env: Environment, path: Path, p: Entry, i: Entry, isBlock: bool, s: State)
    ensures var r := Run(env, OpsPath(path, false) + [InvokeAmbiguous(path.Head(), isBlock)], Push(Push(s, p), i));
            && PushedTop(r, s, JsAmbiguous(SlotOf(s), path, p.js, i.js, isBlock))
            && r.value.lastHelper == Get(HelpersVar, path.Head())
  {
    var op, s1 := InvokeAmbiguous(path.Head(), isBlock), Push(Push(s, p), i);
    RunConcat(env, OpsPath(path, false), [op], s1);
    RunPath(env, path, false, s1);
    var s2 := Run(env, OpsPath(path, false), s1).value;
    RunOne(env, op, s2);
    var base := s.(lastContext := s2.lastContext);
    assert s2 == Push(Push(Push(base, p), i), EntryPath(SlotOf(s), path, false));
    AmbiguousPushed(base, p, i, EntryPath(SlotOf(s), path, false), path.Head(), isBlock);
  }

  lemma {:induction false} AmbiguousPushed(base: State, p: Entry, i: Entry, found: Entry, name: string, isBlock: bool)
    ensures AmbiguousEffect(Push(Push(Push(base, p), i), found), name, isBlock)
         == Ok(Push(base, Value(AmbiguousCall(name, found.js, Options(name, ObjectLit([]), p.js, i.js), isBlock)))
               .(lastHelper := Get(HelpersVar, name)))
  {
    var below := Push(Push(base, p), i);
    PopPushed(below, found);
    SetupNoParams(base, p, i, Literal(ObjectLit([])), name);
  }

  lemma {:induction false} RunSexpr(env: Environment, known: KnownHelpers, e: Sexpr, s: State)
    requires CompilableSexpr(e) && Ready(s)
    ensures PushedTop(Run(env, OpsSexpr(known, e), s), s, JsSexpr(SlotOf(s), known, e))
  {
    match Classify(known, e)
    case SimpleKind => RunSimple(env, e, s);
    case HelperKind => RunHelper(env, known, e, None, None, s);
    case AmbiguousKind => RunAmbiguous(env, e.path, None, None, s);
  }

  function PendingItems(isSimple: bool, pending: string): seq<Item> {
    if pending == "" then [] else [AppendItem(isSimple, Text(pending))]
  }

  /** The outcome of a run from s: the pending content and then the items were emitted. */
  predicate Emitted(r: Outcome<State>, s: State, isSimple: bool, items: seq<Item>) {
    && r.Ok?
    && r.value == s.(source := s.source + PendingItems(isSimple, s.pending) + items, pending := "",
                     lastContext := r.value.lastContext, lastHelper := r.value.lastHelper)
  }

  /** Between statements the stacks are empty. */
  predicate Clean(s: State) {
    Ready(s) && s.inlineStack == [] && s.compileStack == [] && s.stackSlot == 0
  }

  lemma {:induction false} FlushOne(isSimple: bool, s: State, js: Js)
    requires Clean(s)
    ensures FlushInline(isSimple, Push(s, Value(js)))
         == s.(source := s.source + PendingItems(isSimple, s.pending) + [Code(Set(1, js))], pending := "",
               compileStack := [Value(SLOT_1)], stackSlot := 1)
  {
    var t := Push(s, Value(js));
    assert t.inlineStack == [Value(js)] && t.inlineStack[1..] == [];
    assert t.(inlineStack := []) == s;
    var f := FlushEntry(isSimple, s, Value(js));
    assert FlushAll(isSimple, f, []) == f;
    assert f.compileStack == [Value(SLOT_1)];
  }

  lemma {:induction false} AppendPushed(isSimple: bool, s: State, js: Js)
    requires Clean(s)
    ensures Emitted(AppendEffect(isSimple, Push(s, Value(js))), s, isSimple, StoreItems(isSimple, js, []))
  {
    FlushOne(isSimple, s, js);
    AppendStored(isSimple, FlushInline(isSimple, Push(s, Value(js))));
    assert [Code(Set(1, js))] + [] == [Code(Set(1, js))];
  }

  /** append when the only operand is in stack1 already */
  lemma {:induction false} AppendStored(isSimple: bool, s: State)
    requires s.compileStack == [Value(SLOT_1)] && s.stackSlot == 1 && s.inlineStack == [] && s.pending == ""
    ensures AppendEffect(isSimple, s)
         == Ok(s.(compileStack := [], stackSlot := 0,
                  source := s.source + if isSimple then [Code(ReturnUnlessNull(SLOT_1)), Code(ElseReturnEmpty)]
                                       else [Code(AppendUnlessNull(SLOT_1))]))
  {
    assert FlushInline(isSimple, s) == s;
    assert s.compileStack[..0] == [];
    assert s.source + [] == s.source;
  }

  lemma {:induction false} RunAppend(env: Environment, ops: seq<Opcode>, s: State, js: Js)
    requires Clean(s) && PushedTop(Run(env, ops, s), s, js)
    ensures Emitted(Run(env, ops + [Append], s), s, env.isSimple, StoreItems(env.isSimple, js, []))
  {
    var t := Run(env, ops, s).value;
    var base := s.(lastContext := t.lastContext, lastHelper := t.lastHelper);
    assert t == Push(base, Value(js));
    RunConcat(env, ops, [Append], s);
    RunOne(env, Append, t);
    AppendPushed(env.isSimple, base, js);
  }

  lemma {:induction false} RunEscaped(env: Environment, ops: seq<Opcode>, s: State, js: Js)
    requires Clean(s) && PushedTop(Run(env, ops, s), s, js)
    ensures Emitted(Run(env, ops + [AppendEscaped], s), s, env.isSimple, [AppendItem(env.isSimple, Escaped(js))])
  {
    var t := Run(env, ops, s).value;
    var base := s.(lastContext := t.lastContext, lastHelper := t.lastHelper);
    assert t == Push(base, Value(js));
    RunConcat(env, ops, [AppendEscaped], s);
    RunOne(env, AppendEscaped, t);
    PopPushed(base, Value(js));
  }

  /** Program, inverse and an empty hash, pushed after the value of a block. */
  lemma {:induction false} RunBlockArguments(env: Environment, p: Option<nat>, i: Option<nat>, s: State)
    requires ValidChild(env, p) && ValidChild(env, i)
    ensures Run(env, OpsBodies(p, i), s)
         == Ok(Push(Push(Push(s, Literal(ProgramJs(env, p))), Literal(ProgramJs(env, i))), Literal(ObjectLit([]))))
  {
    assert OpsBodies(p, i) == [PushProgram(p), PushProgram(i)] + [EmptyHash];
    RunConcat(env, [PushProgram(p), PushProgram(i)], [EmptyHash], s);
    RunPrograms(env, p, i, s);
    RunOne(env, EmptyHash, Push(Push(s, Literal(ProgramJs(env, p))), Literal(ProgramJs(env, i))));
  }

  lemma {:induction false} RunSimpleBlock(env: Environment, e: Sexpr, p: Option<nat>, i: Option<nat>, s: State)
    requires e.Call? && ValidChild(env, p) && ValidChild(env, i)
    ensures PushedTop(
              Run(env, OpsSimple(e) + (OpsBodies(p, i) + [BlockValue(Some(e.path.original))]), s), s,
              CallJs(BLOCK_HELPER_MISSING, ContextVar(0),
                     [JsSimple(SlotOf(s), e),
                      Options(e.path.original, ObjectLit([]), ProgramJs(env, p), ProgramJs(env, i))]))
  {
    RunSimple(env, e, s);
    RunBlockValue(env, OpsSimple(e), Value(JsSimple(SlotOf(s), e)), p, i, e.path.original, s);
  }

  lemma {:induction false} RunBlockValue(env: Environment, ops: seq<Opcode>, v: Entry, p: Option<nat>, i: Option<nat>,
                                         name: string, s: State)
    requires Pushed(Run(env, ops, s), s, [v]) && ValidChild(env, p) && ValidChild(env, i)
    ensures PushedTop(
              Run(env, ops + (OpsBodies(p, i) + [BlockValue(Some(name))]), s), s,
              CallJs(BLOCK_HELPER_MISSING, ContextVar(0),
                     [v.js, Options(name, ObjectLit([]), ProgramJs(env, p), ProgramJs(env, i))]))
  {
    var pj, ij, h := Literal(ProgramJs(env, p)), Literal(ProgramJs(env, i)), Literal(ObjectLit([]));
    var s1 := Run(env, ops, s).value;
    var base := s.(lastContext := s1.lastContext);
    RunThen(env, ops, OpsBodies(p, i) + [BlockValue(Some(name))], s, s1);
    RunBlockArguments(env, p, i, s1);
    RunThen(env, OpsBodies(p, i), [BlockValue(Some(name))], s1, Push(Push(Push(s1, pj), ij), h));
    RunBlockOp(env, base, v, pj, ij, h, name, Push(Push(Push(s1, pj), ij), h));
  }

  lemma {:induction false} RunBlockOp(env: Environment, base: State, v: Entry, p: Entry, i: Entry, h: Entry,
                                      name: string, s: State)
    requires s == Push(Push(Push(Push(base, v), p), i), h)
    ensures Run(env, [BlockValue(Some(name))], s)
         == Ok(Push(base, Value(CallJs(BLOCK_HELPER_MISSING, ContextVar(0), [v.js, Options(name, h.js, p.js, i.js)]))))
  {
    RunOne(env, BlockValue(Some(name)), s);
    BlockPushed(base, v, p, i, h, name);
  }

  lemma {:induction false} BlockPushed(base: State, v: Entry, p: Entry, i: Entry, h: Entry, name: string)
    ensures BlockEffect(Push(Push(Push(Push(base, v), p), i), h), Some(name))
         == Ok(Push(base, Value(CallJs(BLOCK_HELPER_MISSING, ContextVar(0),
                                       [v.js, Options(name, h.js, p.js, i.js)]))))
  {
    SetupNoParams(Push(base, v), p, i, h, name);
    PopPushed(base, v);
  }

  lemma {:induction false} SetupNoParams(s: State, p: Entry, i: Entry, h: Entry, name: string)
    ensures SetupParams(Push(Push(Push(s, p), i), h), name, 0) == Ok((Options(name, h.js, p.js, i.js), [], s))
  {
    assert s.inlineStack + [] == s.inlineStack;
    SetupFrom(s, s, Push(s, p), Push(Push(s, p), i), [], p, i, h, name);
  }

  lemma {:induction false} AmbiguousBlockPushed(isSimple: bool, s: State, js: Js, p: Entry, i: Entry, h: Entry,
                                                name: string)
    requires Clean(s) && s.lastHelper == Get(HelpersVar, name)
    ensures AmbiguousBlockEffect(isSimple, Push(Push(Push(Push(s, Value(js)), p), i), h))
         == Ok(s.(source := s.source + PendingItems(isSimple, s.pending) + ([Code(Set(1, js))] + MissingItems(name)),
                  pending := "", compileStack := [Value(SLOT_1)], stackSlot := 1))
  {
    SetupNoParams(Push(s, Value(js)), p, i, h, "");
    FlushOne(isSimple, s, js);
    var f := FlushInline(isSimple, Push(s, Value(js)));
    assert Emit(isSimple, f, MissingItems(name)).source == f.source + MissingItems(name);
    assert f.source + MissingItems(name)
        == s.source + PendingItems(isSimple, s.pending) + ([Code(Set(1, js))] + MissingItems(name));
  }

  lemma {:induction false} RunAmbiguousBlock(env: Environment, path: Path, p: Option<nat>, i: Option<nat>, s: State)
    requires Clean(s) && ValidChild(env, p) && ValidChild(env, i)
    ensures Emitted(
              Run(env, OpsAmbiguous(path, p, i) + (OpsBodies(p, i) + [AmbiguousBlockValue]) + [Append], s),
              s, env.isSimple,
              StoreItems(env.isSimple,
                         JsAmbiguous(SlotOf(s), path, ProgramJs(env, p), ProgramJs(env, i), p.Some? || i.Some?),
                         MissingItems(path.Head())))
  {
    var ops := OpsAmbiguous(path, p, i);
    var js := JsAmbiguous(SlotOf(s), path, ProgramJs(env, p), ProgramJs(env, i), p.Some? || i.Some?);
    var pj, ij, h := Literal(ProgramJs(env, p)), Literal(ProgramJs(env, i)), Literal(ObjectLit([]));
    RunAmbiguous(env, path, p, i, s);
    var s1 := Run(env, ops, s).value;
    var base := s.(lastContext := s1.lastContext, lastHelper := s1.lastHelper);
    assert s1 == Push(base, Value(js));
    RunThen(env, ops, OpsBodies(p, i) + [AmbiguousBlockValue], s, s1);
    RunBlockArguments(env, p, i, s1);
    RunThen(env, OpsBodies(p, i), [AmbiguousBlockValue], s1, Push(Push(Push(s1, pj), ij), h));
    var s3 := RunMissingOp(env, base, js, pj, ij, h, path.Head(), Push(Push(Push(s1, pj), ij), h));
    RunThen(env, ops + (OpsBodies(p, i) + [AmbiguousBlockValue]), [Append], s, s3);
    MissingAppended(env, base, js, path.Head(), s3);
  }

  lemma {:induction false} RunMissingOp(env: Environment, base: State, js: Js, p: Entry, i: Entry, h: Entry,
                                        name: string, s: State)
    returns (t: State)
    requires Clean(base) && base.lastHelper == Get(HelpersVar, name)
    requires s == Push(Push(Push(Push(base, Value(js)), p), i), h)
    ensures Run(env, [AmbiguousBlockValue], s) == Ok(t)
    ensures t == base.(source := base.source + PendingItems(env.isSimple, base.pending)
                                 + ([Code(Set(1, js))] + MissingItems(name)),
                       pending := "", compileStack := [Value(SLOT_1)], stackSlot := 1)
  {
    RunOne(env, AmbiguousBlockValue, s);
    AmbiguousBlockPushed(env.isSimple, base, js, p, i, h, name);
    t := AmbiguousBlockEffect(env.isSimple, s).value;
  }

  lemma {:induction false} MissingAppended(env: Environment, s: State, js: Js, name: string, t: State)
    requires Clean(s)
    requires t == s.(source := s.source + PendingItems(env.isSimple, s.pending)
                               + ([Code(Set(1, js))] + MissingItems(name)),
                     pending := "", compileStack := [Value(SLOT_1)], stackSlot := 1)
    ensures Emitted(Run(env, [Append], t), s, env.isSimple, StoreItems(env.isSimple, js, MissingItems(name)))
  {
    RunOne(env, Append, t);
    AppendStored(env.isSimple, t);
    ItemsAssociate(s.source + PendingItems(env.isSimple, s.pending), [Code(Set(1, js))] + MissingItems(name),
                   if env.isSimple then [Code(ReturnUnlessNull(SLOT_1)), Code(ElseReturnEmpty)]
                   else [Code(AppendUnlessNull(SLOT_1))]);
  }

  lemma {:induction false} ItemsAssociate(a: seq<Item>, b: seq<Item>, c: seq<Item>)
    ensures a + b + c == a + (b + c)
  {
  }

  lemma {:induction false} RunPartial(env: Environment, known: KnownHelpers, e: Statement, s: State)
    requires e.Partial? && Generable(e) && Clean(s)
    ensures Emitted(Run(env, OpsStatement(known, e, 0), s), s, env.isSimple, Items(known, env.isSimple, e))
  {
    var h := if e.hash.Hash? then EntryHash(SlotOf(s), known, e.hash) else Value(UndefinedLit);
    var c := if e.context.Some? then EntryParam(SlotOf(s), known, e.context.value) else Literal(ContextVar(0));
    var hops := if e.hash.Hash? then OpsHash(known, e.hash.pairs) else [PushUndefined];
    var cops := if e.context.Some? then OpsParam(known, e.context.value) else [GetContext(0), PushContext];
    var op := InvokePartial(e.name, e.indent);
    if e.hash.Hash? {
      RunHash(env, known, e.hash.pairs, s);
    } else {
      RunOne(env, PushUndefined, s);
    }
    var s1 := Run(env, hops, s).value;
    if e.context.Some? {
      RunParam(env, known, e.context.value, s1);
    } else {
      RunTwo(env, GetContext(0), PushContext, s1);
    }
    RunBoth(env, hops, cops, s, [h], [c]);
    RunPartialCall(env, hops + cops, h, c, e.name, e.indent, s);
    RunAppend(env, hops + cops + [op], s, JsPartial(known, e.name, e.context, e.hash, e.indent));
    assert hops + cops + [op, Append] == hops + cops + [op] + [Append];
  }

  lemma {:induction false} RunPartialCall(env: Environment, ops: seq<Opcode>, h: Entry, c: Entry, name: string,
                                          indent: string, s: State)
    requires Pushed(Run(env, ops, s), s, [h] + [c])
    ensures PushedTop(Run(env, ops + [InvokePartial(name, indent)], s), s,
                      PartialJs(Get(PartialsVar, name), indent, name, c.js, h.js))
  {
    var s1 := Run(env, ops, s).value;
    RunThen(env, ops, [InvokePartial(name, indent)], s, s1);
    RunOne(env, InvokePartial(name, indent), s1);
    var base := s.(lastContext := s1.lastContext);
    assert s.inlineStack + ([h] + [c]) == s.inlineStack + [h] + [c];
    assert s1 == Push(Push(base, h), c);
    PartialPushed(base, h, c, name, indent);
  }

  lemma {:induction false} PartialPushed(s: State, h: Entry, c: Entry, name: string, indent: string)
    ensures PartialEffect(Push(Push(s, h), c), name, indent)
         == Ok(Push(s, Value(PartialJs(Get(PartialsVar, name), indent, name, c.js, h.js))))
  {
    PopPushed(Push(s, h), c);
    PopPushed(s, h);
  }

  /** The children of a statement are where its pushProgram opcodes look for them. */
  predicate ChildrenAt(env: Environment, known: KnownHelpers, s: Statement, guid: nat)
    requires CompilableStatement(s)
  {
    guid + ChildCount(s) <= |env.children|
    && env.children[guid..guid + ChildCount(s)] == Children(known, s)
  }

  lemma {:induction false} ChildIndices(env: Environment, known: KnownHelpers, s: Statement, guid: nat)
    requires s.Block? && CompilableStatement(s) && ChildrenAt(env, known, s, guid)
    ensures ValidChild(env, ProgramIndex(s.bodies, guid)) && ValidChild(env, InverseIndex(s.bodies, guid))
    ensures ProgramJs(env, ProgramIndex(s.bodies, guid)) == ProgramLit(ProgramEnvironment(known, s.bodies))
    ensures ProgramJs(env, InverseIndex(s.bodies, guid)) == ProgramLit(InverseEnvironment(known, s.bodies))
  {
    var c := ChildrenOfBodies(known, s.bodies);
    assert c == Children(known, s);
    assert |c| == if s.bodies.Both? then 2 else 1;
    SliceElement(env.children, guid, c, 0);
    if s.bodies.Both? {
      SliceElement(env.children, guid, c, 1);
    }
  }

  lemma {:induction false} SliceElement(all: seq<Environment>, start: nat, c: seq<Environment>, k: nat)
    requires start + |c| <= |all| && all[start..start + |c|] == c && k < |c|
    ensures all[start + k] == c[k]
  {
    assert all[start..start + |c|][k] == all[start + k];
  }

  lemma {:induction false} RunBlock(env: Environment, known: KnownHelpers, s: Statement, guid: nat, st: State)
    requires s.Block? && Generable(s) && Clean(st) && ChildrenAt(env, known, s, guid)
    ensures Emitted(Run(env, OpsStatement(known, s, guid), st), st, env.isSimple, Items(known, env.isSimple, s))
  {
    var p, i := ProgramIndex(s.bodies, guid), InverseIndex(s.bodies, guid);
    ChildIndices(env, known, s, guid);
    match Classify(known, s.sexpr)
    case HelperKind =>
      RunHelper(env, known, s.sexpr, p, i, st);
      RunAppend(env, OpsHelper(known, s.sexpr, p, i), st,
                JsBlock(known, s.sexpr, ProgramJs(env, p), ProgramJs(env, i)));
    case SimpleKind =>
      var ops := OpsSimple(s.sexpr) + (OpsBodies(p, i) + [BlockValue(Some(s.sexpr.path.original))]);
      RunSimpleBlock(env, s.sexpr, p, i, st);
      RunAppend(env, ops, st, JsBlock(known, s.sexpr, ProgramJs(env, p), ProgramJs(env, i)));
    case AmbiguousKind =>
      RunAmbiguousBlock(env, s.sexpr.path, p, i, st);
  }

  /** Content only extends what is pending; everything else is emitted after it. */
  function After(known: KnownHelpers, isSimple: bool, s: Statement, source: seq<Item>, pending: string): (seq<Item>,
                 string)
    requires Generable(s)
  {
    if s.Content? then (source, pending + s.text)
    else if s.Comment? then (source, pending)
    else (source + PendingItems(isSimple, pending) + Items(known, isSimple, s), "")
  }

  /** The outcome of a run from st: source and pending moved as After says, the rest is as it was. */
  predicate Advanced(r: Outcome<State>, st: State, known: KnownHelpers, isSimple: bool, s: Statement)
    requires Generable(s)
  {
    && r.Ok? && After(known, isSimple, s, st.source, st.pending) == (r.value.source, r.value.pending)
    && r.value == st.(source := r.value.source, pending := r.value.pending,
                      lastContext := r.value.lastContext, lastHelper := r.value.lastHelper)
  }

  lemma {:induction false} RunStatement(env: Environment, known: KnownHelpers, s: Statement, guid: nat, st: State)
    requires Generable(s) && Clean(st) && ChildrenAt(env, known, s, guid)
    ensures Advanced(Run(env, OpsStatement(known, s, guid), st), st, known, env.isSimple, s)
  {
    match s
    case Mustache(e, escaped) =>
      RunSexpr(env, known, e, st);
      if escaped {
        RunEscaped(env, OpsSexpr(known, e), st, JsSexpr(SlotOf(st), known, e));
      } else {
        RunAppend(env, OpsSexpr(known, e), st, JsSexpr(SlotOf(st), known, e));
      }
    case Block(_, _) => RunBlock(env, known, s, guid, st);
    case Partial(_, _, _, _) => RunPartial(env, known, s, st);
    case Content(text) =>
      if text != "" {
        RunOne(env, AppendContent(text), st);
      } else {
        assert st.pending + text == st.pending;
      }
    case Comment =>
  }

  function Source(known: KnownHelpers, isSimple: bool, ss: seq<Statement>, source: seq<Item>,
                  pending: string): seq<Item>
    requires GenerableAll(ss)
    decreases ss
  {
    if ss == [] then source + PendingItems(isSimple, pending)
    else
      var a := After(known, isSimple, ss[0], source, pending);
      Source(known, isSimple, ss[1..], a.0, a.1)
  }

  /** The run of all statements ends clean, having emitted their source. */
  predicate AllEmitted(env: Environment, known: KnownHelpers, ss: seq<Statement>, guid: nat, st: State)
    requires GenerableAll(ss)
  {
    var r := Run(env, OpsStatements(known, ss, guid), st);
    && r.Ok? && Clean(r.value)
    && Emit(env.isSimple, r.value, []).source == Source(known, env.isSimple, ss, st.source, st.pending)
  }

  lemma {:induction false} NothingEmitted(env: Environment, known: KnownHelpers, guid: nat, st: State)
    requires Clean(st)
    ensures AllEmitted(env, known, [], guid, st)
  {
    assert st.source + PendingItems(env.isSimple, st.pending) + []
        == st.source + PendingItems(env.isSimple, st.pending);
  }

  lemma {:induction false} OneMoreEmitted(env: Environment, known: KnownHelpers, ss: seq<Statement>, guid: nat,
                                          st: State, t: State)
    requires GenerableAll(ss) && ss != []
    requires Run(env, OpsStatement(known, ss[0], guid), st) == Ok(t)
    requires After(known, env.isSimple, ss[0], st.source, st.pending) == (t.source, t.pending)
    requires AllEmitted(env, known, ss[1..], guid + ChildCount(ss[0]), t)
    ensures AllEmitted(env, known, ss, guid, st)
  {
    RunThen(env, OpsStatement(known, ss[0], guid),
            OpsStatements(known, ss[1..], guid + ChildCount(ss[0])), st, t);
  }

  lemma {:induction false} RunStatements(env: Environment, known: KnownHelpers, ss: seq<Statement>, guid: nat,
                                         st: State)
    requires GenerableAll(ss) && Clean(st)
    requires guid <= |env.children| && env.children[guid..] == ChildrenOf(known, ss)
    ensures AllEmitted(env, known, ss, guid, st)
    decreases ss
  {
    if ss == [] {
      NothingEmitted(env, known, guid, st);
    } else {
      SplitChildren(env.children, guid, Children(known, ss[0]), ChildrenOf(known, ss[1..]));
      var t := RunFirst(env, known, ss[0], guid, st);
      RunStatements(env, known, ss[1..], guid + ChildCount(ss[0]), t);
      OneMoreEmitted(env, known, ss, guid, st, t);
    }
  }

  lemma {:induction false} RunFirst(env: Environment, known: KnownHelpers, s: Statement, guid: nat,
                                    st: State) returns (t: State)
    requires Generable(s) && Clean(st) && ChildrenAt(env, known, s, guid)
    ensures Run(env, OpsStatement(known, s, guid), st) == Ok(t) && Clean(t)
    ensures After(known, env.isSimple, s, st.source, st.pending) == (t.source, t.pending)
  {
    RunStatement(env, known, s, guid, st);
    t := Run(env, OpsStatement(known, s, guid), st).value;
  }

  lemma {:induction false} SplitChildren(all: seq<Environment>, guid: nat, c: seq<Environment>, rest: seq<Environment>)
    requires guid <= |all| && all[guid..] == c + rest
    ensures guid + |c| <= |all| && all[guid..guid + |c|] == c && all[guid + |c|..] == rest
  {
    assert |all| - guid == |c| + |rest|;
    assert all[guid..guid + |c|] == all[guid..][..|c|];
    assert all[guid + |c|..] == all[guid..][|c|..];
  }

  /** The program as if it were, or were not, a single statement. */
  function EnvironmentAs(known: KnownHelpers, p: Program, isSimple: bool): Environment
    requires CompilableStatements(p.statements)
  {
    Environment(OpsStatements(known, p.statements, 0), ChildrenOf(known, p.statements), isSimple)
  }

  lemma {:induction false} SourceGeneratedAs(known: KnownHelpers, p: Program, isSimple: bool)
    requires GenerableAll(p.statements)
    ensures Generate(EnvironmentAs(known, p, isSimple)) == Ok(Source(known, isSimple, p.statements, [], ""))
  {
    var env := EnvironmentAs(known, p, isSimple);
    assert env.children[0..] == env.children;
    RunStatements(env, known, p.statements, 0, INITIAL);
  }

  lemma {:induction false} SourceGenerated(known: KnownHelpers, p: Program)
    requires GenerableAll(p.statements)
    ensures Generate(EnvironmentOf(known, p)) == Ok(Source(known, |p.statements| == 1, p.statements, [], ""))
  {
    SourceGeneratedAs(known, p, |p.statements| == 1);
  }

  predicate Raises(env: Environment, ops: seq<Opcode>, s: State) {
    Run(env, ops, s) == Throw("TypeError")
  }

  lemma {:induction false} RaisesThen(env: Environment, a: seq<Opcode>, b: seq<Opcode>, s: State)
    requires Raises(env, a, s)
    ensures Raises(env, a + b, s)
  {
    RunConcat(env, a, b, s);
  }

  lemma {:induction false} ThenRaises(env: Environment, a: seq<Opcode>, b: seq<Opcode>, s: State, t: State)
    requires Run(env, a, s) == Ok(t) && Raises(env, b, t)
    ensures Raises(env, a + b, s)
  {
    RunConcat(env, a, b, s);
  }

  /** The opcodes of a block over a data reference raise, wherever they are. */
  lemma {:induction false} DataBlockRaises(env: Environment, known: KnownHelpers, s: Statement, guid: nat, st: State)
    requires CompilableStatement(s) && IsDataBlock(s) && ChildrenAt(env, known, s, guid)
    ensures Raises(env, OpsStatement(known, s, guid), st)
  {
    var p, i := ProgramIndex(s.bodies, guid), InverseIndex(s.bodies, guid);
    ChildIndices(env, known, s, guid);
    RunSimple(env, s.sexpr, st);
    UnnamedBlockRaises(env, OpsSimple(s.sexpr), p, i, st);
    RaisesThen(env, OpsSimple(s.sexpr) + (OpsBodies(p, i) + [BlockValue(None)]), [Append], st);
  }

  lemma {:induction false} UnnamedBlockRaises(env: Environment, ops: seq<Opcode>, p: Option<nat>, i: Option<nat>,
                                              s: State)
    requires Run(env, ops, s).Ok? && ValidChild(env, p) && ValidChild(env, i)
    ensures Raises(env, ops + (OpsBodies(p, i) + [BlockValue(None)]), s)
  {
    var s1 := Run(env, ops, s).value;
    RunBlockArguments(env, p, i, s1);
    var s2 := Run(env, OpsBodies(p, i), s1).value;
    RunOne(env, BlockValue(None), s2);
    ThenRaises(env, OpsBodies(p, i), [BlockValue(None)], s1, s2);
    ThenRaises(env, ops, OpsBodies(p, i) + [BlockValue(None)], s, s1);
  }

  lemma {:induction false} UnnamedRaises(env: Environment, known: KnownHelpers, ss: seq<Statement>, guid: nat,
                                         st: State)
    requires CompilableStatements(ss) && !NamedBlocks(ss) && Clean(st)
    requires guid <= |env.children| && env.children[guid..] == ChildrenOf(known, ss)
    ensures Raises(env, OpsStatements(known, ss, guid), st)
    decreases ss
  {
    var next := guid + ChildCount(ss[0]);
    var first, rest := OpsStatement(known, ss[0], guid), OpsStatements(known, ss[1..], next);
    SplitChildren(env.children, guid, Children(known, ss[0]), ChildrenOf(known, ss[1..]));
    if IsDataBlock(ss[0]) {
      DataBlockRaises(env, known, ss[0], guid, st);
      RaisesThen(env, first, rest, st);
    } else {
      var t := RunFirst(env, known, ss[0], guid, st);
      UnnamedRaises(env, known, ss[1..], next, t);
      ThenRaises(env, first, rest, st, t);
    }
  }

  /**
   For every template that compiles, the second stage raises none of its errors
   ("Invalid stack pop", "replaceStack on non-inline", content left on the
   stack), and its output is the direct translation of the statements; except
   that a block over a data reference raises a TypeError.
   */
  lemma {:induction false} GenerateSucceedsIff(known: KnownHelpers, p: Program)
    requires CompilableStatements(p.statements)
    ensures Generate(EnvironmentOf(known, p))
         == if NamedBlocks(p.statements) then Ok(Source(known, |p.statements| == 1, p.statements, [], ""))
            else Throw("TypeError")
  {
    if NamedBlocks(p.statements) {
      SourceGenerated(known, p);
    } else {
      var env := EnvironmentOf(known, p);
      assert env.children[0..] == env.children;
      UnnamedRaises(env, known, p.statements, 0, INITIAL);
    }
  }
}
