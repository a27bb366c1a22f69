/**
 The second stage of the template compiler: JavaScriptCompiler runs the opcodes
 of a program over a symbolic operand stack and emits source.  The operand
 stack is split in two: compileStack holds operands already stored in a
 variable, and inlineStack, above it, holds expressions not yet emitted.

 The functions give the effect of each opcode on a value of type State.
 */
module HandlebarsGenerator {
  import opened Wrappers
  import opened HandlebarsSyntax

  /** A stack entry: the Literal wrapper marks what may be repeated at no cost. */
  datatype Entry = Literal(js: Js) | Value(js: Js)

  datatype State = State(
    inlineStack: seq<Entry>,
    compileStack: seq<Entry>,
    stackSlot: nat,
    hash: Option<seq<Field>>,
    hashes: seq<seq<Field>>,
    lastContext: nat,
    lastHelper: Js,
    source: seq<Item>,
    pending: string)

  datatype Outcome<+T> = Ok(value: T) | Throw(message: string) {
    predicate IsFailure() { Throw? }
    function PropagateFailure<U>(): Outcome<U> requires Throw? { Throw(message) }
    function Extract(): T requires Ok? { value }
  }

  const INITIAL: State := State([], [], 0, None, [], 0, UndefinedLit, [], "")

  // ----- stack primitives -----

  function Push(s: State, e: Entry): State {
    s.(inlineStack := s.inlineStack + [e])
  }

  /** popStack(wrapped) */
  function PopEntry(s: State, wrapped: bool): Outcome<(Entry, State)> {
    if s.inlineStack != [] then
      var last := |s.inlineStack| - 1;
      Ok((s.inlineStack[last], s.(inlineStack := s.inlineStack[..last])))
    else if s.compileStack == [] then
      // nothing to pop: undefined is no literal, so the slot counter is consulted
      if s.stackSlot == 0 then Throw("Invalid stack pop")
      else Ok((Value(UndefinedLit), s.(stackSlot := s.stackSlot - 1)))
    else
      var last := |s.compileStack| - 1;
      var e := s.compileStack[last];
      var s' := s.(compileStack := s.compileStack[..last]);
      if !wrapped && e.Literal? then Ok((e, s'))
      else if s.stackSlot == 0 then Throw("Invalid stack pop")
      else Ok((e, s'.(stackSlot := s.stackSlot - 1)))
  }

  function Pop(s: State): Outcome<(Js, State)> {
    var r :- PopEntry(s, false);
    Ok((r.0.js, r.1))
  }

  /** pushSource(line) */
  function Emit(isSimple: bool, s: State, items: seq<Item>): State {
    var pending := if s.pending == "" then [] else [AppendItem(isSimple, Text(s.pending))];
    s.(source := s.source + pending + items, pending := "")
  }

  /** appendToBuffer(chunk) */
  function AppendItem(isSimple: bool, chunk: Chunk): Item {
    if isSimple then Code(Return(chunk)) else Buffer(chunk)
  }

  /** One round of flushInline's loop. */
  function FlushEntry(isSimple: bool, s: State, e: Entry): State {
    if e.Literal? then s.(compileStack := s.compileStack + [e])
    else
      var slot := s.stackSlot + 1;
      var s' := Emit(isSimple, s.(stackSlot := slot), [Code(Set(slot, e.js))]);
      s'.(compileStack := s'.compileStack + [Value(Read(Slot(slot)))])
  }

  function FlushAll(isSimple: bool, s: State, es: seq<Entry>): State
    decreases es
  {
    if es == [] then s else FlushAll(isSimple, FlushEntry(isSimple, s, es[0]), es[1..])
  }

  function FlushInline(isSimple: bool, s: State): State {
    FlushAll(isSimple, s.(inlineStack := []), s.inlineStack)
  }

  // ----- lookups -----

  /** How a lookup guards against a missing object. */
  datatype Guard = NullGuard | TruthGuard

  function Guarded(g: Guard, test: Js, again: Js, part: string): Js {
    match g
    case NullGuard => IfNotNull(test, Get(again, part), again)
    case TruthGuard => And(test, Get(again, part))
  }

  /** The variable that lookups overwrite: that of the last stored operand, if there is one. */
  function Scratch(stackSlot: nat): nat {
    if stackSlot == 0 then 1 else stackSlot
  }

  /** replaceStack, with the callbacks of lookupOnContext and lookupData */
  function ReplaceStack(s: State, g: Guard, part: string): Outcome<State> {
    if s.inlineStack == [] then Throw("replaceStack on non-inline")
    else
      var last := |s.inlineStack| - 1;
      var e := s.inlineStack[last];
      var slot := Scratch(s.stackSlot);
      var js := if e.Literal? then Guarded(g, e.js, e.js, part)
                else Guarded(g, Assign(Slot(slot), e.js), Read(Slot(slot)), part);
      Ok(s.(inlineStack := s.inlineStack[..last] + [Value(js)]))
  }

  function ReplaceAll(s: State, g: Guard, parts: seq<string>): Outcome<State>
    decreases parts
  {
    if parts == [] then Ok(s)
    else
      var s' :- ReplaceStack(s, g, parts[0]);
      ReplaceAll(s', g, parts[1..])
  }

  /** A lookup of one more part, through a scratch variable unless the object is a literal. */
  function Replaced(slot: nat, e: Entry, g: Guard, part: string): Js {
    if e.Literal? then Guarded(g, e.js, e.js, part)
    else Guarded(g, Assign(Slot(slot), e.js), Read(Slot(slot)), part)
  }

  function Looked(slot: nat, e: Entry, g: Guard, parts: seq<string>): Entry
    decreases parts
  {
    if parts == [] then e else Looked(slot, Value(Replaced(slot, e, g, parts[0])), g, parts[1..])
  }

  lemma {:induction false} ReplaceLooks(s: State, e: Entry, g: Guard, parts: seq<string>)
    ensures ReplaceAll(Push(s, e), g, parts) == Ok(Push(s, Looked(Scratch(s.stackSlot), e, g, parts)))
    decreases parts
  {
    if parts != [] {
      var e' := Value(Replaced(Scratch(s.stackSlot), e, g, parts[0]));
      var t := Push(s, e);
      assert t.inlineStack[..|t.inlineStack| - 1] == s.inlineStack;
      assert ReplaceStack(t, g, parts[0]) == Ok(Push(s, e'));
      ReplaceLooks(s, e', g, parts[1..]);
    }
  }

  lemma {:induction false} ReplaceAllStep(s: State, g: Guard, parts: seq<string>, d: nat)
    requires d < |parts|
    ensures var r := ReplaceStack(s, g, parts[d]);
            if r.Ok? then ReplaceAll(s, g, parts[d..]) == ReplaceAll(r.value, g, parts[d + 1..])
            else !ReplaceAll(s, g, parts[d..]).Ok?
  {
    assert parts[d..][1..] == parts[d + 1..];
  }

  // ----- calls -----

  /** Pops n parameters; the last one is on top. */
  function PopParams(s: State, n: nat): Outcome<(seq<Js>, State)>
    decreases n
  {
    if n == 0 then Ok(([], s))
    else
      var p :- Pop(s);
      var rest :- PopParams(p.1, n - 1);
      Ok((rest.0 + [p.0], rest.1))
  }

  function Jss(es: seq<Entry>): (js: seq<Js>)
    ensures |js| == |es|
  {
    if es == [] then [] else [es[0].js] + Jss(es[1..])
  }

  lemma {:induction false} JssSnoc(es: seq<Entry>, e: Entry)
    ensures Jss(es + [e]) == Jss(es) + [e.js]
  {
    if es != [] {
      assert (es + [e])[1..] == es[1..] + [e];
      JssSnoc(es[1..], e);
    } else {
      assert es + [e] == [e];
    }
  }

  /** The options object of a call: setupOptions */
  function Options(name: string, hash: Js, program: Js, inverse: Js): Js {
    ObjectLit(
      [Field("name", StringLit(name)), Field("hash", hash)]
      + (if program != NullLit || inverse != NullLit
         then [Field("fn", if program == NullLit then Noop else program),
               Field("inverse", if inverse == NullLit then Noop else inverse)]
         else [])
      + [Field("data", DataVar)])
  }

  /** setupParams: the options and the parameters of a call of arity n */
  function SetupParams(s: State, name: string, n: nat): Outcome<(Js, seq<Js>, State)> {
    var h :- Pop(s);
    var i :- Pop(h.1);
    var p :- Pop(i.1);
    var ps :- PopParams(p.1, n);
    Ok((Options(name, h.0, p.0, i.0), ps.0, ps.1))
  }

  const HELPER_MISSING: Js := Get(HelpersVar, "helperMissing")
  const BLOCK_HELPER_MISSING: Js := Get(HelpersVar, "blockHelperMissing")

  function HelperCall(callee: Js, params: seq<Js>, options: Js): Js {
    CallJs(callee, ContextVar(0), params + [options])
  }

  function AmbiguousCall(name: string, found: Js, options: Js, isBlock: bool): Js {
    var choose := Assign(HelperRegister,
                         IfNotNull(Assign(HelperRegister, Or(Get(HelpersVar, name), found)),
                                   Read(HelperRegister), HELPER_MISSING));
    var argument := if isBlock then Read(OptionsRegister) else options;
    var use := IfFunction(Read(HelperRegister),
                          CallJs(Read(HelperRegister), ContextVar(0), [argument]),
                          Read(HelperRegister));
    if isBlock then Comma(choose, Comma(Assign(OptionsRegister, options), use))
    else Comma(choose, use)
  }

  // ----- the opcodes -----

  function LookupEffect(s: State, parts: seq<string>, falsy: bool): Outcome<State> {
    ReplaceAll(Push(s, Literal(ContextVar(s.lastContext))), if falsy then TruthGuard else NullGuard, parts)
  }

  function DataEffect(s: State, depth: nat, parts: seq<string>): Outcome<State> {
    ReplaceAll(Push(s, Literal(if depth == 0 then DataVar else DataAt(depth))), TruthGuard, parts)
  }

  function ProgramEffect(env: Environment, s: State, child: Option<nat>): Outcome<State> {
    if child.None? then Ok(Push(s, Literal(NullLit)))
    else if child.value < |env.children| then Ok(Push(s, Literal(ProgramRef(KeyOf(env.children[child.value])))))
    else Throw("TypeError")
  }

  function PushHashEffect(s: State): State {
    s.(hashes := if s.hash.Some? then s.hashes + [s.hash.value] else s.hashes, hash := Some([]))
  }

  function AssignEffect(s: State, key: string): Outcome<State> {
    var v :- Pop(s);
    if v.1.hash.None? then Throw("TypeError")
    else Ok(v.1.(hash := Some(v.1.hash.value + [Field(key, v.0)])))
  }

  function PopHashEffect(s: State): Outcome<State> {
    if s.hash.None? then Throw("TypeError")
    else
      var s' := if s.hashes == [] then s.(hash := None)
                else s.(hash := Some(s.hashes[|s.hashes| - 1]), hashes := s.hashes[..|s.hashes| - 1]);
      Ok(Push(s', Value(ObjectLit(s.hash.value))))
  }

  function LambdaEffect(s: State): Outcome<State> {
    var v :- Pop(s);
    Ok(Push(v.1, Value(Lambda(v.0, ContextVar(0)))))
  }

  function Callee(name: string, found: Js, isSimple: bool): Js {
    var fallback := Or(found, HELPER_MISSING);
    if isSimple then Or(Get(HelpersVar, name), fallback) else fallback
  }

  function HelperEffect(s: State, arity: nat, name: string, isSimple: bool): Outcome<State> {
    var found :- Pop(s);
    var call :- SetupParams(found.1, name, arity);
    Ok(Push(call.2, Value(HelperCall(Callee(name, found.0, isSimple), call.1, call.0))))
  }

  function KnownHelperEffect(s: State, arity: nat, name: string): Outcome<State> {
    var call :- SetupParams(s, name, arity);
    Ok(Push(call.2, Value(HelperCall(Get(HelpersVar, name), call.1, call.0))))
  }

  function AmbiguousEffect(s: State, name: string, isBlock: bool): Outcome<State> {
    var found :- Pop(s);
    var call :- SetupParams(Push(found.1, Literal(ObjectLit([]))), name, 0);
    Ok(Push(call.2, Value(AmbiguousCall(name, found.0, call.0, isBlock))).(lastHelper := Get(HelpersVar, name)))
  }

  function PartialEffect(s: State, name: string, indent: string): Outcome<State> {
    var context :- Pop(s);
    var hash :- Pop(context.1);
    Ok(Push(hash.1, Value(PartialJs(Get(PartialsVar, name), indent, name, context.0, hash.0))))
  }

  /** Quoting a name that is undefined raises. */
  function BlockEffect(s: State, name: Option<string>): Outcome<State> {
    if name.None? then Throw("TypeError") else BlockEffectNamed(s, name.value)
  }

  function BlockEffectNamed(s: State, name: string): Outcome<State> {
    var call :- SetupParams(s, name, 0);
    BlockCall(call.2, call.0)
  }

  function BlockCall(s: State, options: Js): Outcome<State> {
    var v :- Pop(s);
    Ok(Push(v.1, Value(CallJs(BLOCK_HELPER_MISSING, ContextVar(0), [v.0, options]))))
  }

  function AmbiguousBlockEffect(isSimple: bool, s: State): Outcome<State> {
    var call :- SetupParams(s, "", 0);
    Ok(MissingEffect(isSimple, FlushInline(isSimple, call.2)))
  }

  /** ambiguousBlockValue writes an assignment to its top operand, whatever that is. */
  function MissingEffect(isSimple: bool, s: State): State {
    var top := if s.compileStack == [] then UndefinedLit else s.compileStack[|s.compileStack| - 1].js;
    Emit(isSimple, s, SetMissing(s.lastHelper, top))
  }

  function SetMissing(helper: Js, top: Js): seq<Item> {
    [Code(SetUnless(helper, top, CallJs(BLOCK_HELPER_MISSING, ContextVar(0), [top, Read(OptionsRegister)])))]
  }

  function AppendEffect(isSimple: bool, s: State): Outcome<State> {
    var v :- Pop(FlushInline(isSimple, s));
    Ok(Emit(isSimple, v.1,
            if isSimple then [Code(ReturnUnlessNull(v.0)), Code(ElseReturnEmpty)]
            else [Code(AppendUnlessNull(v.0))]))
  }

  function AppendEscapedEffect(isSimple: bool, s: State): Outcome<State> {
    var v :- Pop(s);
    Ok(Emit(isSimple, v.1, [AppendItem(isSimple, Escaped(v.0))]))
  }

  function Step(env: Environment, op: Opcode, s: State): Outcome<State> {
    match op
    case GetContext(depth) => Ok(s.(lastContext := depth))
    case PushContext => Ok(Push(s, Literal(ContextVar(s.lastContext))))
    case LookupOnContext(parts, falsy, _) => LookupEffect(s, parts, falsy)
    case LookupData(depth, parts) => DataEffect(s, depth, parts)
    case PushString(text) => Ok(Push(s, Literal(StringLit(text))))
    case PushLiteral(text) => Ok(Push(s, Literal(RawLit(text))))
    case PushUndefined => Ok(Push(s, Value(UndefinedLit)))
    case PushProgram(child) => ProgramEffect(env, s, child)
    case PushHash => Ok(PushHashEffect(s))
    case AssignToHash(key) => AssignEffect(s, key)
    case PopHash => PopHashEffect(s)
    case EmptyHash => Ok(Push(s, Literal(ObjectLit([]))))
    case ResolvePossibleLambda => LambdaEffect(s)
    case InvokeHelper(arity, name, isSimple) => HelperEffect(s, arity, name, isSimple)
    case InvokeKnownHelper(arity, name) => KnownHelperEffect(s, arity, name)
    case InvokeAmbiguous(name, isBlock) => AmbiguousEffect(s, name, isBlock)
    case InvokePartial(name, indent) => PartialEffect(s, name, indent)
    case BlockValue(name) => BlockEffect(s, name)
    case AmbiguousBlockValue => AmbiguousBlockEffect(env.isSimple, s)
    case Append => AppendEffect(env.isSimple, s)
    case AppendEscaped => AppendEscapedEffect(env.isSimple, s)
    case AppendContent(text) => Ok(s.(pending := s.pending + text))
  }

  function Run(env: Environment, ops: seq<Opcode>, s: State): Outcome<State>
    decreases ops
  {
    if ops == [] then Ok(s)
    else
      var s' :- Step(env, ops[0], s);
      Run(env, ops[1..], s')
  }

  /** compile: all opcodes, the last pending content, and the final check */
  function Generate(env: Environment): Outcome<seq<Item>> {
    var s :- Run(env, env.opcodes, INITIAL);
    var s' := Emit(env.isSimple, s, []);
    if s'.stackSlot != 0 || s'.inlineStack != [] || s'.compileStack != []
    then Throw("Compile completed with content left on stack")
    else Ok(s'.source)
  }

  lemma {:induction false} RunConcat(env: Environment, a: seq<Opcode>, b: seq<Opcode>, s: State)
    ensures Run(env, a + b, s) == (var t :- Run(env, a, s); Run(env, b, t))
    decreases a
  {
    if a == [] {
      assert a + b == b;
    } else {
      assert (a + b)[1..] == a[1..] + b;
      if Step(env, a[0], s).Ok? {
        RunConcat(env, a[1..], b, Step(env, a[0], s).value);
      }
    }
  }

  /** The second stage sees no more of a program than its opcodes, the keys of its children, and isSimple. */
  lemma {:induction false} SameRun(a: Environment, b: Environment, ops: seq<Opcode>, s: State)
    requires KeysOf(a.children) == KeysOf(b.children) && a.isSimple == b.isSimple
    ensures Run(a, ops, s) == Run(b, ops, s)
    decreases ops
  {
    if ops != [] {
      assert Step(a, ops[0], s) == Step(b, ops[0], s);
      if Step(a, ops[0], s).Ok? {
        SameRun(a, b, ops[1..], Step(a, ops[0], s).value);
      }
    }
  }

  lemma {:induction false} SameGenerate(a: Environment, b: Environment)
    requires KeyOf(a) == KeyOf(b) && a.isSimple == b.isSimple
    ensures Generate(a) == Generate(b)
  {
    SameRun(a, b, a.opcodes, INITIAL);
  }
}
