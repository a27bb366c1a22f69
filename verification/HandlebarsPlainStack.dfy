/**
 The two-level operand stack against one plain stack.  The plain machine has a
 single sequence of operands and a mark: those below it have been flushed.  It
 reads and drops operands by position and has no slot counter; the number of
 variables in use is the number of values below the mark.
 */
module HandlebarsPlainStack {
  import opened Wrappers
  import opened Sequences
  import opened HandlebarsSyntax
  import opened HandlebarsGenerator

  datatype Plain = Plain(
    operands: seq<Entry>,
    mark: nat,
    hash: Option<seq<Field>>,
    hashes: seq<seq<Field>>,
    lastContext: nat,
    lastHelper: Js,
    source: seq<Item>,
    pending: string)

  /** The operands that are held in variables. */
  function Stored(es: seq<Entry>): nat {
    if es == [] then 0 else Stored(es[..|es| - 1]) + if es[|es| - 1].Value? then 1 else 0
  }

  /** The plain stack that the two stacks stand for. */
  function Abs(s: State): Plain {
    Plain(s.compileStack + s.inlineStack, |s.compileStack|, s.hash, s.hashes, s.lastContext, s.lastHelper,
          s.source, s.pending)
  }

  /** stackSlot counts the values in compileStack. */
  predicate SlotInvariant(s: State) {
    s.stackSlot == Stored(s.compileStack)
  }

  // ----- the plain machine -----

  predicate Sound(p: Plain) {
    p.mark <= |p.operands|
  }

  function Slots(p: Plain): nat
    requires Sound(p)
  {
    Stored(p.operands[..p.mark])
  }

  /** The k-th operand from the top, the topmost being the first. */
  function Top(p: Plain, k: nat): Js
    requires 0 < k <= |p.operands|
  {
    p.operands[|p.operands| - k].js
  }

  function Pushed(p: Plain, e: Entry): Plain {
    p.(operands := p.operands + [e])
  }

  function Dropped(p: Plain, k: nat): Plain
    requires k <= |p.operands|
  {
    var left := |p.operands| - k;
    p.(operands := p.operands[..left], mark := if p.mark <= left then p.mark else left)
  }

  function Emitted(isSimple: bool, p: Plain, items: seq<Item>): Plain {
    p.(source := p.source + (if p.pending == "" then [] else [AppendItem(isSimple, Text(p.pending))]) + items,
       pending := "")
  }

  /** Operands after a flush, when k variables are in use: each value is read from a variable of its own. */
  function Named(es: seq<Entry>, k: nat): (r: seq<Entry>)
    ensures |r| == |es|
  {
    if es == [] then []
    else if es[0].Literal? then [es[0]] + Named(es[1..], k)
    else [Value(Read(Slot(k + 1)))] + Named(es[1..], k + 1)
  }

  /** The assignments to these variables, in order. */
  function Assignments(es: seq<Entry>, k: nat): seq<Item> {
    if es == [] then []
    else if es[0].Literal? then Assignments(es[1..], k)
    else [Code(Set(k + 1, es[0].js))] + Assignments(es[1..], k + 1)
  }

  function Flushed(isSimple: bool, p: Plain): Plain
    requires Sound(p)
  {
    var k, inl := Slots(p), p.operands[p.mark..];
    var q := p.(operands := p.operands[..p.mark] + Named(inl, k), mark := |p.operands|);
    var items := Assignments(inl, k);
    if items == [] then q else Emitted(isSimple, q, items)
  }

  /** The options of a call, whose hash is the k-th operand; the inverse and the program are below it. */
  function OptionsAt(p: Plain, name: string, k: nat): Js
    requires 0 < k && k + 2 <= |p.operands|
  {
    Options(name, Top(p, k), Top(p, k + 2), Top(p, k + 1))
  }

  /** n parameters below the first k operands, in the order in which they were pushed. */
  function ParamsAt(p: Plain, k: nat, n: nat): seq<Js>
    requires k + n <= |p.operands|
  {
    var end := |p.operands| - k;
    Jss(p.operands[end - n..end])
  }

  const EMPTY := "Invalid stack pop"

  /** An opcode that replaces its operands by one. */
  function Replacing(p: Plain, k: nat, e: Entry): Plain
    requires k <= |p.operands|
  {
    Pushed(Dropped(p, k), e)
  }

  function PlainLookup(p: Plain, e: Entry, g: Guard, parts: seq<string>): Plain
    requires Sound(p)
  {
    Pushed(p, Looked(Scratch(Slots(p)), e, g, parts))
  }

  function PlainAssign(p: Plain, key: string): Outcome<Plain> {
    if |p.operands| < 1 then Throw(EMPTY)
    else if p.hash.None? then Throw("TypeError")
    else Ok(Dropped(p, 1).(hash := Some(p.hash.value + [Field(key, Top(p, 1))])))
  }

  function PlainPopHash(p: Plain): Outcome<Plain> {
    if p.hash.None? then Throw("TypeError")
    else
      var e := Value(ObjectLit(p.hash.value));
      var last := |p.hashes| - 1;
      Ok(if p.hashes == [] then Pushed(p, e).(hash := None)
         else Pushed(p, e).(hash := Some(p.hashes[last]), hashes := p.hashes[..last]))
  }

  function PlainHelper(p: Plain, arity: nat, name: string, isSimple: bool): Outcome<Plain> {
    if |p.operands| < arity + 4 then Throw(EMPTY)
    else Ok(Replacing(p, arity + 4, Value(HelperCall(Callee(name, Top(p, 1), isSimple), ParamsAt(p, 4, arity),
                                                     OptionsAt(p, name, 2)))))
  }

  function PlainKnownHelper(p: Plain, arity: nat, name: string): Outcome<Plain> {
    if |p.operands| < arity + 3 then Throw(EMPTY)
    else Ok(Replacing(p, arity + 3, Value(HelperCall(Get(HelpersVar, name), ParamsAt(p, 3, arity),
                                                     OptionsAt(p, name, 1)))))
  }

  /** The hash is empty, and below what was found are the inverse and the program. */
  function PlainAmbiguous(p: Plain, name: string, isBlock: bool): Outcome<Plain> {
    if |p.operands| < 3 then Throw(EMPTY)
    else
      var options := Options(name, ObjectLit([]), Top(p, 3), Top(p, 2));
      Ok(Replacing(p, 3, Value(AmbiguousCall(name, Top(p, 1), options, isBlock))).(lastHelper := Get(HelpersVar, name)))
  }

  function PlainPartial(p: Plain, name: string, indent: string): Outcome<Plain> {
    if |p.operands| < 2 then Throw(EMPTY)
    else Ok(Replacing(p, 2, Value(PartialJs(Get(PartialsVar, name), indent, name, Top(p, 1), Top(p, 2)))))
  }

  function PlainBlock(p: Plain, name: Option<string>): Outcome<Plain> {
    if name.None? then Throw("TypeError")
    else if |p.operands| < 4 then Throw(EMPTY)
    else Ok(Replacing(p, 4, Value(CallJs(BLOCK_HELPER_MISSING, ContextVar(0),
                                         [Top(p, 4), OptionsAt(p, name.value, 1)]))))
  }

  function PlainAmbiguousBlock(isSimple: bool, p: Plain): Outcome<Plain>
    requires Sound(p)
  {
    if |p.operands| < 3 then Throw(EMPTY) else Ok(PlainMissing(isSimple, Flushed(isSimple, Dropped(p, 3))))
  }

  function PlainMissing(isSimple: bool, p: Plain): Plain {
    Emitted(isSimple, p, SetMissing(p.lastHelper, if p.operands == [] then UndefinedLit else Top(p, 1)))
  }

  function PlainAppend(isSimple: bool, p: Plain): Outcome<Plain>
    requires Sound(p)
  {
    if |p.operands| < 1 then Throw(EMPTY)
    else
      var q := Flushed(isSimple, p);
      Ok(Emitted(isSimple, Dropped(q, 1),
                 if isSimple then [Code(ReturnUnlessNull(Top(q, 1))), Code(ElseReturnEmpty)]
                 else [Code(AppendUnlessNull(Top(q, 1)))]))
  }

  function PlainStep(env: Environment, op: Opcode, p: Plain): (r: Outcome<Plain>)
    requires Sound(p)
    ensures r.Ok? ==> Sound(r.value)
  {
    match op
    case GetContext(depth) => Ok(p.(lastContext := depth))
    case PushContext => Ok(Pushed(p, Literal(ContextVar(p.lastContext))))
    case LookupOnContext(parts, falsy, _) =>
      Ok(PlainLookup(p, Literal(ContextVar(p.lastContext)), if falsy then TruthGuard else NullGuard, parts))
    case LookupData(depth, parts) =>
      Ok(PlainLookup(p, Literal(if depth == 0 then DataVar else DataAt(depth)), TruthGuard, parts))
    case PushString(text) => Ok(Pushed(p, Literal(StringLit(text))))
    case PushLiteral(text) => Ok(Pushed(p, Literal(RawLit(text))))
    case PushUndefined => Ok(Pushed(p, Value(UndefinedLit)))
    case PushProgram(child) =>
      if child.None? then Ok(Pushed(p, Literal(NullLit)))
      else if child.value < |env.children| then Ok(Pushed(p, Literal(ProgramRef(KeyOf(env.children[child.value])))))
      else Throw("TypeError")
    case PushHash =>
      Ok(p.(hashes := if p.hash.Some? then p.hashes + [p.hash.value] else p.hashes, hash := Some([])))
    case AssignToHash(key) => PlainAssign(p, key)
    case PopHash => PlainPopHash(p)
    case EmptyHash => Ok(Pushed(p, Literal(ObjectLit([]))))
    case ResolvePossibleLambda =>
      if |p.operands| < 1 then Throw(EMPTY) else Ok(Replacing(p, 1, Value(Lambda(Top(p, 1), ContextVar(0)))))
    case InvokeHelper(arity, name, isSimple) => PlainHelper(p, arity, name, isSimple)
    case InvokeKnownHelper(arity, name) => PlainKnownHelper(p, arity, name)
    case InvokeAmbiguous(name, isBlock) => PlainAmbiguous(p, name, isBlock)
    case InvokePartial(name, indent) => PlainPartial(p, name, indent)
    case BlockValue(name) => PlainBlock(p, name)
    case AmbiguousBlockValue => PlainAmbiguousBlock(env.isSimple, p)
    case Append => PlainAppend(env.isSimple, p)
    case AppendEscaped =>
      if |p.operands| < 1 then Throw(EMPTY)
      else Ok(Emitted(env.isSimple, Dropped(p, 1), [AppendItem(env.isSimple, Escaped(Top(p, 1)))]))
    case AppendContent(text) => Ok(p.(pending := p.pending + text))
  }

  // ----- stack primitives on the plain stack -----

  /** The two outcomes agree, and the slot counter is right afterwards. */
  predicate Refines(r: Outcome<State>, q: Outcome<Plain>) {
    match r
    case Throw(message) => q == Throw(message)
    case Ok(t) => q == Ok(Abs(t)) && SlotInvariant(t)
  }

  lemma {:induction false} StoredSnoc(es: seq<Entry>, e: Entry)
    ensures Stored(es + [e]) == Stored(es) + if e.Value? then 1 else 0
  {
    assert (es + [e])[..|es|] == es;
  }

  lemma {:induction false} SlotsAbs(s: State)
    requires SlotInvariant(s)
    ensures Sound(Abs(s)) && Slots(Abs(s)) == s.stackSlot
  {
    assert (s.compileStack + s.inlineStack)[..|s.compileStack|] == s.compileStack;
  }

  lemma {:induction false} PushRefines(s: State, e: Entry)
    requires SlotInvariant(s)
    ensures Abs(Push(s, e)) == Pushed(Abs(s), e) && SlotInvariant(Push(s, e))
  {
    Associate(s.compileStack, s.inlineStack, [e]);
  }

  lemma {:induction false} PopRefines(s: State)
    requires SlotInvariant(s)
    ensures var p := Abs(s);
            if p.operands == [] then Pop(s) == Throw(EMPTY)
            else
              && Pop(s).Ok? && Pop(s).value.0 == Top(p, 1)
              && Abs(Pop(s).value.1) == Dropped(p, 1) && SlotInvariant(Pop(s).value.1)
  {
    var all, n := s.compileStack + s.inlineStack, |s.compileStack|;
    if s.inlineStack != [] {
      var last := |s.inlineStack| - 1;
      assert all[..|all| - 1] == s.compileStack + s.inlineStack[..last];
    } else if n > 0 {
      assert all == s.compileStack;
      assert s.compileStack[..n - 1] + s.inlineStack == all[..n - 1];
    }
  }

  lemma {:induction false} DroppedTwice(p: Plain, a: nat, b: nat)
    requires a + b <= |p.operands|
    ensures Dropped(Dropped(p, a), b) == Dropped(p, a + b)
  {
    var n := |p.operands|;
    assert p.operands[..n - a][..n - a - b] == p.operands[..n - (a + b)];
  }

  lemma {:induction false} ParamsSnoc(p: Plain, n: nat)
    requires 0 < n <= |p.operands|
    ensures ParamsAt(p, 0, n) == ParamsAt(Dropped(p, 1), 0, n - 1) + [Top(p, 1)]
    ensures Dropped(p, n) == Dropped(Dropped(p, 1), n - 1)
  {
    var len := |p.operands|;
    var below, last := p.operands[..len - 1], p.operands[len - 1];
    assert below[len - n..len - 1] + [last] == p.operands[len - n..len];
    JssSnoc(below[len - n..len - 1], last);
    DroppedTwice(p, 1, n - 1);
  }

  lemma {:induction false} PopParamsRefines(s: State, n: nat)
    requires SlotInvariant(s)
    ensures var p := Abs(s);
            if |p.operands| < n then PopParams(s, n) == Throw(EMPTY)
            else
              && PopParams(s, n).Ok? && PopParams(s, n).value.0 == ParamsAt(p, 0, n)
              && Abs(PopParams(s, n).value.1) == Dropped(p, n) && SlotInvariant(PopParams(s, n).value.1)
    decreases n
  {
    var p := Abs(s);
    if n == 0 {
      assert p.operands[..|p.operands|] == p.operands;
    } else {
      PopRefines(s);
      if p.operands != [] {
        PopParamsRefines(Pop(s).value.1, n - 1);
        if n <= |p.operands| {
          ParamsSnoc(p, n);
        }
      }
    }
  }

  /** The outcome of setupParams on a stack with a call of arity n on top. */
  predicate IsSetup(r: Outcome<(Js, seq<Js>, State)>, p: Plain, name: string, n: nat) {
    if |p.operands| < n + 3 then r == Throw(EMPTY)
    else
      && r.Ok? && r.value.0 == OptionsAt(p, name, 1) && r.value.1 == ParamsAt(p, 3, n)
      && Abs(r.value.2) == Dropped(p, n + 3) && SlotInvariant(r.value.2)
  }

  lemma {:induction false} SetupRefines(s: State, name: string, n: nat)
    requires SlotInvariant(s)
    ensures IsSetup(SetupParams(s, name, n), Abs(s), name, n)
  {
    var three := PopThreeRefines(s, name, n);
    if three.Some? {
      SetupOfThree(three.value, Abs(s), name, n);
    }
  }

  lemma {:induction false} SetupOfThree(t: State, p: Plain, name: string, n: nat)
    requires |p.operands| >= 3 && Abs(t) == Dropped(p, 3) && SlotInvariant(t)
    ensures IsSetup(SetUp(OptionsAt(p, name, 1), PopParams(t, n)), p, name, n)
  {
    PopParamsRefines(t, n);
    if n + 3 <= |p.operands| {
      ParamsBelow(p, 3, n);
    }
  }

  function SetUp(options: Js, ps: Outcome<(seq<Js>, State)>): Outcome<(Js, seq<Js>, State)> {
    if ps.Throw? then Throw(ps.message) else Ok((options, ps.value.0, ps.value.1))
  }

  /** A pop when k operands have been popped. */
  lemma {:induction false} PopNext(s: State, p: Plain, k: nat)
    requires SlotInvariant(s) && k <= |p.operands| && Abs(s) == Dropped(p, k)
    ensures if |p.operands| == k then Pop(s) == Throw(EMPTY)
            else
              && Pop(s).Ok? && Pop(s).value.0 == Top(p, k + 1)
              && Abs(Pop(s).value.1) == Dropped(p, k + 1) && SlotInvariant(Pop(s).value.1)
  {
    PopRefines(s);
    if k < |p.operands| {
      DroppedTwice(p, k, 1);
    }
  }

  /** The state after three pops, if there are as many operands. */
  lemma {:induction false} PopThreeRefines(s: State, name: string, n: nat) returns (three: Option<State>)
    requires SlotInvariant(s)
    ensures three.None? <==> |Abs(s).operands| < 3
    ensures three.None? ==> SetupParams(s, name, n) == Throw(EMPTY)
    ensures three.Some? ==>
              var p, t := Abs(s), three.value;
              && Abs(t) == Dropped(p, 3) && SlotInvariant(t)
              && SetupParams(s, name, n) == SetUp(OptionsAt(p, name, 1), PopParams(t, n))
  {
    var p := Abs(s);
    assert Dropped(p, 0) == p by {
      assert p.operands[..|p.operands|] == p.operands;
    }
    PopNext(s, p, 0);
    if |p.operands| < 1 {
      return None;
    }
    var s1 := Pop(s).value.1;
    PopNext(s1, p, 1);
    if |p.operands| < 2 {
      return None;
    }
    var s2 := Pop(s1).value.1;
    PopNext(s2, p, 2);
    if |p.operands| < 3 {
      return None;
    }
    three := Some(Pop(s2).value.1);
  }

  lemma {:induction false} ParamsBelow(p: Plain, k: nat, n: nat)
    requires k + n <= |p.operands|
    ensures ParamsAt(Dropped(p, k), 0, n) == ParamsAt(p, k, n)
    ensures Dropped(Dropped(p, k), n) == Dropped(p, n + k)
  {
    var end := |p.operands| - k;
    assert p.operands[..end][end - n..end] == p.operands[end - n..end];
    DroppedTwice(p, k, n);
  }

  lemma {:induction false} EmitRefines(isSimple: bool, s: State, items: seq<Item>)
    requires SlotInvariant(s)
    ensures Abs(Emit(isSimple, s, items)) == Emitted(isSimple, Abs(s), items)
    ensures SlotInvariant(Emit(isSimple, s, items))
  {
  }

  // ----- flushing -----

  lemma {:induction false} EmitTwice(isSimple: bool, s: State, a: seq<Item>, b: seq<Item>)
    ensures Emit(isSimple, Emit(isSimple, s, a), b) == Emit(isSimple, s, a + b)
  {
    var t := Emit(isSimple, s, []);
    assert t.source + [] + a + [] + b == t.source + [] + (a + b);
  }

  /** All of the flush at once. */
  function FlushedState(isSimple: bool, s: State, es: seq<Entry>): State {
    var items := Assignments(es, s.stackSlot);
    var t := s.(compileStack := s.compileStack + Named(es, s.stackSlot), stackSlot := s.stackSlot + |items|);
    if items == [] then t else Emit(isSimple, t, items)
  }

  lemma {:induction false} FlushStep(isSimple: bool, s: State, es: seq<Entry>)
    requires es != []
    ensures FlushedState(isSimple, FlushEntry(isSimple, s, es[0]), es[1..]) == FlushedState(isSimple, s, es)
  {
    var k, rest := s.stackSlot, es[1..];
    if es[0].Literal? {
      Associate(s.compileStack, [es[0]], Named(rest, k));
    } else {
      var first, all := [Code(Set(k + 1, es[0].js))], Assignments(es, k);
      Associate(s.compileStack, [Value(Read(Slot(k + 1)))], Named(rest, k + 1));
      var t := s.(compileStack := s.compileStack + Named(es, k), stackSlot := k + |all|);
      EmitTwice(isSimple, t, first, Assignments(rest, k + 1));
      assert Assignments(rest, k + 1) == [] ==> all == first;
    }
  }

  lemma {:induction false} FlushAllIs(isSimple: bool, s: State, es: seq<Entry>)
    ensures FlushAll(isSimple, s, es) == FlushedState(isSimple, s, es)
    decreases es
  {
    if es == [] {
      assert s.compileStack + [] == s.compileStack;
    } else {
      FlushAllIs(isSimple, FlushEntry(isSimple, s, es[0]), es[1..]);
      FlushStep(isSimple, s, es);
    }
  }

  lemma {:induction false} StoredNamed(below: seq<Entry>, es: seq<Entry>, k: nat)
    ensures Stored(below + Named(es, k)) == Stored(below) + |Assignments(es, k)|
    decreases es
  {
    if es == [] {
      assert below + [] == below;
    } else {
      var first := Named(es, k)[0];
      var rest := Named(es, k)[1..];
      assert below + Named(es, k) == below + [first] + rest;
      StoredSnoc(below, first);
      StoredNamed(below + [first], es[1..], if es[0].Literal? then k else k + 1);
    }
  }

  lemma {:induction false} FlushRefines(isSimple: bool, s: State)
    requires SlotInvariant(s)
    ensures Sound(Abs(s)) && Abs(FlushInline(isSimple, s)) == Flushed(isSimple, Abs(s))
    ensures SlotInvariant(FlushInline(isSimple, s))
  {
    var p := Abs(s);
    SlotsAbs(s);
    FlushAllIs(isSimple, s.(inlineStack := []), s.inlineStack);
    StoredNamed(s.compileStack, s.inlineStack, s.stackSlot);
    assert p.operands[p.mark..] == s.inlineStack && p.operands[..p.mark] == s.compileStack;
    var t := FlushedState(isSimple, s.(inlineStack := []), s.inlineStack);
    assert t.compileStack + t.inlineStack == t.compileStack;
  }

  // ----- every opcode -----

  lemma {:induction false} LookupRefines(s: State, e: Entry, g: Guard, parts: seq<string>)
    requires SlotInvariant(s)
    ensures Refines(ReplaceAll(Push(s, e), g, parts), Ok(PlainLookup(Abs(s), e, g, parts)))
  {
    SlotsAbs(s);
    ReplaceLooks(s, e, g, parts);
    PushRefines(s, Looked(Scratch(s.stackSlot), e, g, parts));
  }

  lemma {:induction false} AssignRefines(s: State, key: string)
    requires SlotInvariant(s)
    ensures Refines(AssignEffect(s, key), PlainAssign(Abs(s), key))
  {
    PopRefines(s);
  }

  lemma {:induction false} PopHashRefines(s: State)
    requires SlotInvariant(s)
    ensures Refines(PopHashEffect(s), PlainPopHash(Abs(s)))
  {
    if s.hash.Some? {
      PushRefines(s, Value(ObjectLit(s.hash.value)));
    }
  }

  lemma {:induction false} HelperRefines(s: State, arity: nat, name: string, isSimple: bool)
    requires SlotInvariant(s)
    ensures Refines(HelperEffect(s, arity, name, isSimple), PlainHelper(Abs(s), arity, name, isSimple))
  {
    var p := Abs(s);
    PopRefines(s);
    if p.operands != [] {
      var s1 := Pop(s).value.1;
      SetupRefines(s1, name, arity);
      if arity + 4 <= |p.operands| {
        var call := SetupParams(s1, name, arity).value;
        HelperUnder(p, arity, name, isSimple);
        PushRefines(call.2, Value(HelperCall(Callee(name, Top(p, 1), isSimple), call.1, call.0)));
      }
    }
  }

  lemma {:induction false} ReplacingRefines(s: State, p: Plain, k: nat, e: Entry)
    requires SlotInvariant(s) && k <= |p.operands| && Abs(s) == Dropped(p, k)
    ensures Refines(Ok(Push(s, e)), Ok(Replacing(p, k, e)))
  {
    PushRefines(s, e);
  }

  lemma {:induction false} OptionsUnder(p: Plain, name: string)
    requires 4 <= |p.operands|
    ensures OptionsAt(Dropped(p, 1), name, 1) == OptionsAt(p, name, 2)
  {
  }

  lemma {:induction false} ParamsUnder(p: Plain, k: nat, n: nat)
    requires 0 < k && k + n <= |p.operands|
    ensures ParamsAt(Dropped(p, 1), k - 1, n) == ParamsAt(p, k, n)
  {
    var end := |p.operands| - k;
    assert Dropped(p, 1).operands[end - n..end] == p.operands[end - n..end];
  }

  /** The call of a helper is below the function that was found. */
  lemma {:induction false} HelperUnder(p: Plain, arity: nat, name: string, isSimple: bool)
    requires arity + 4 <= |p.operands|
    ensures var q := Dropped(p, 1);
            PlainHelper(p, arity, name, isSimple)
            == Ok(Pushed(Dropped(q, arity + 3), Value(HelperCall(Callee(name, Top(p, 1), isSimple),
                                                                 ParamsAt(q, 3, arity), OptionsAt(q, name, 1)))))
  {
    OptionsUnder(p, name);
    ParamsUnder(p, 4, arity);
    DroppedTwice(p, 1, arity + 3);
  }

  lemma {:induction false} KnownHelperRefines(s: State, arity: nat, name: string)
    requires SlotInvariant(s)
    ensures Refines(KnownHelperEffect(s, arity, name), PlainKnownHelper(Abs(s), arity, name))
  {
    var p := Abs(s);
    SetupRefines(s, name, arity);
    if arity + 3 <= |p.operands| {
      PushRefines(SetupParams(s, name, arity).value.2,
                  Value(HelperCall(Get(HelpersVar, name), ParamsAt(p, 3, arity), OptionsAt(p, name, 1))));
    }
  }

  lemma {:induction false} AmbiguousRefines(s: State, name: string, isBlock: bool)
    requires SlotInvariant(s)
    ensures Refines(AmbiguousEffect(s, name, isBlock), PlainAmbiguous(Abs(s), name, isBlock))
  {
    var p, empty := Abs(s), Literal(ObjectLit([]));
    PopRefines(s);
    if p.operands != [] {
      var s1 := Pop(s).value.1;
      PushRefines(s1, empty);
      SetupRefines(Push(s1, empty), name, 0);
      if |p.operands| >= 3 {
        UnderEmpty(p, name, empty);
        var call := SetupParams(Push(s1, empty), name, 0).value;
        ReplacingRefines(call.2, p, 3, Value(AmbiguousCall(name, Top(p, 1), call.0, isBlock)));
      }
    }
  }

  lemma {:induction false} UnderEmpty(p: Plain, name: string, e: Entry)
    requires |p.operands| >= 3
    ensures var q := Pushed(Dropped(p, 1), e);
            && OptionsAt(q, name, 1) == Options(name, e.js, Top(p, 3), Top(p, 2))
            && Dropped(q, 3) == Dropped(p, 3)
  {
    var q, left := Pushed(Dropped(p, 1), e), |p.operands| - 3;
    assert q.operands[..left] == p.operands[..left];
  }

  lemma {:induction false} PartialRefines(s: State, name: string, indent: string)
    requires SlotInvariant(s)
    ensures Refines(PartialEffect(s, name, indent), PlainPartial(Abs(s), name, indent))
  {
    var p := Abs(s);
    PopRefines(s);
    if p.operands != [] {
      var s1 := Pop(s).value.1;
      PopRefines(s1);
      if |p.operands| >= 2 {
        DroppedTwice(p, 1, 1);
        PushRefines(Pop(s1).value.1, Value(PartialJs(Get(PartialsVar, name), indent, name, Top(p, 1), Top(p, 2))));
      }
    }
  }

  lemma {:induction false} BlockRefines(s: State, name: Option<string>)
    requires SlotInvariant(s)
    ensures Refines(BlockEffect(s, name), PlainBlock(Abs(s), name))
  {
    if name.Some? {
      SetupRefines(s, name.value, 0);
      if |Abs(s).operands| >= 3 {
        var call := SetupParams(s, name.value, 0).value;
        BlockCallRefines(call.2, call.0, Abs(s), name.value);
      }
    }
  }

  lemma {:induction false} BlockCallRefines(t: State, options: Js, p: Plain, name: string)
    requires |p.operands| >= 3 && Abs(t) == Dropped(p, 3) && SlotInvariant(t) && options == OptionsAt(p, name, 1)
    ensures Refines(BlockCall(t, options), PlainBlock(p, Some(name)))
  {
    PopRefines(t);
    if |p.operands| >= 4 {
      BlockUnder(p, name);
      var v := Pop(t).value;
      PushRefines(v.1, Value(CallJs(BLOCK_HELPER_MISSING, ContextVar(0), [v.0, options])));
    }
  }

  /** The value of a block is below its call. */
  lemma {:induction false} BlockUnder(p: Plain, name: string)
    requires |p.operands| >= 4
    ensures var q := Dropped(p, 3);
            PlainBlock(p, Some(name))
            == Ok(Pushed(Dropped(q, 1), Value(CallJs(BLOCK_HELPER_MISSING, ContextVar(0),
                                                     [Top(q, 1), OptionsAt(p, name, 1)]))))
  {
    DroppedTwice(p, 3, 1);
  }

  lemma {:induction false} AmbiguousBlockRefines(isSimple: bool, s: State)
    requires SlotInvariant(s)
    ensures Sound(Abs(s)) && Refines(AmbiguousBlockEffect(isSimple, s), PlainAmbiguousBlock(isSimple, Abs(s)))
  {
    SetupRefines(s, "", 0);
    if |Abs(s).operands| >= 3 {
      var t := SetupParams(s, "", 0).value.2;
      FlushRefines(isSimple, t);
      FlushedEmptiesInline(isSimple, t);
      MissingRefines(isSimple, FlushInline(isSimple, t));
    }
  }

  lemma {:induction false} MissingRefines(isSimple: bool, u: State)
    requires SlotInvariant(u) && u.inlineStack == []
    ensures Refines(Ok(MissingEffect(isSimple, u)), Ok(PlainMissing(isSimple, Abs(u))))
  {
    assert Abs(u).operands == u.compileStack;
  }

  lemma {:induction false} FlushedEmptiesInline(isSimple: bool, s: State)
    ensures FlushInline(isSimple, s).inlineStack == []
    ensures Abs(FlushInline(isSimple, s)).operands == FlushInline(isSimple, s).compileStack
    ensures |FlushInline(isSimple, s).compileStack| == |Abs(s).operands|
  {
    FlushAllIs(isSimple, s.(inlineStack := []), s.inlineStack);
  }

  lemma {:induction false} AppendRefines(isSimple: bool, s: State)
    requires SlotInvariant(s)
    ensures Sound(Abs(s)) && Refines(AppendEffect(isSimple, s), PlainAppend(isSimple, Abs(s)))
  {
    var p, t := Abs(s), FlushInline(isSimple, s);
    FlushRefines(isSimple, s);
    FlushedEmptiesInline(isSimple, s);
    PopRefines(t);
    if p.operands != [] {
      var top := Top(Abs(t), 1);
      EmitRefines(isSimple, Pop(t).value.1,
                  if isSimple then [Code(ReturnUnlessNull(top)), Code(ElseReturnEmpty)]
                  else [Code(AppendUnlessNull(top))]);
    }
  }

  lemma {:induction false} AppendEscapedRefines(isSimple: bool, s: State)
    requires SlotInvariant(s)
    ensures var p := Abs(s);
            Refines(AppendEscapedEffect(isSimple, s),
                    if |p.operands| < 1 then Throw(EMPTY)
                    else Ok(Emitted(isSimple, Dropped(p, 1), [AppendItem(isSimple, Escaped(Top(p, 1)))])))
  {
    PopRefines(s);
  }

  lemma {:induction false} LambdaRefines(s: State)
    requires SlotInvariant(s)
    ensures var p := Abs(s);
            Refines(LambdaEffect(s),
                    if |p.operands| < 1 then Throw(EMPTY)
                    else Ok(Replacing(p, 1, Value(Lambda(Top(p, 1), ContextVar(0))))))
  {
    PopRefines(s);
    if Abs(s).operands != [] {
      PushRefines(Pop(s).value.1, Value(Lambda(Top(Abs(s), 1), ContextVar(0))));
    }
  }

  /** The opcodes that only push, or touch no operand. */
  predicate IsPush(op: Opcode) {
    || op.GetContext? || op.PushContext? || op.PushString? || op.PushLiteral? || op.PushUndefined? || op.PushProgram?
    || op.PushHash? || op.EmptyHash? || op.AppendContent?
  }

  lemma {:induction false} PushOpRefines(env: Environment, op: Opcode, s: State)
    requires SlotInvariant(s) && IsPush(op)
    ensures Sound(Abs(s)) && Refines(Step(env, op, s), PlainStep(env, op, Abs(s)))
  {
    match op
    case PushContext => PushRefines(s, Literal(ContextVar(s.lastContext)));
    case PushString(text) => PushRefines(s, Literal(StringLit(text)));
    case PushLiteral(text) => PushRefines(s, Literal(RawLit(text)));
    case PushUndefined => PushRefines(s, Value(UndefinedLit));
    case PushProgram(child) =>
      if child.None? {
        PushRefines(s, Literal(NullLit));
      } else if child.value < |env.children| {
        PushRefines(s, Literal(ProgramRef(KeyOf(env.children[child.value]))));
      }
    case EmptyHash => PushRefines(s, Literal(ObjectLit([])));
    case _ =>
  }

  /**
   Every opcode, from any state whose slot counter is right: the outcome, be it
   an error or a state, is that of the plain machine on the plain stack, and the
   slot counter is right again.
   */
  lemma {:induction false} StepRefinesPlainStack(env: Environment, op: Opcode, s: State)
    requires SlotInvariant(s)
    ensures Sound(Abs(s)) && Refines(Step(env, op, s), PlainStep(env, op, Abs(s)))
  {
    match op
    case LookupOnContext(parts, falsy, _) =>
      LookupRefines(s, Literal(ContextVar(s.lastContext)), if falsy then TruthGuard else NullGuard, parts);
    case LookupData(depth, parts) =>
      LookupRefines(s, Literal(if depth == 0 then DataVar else DataAt(depth)), TruthGuard, parts);
    case AssignToHash(key) => AssignRefines(s, key);
    case PopHash => PopHashRefines(s);
    case ResolvePossibleLambda => LambdaRefines(s);
    case InvokeHelper(arity, name, isSimple) => HelperRefines(s, arity, name, isSimple);
    case InvokeKnownHelper(arity, name) => KnownHelperRefines(s, arity, name);
    case InvokeAmbiguous(name, isBlock) => AmbiguousRefines(s, name, isBlock);
    case InvokePartial(name, indent) => PartialRefines(s, name, indent);
    case BlockValue(name) => BlockRefines(s, name);
    case AmbiguousBlockValue => AmbiguousBlockRefines(env.isSimple, s);
    case Append => AppendRefines(env.isSimple, s);
    case AppendEscaped => AppendEscapedRefines(env.isSimple, s);
    case _ => PushOpRefines(env, op, s);
  }

  // ----- every run -----

  function PlainRun(env: Environment, ops: seq<Opcode>, p: Plain): Outcome<Plain>
    requires Sound(p)
    decreases ops
  {
    if ops == [] then Ok(p)
    else
      var q :- PlainStep(env, ops[0], p);
      PlainRun(env, ops[1..], q)
  }

  /** Every run of opcodes, whatever they are: both machines end in the same error or the same stack. */
  lemma {:induction false} RunRefinesPlainStack(env: Environment, ops: seq<Opcode>, s: State)
    requires SlotInvariant(s)
    ensures Sound(Abs(s)) && Refines(Run(env, ops, s), PlainRun(env, ops, Abs(s)))
    decreases ops
  {
    SlotsAbs(s);
    if ops != [] {
      StepRefinesPlainStack(env, ops[0], s);
      if Step(env, ops[0], s).Ok? {
        RunRefinesPlainStack(env, ops[1..], Step(env, ops[0], s).value);
      }
    }
  }

  function PlainGenerate(env: Environment): Outcome<seq<Item>> {
    var p :- PlainRun(env, env.opcodes, Abs(INITIAL));
    if p.operands != [] then Throw("Compile completed with content left on stack")
    else Ok(Emitted(env.isSimple, p, []).source)
  }

  /** The whole second stage; content is left on the two stacks exactly when the plain stack is not empty. */
  lemma {:induction false} GenerateRefinesPlainStack(env: Environment)
    ensures Generate(env) == PlainGenerate(env)
  {
    RunRefinesPlainStack(env, env.opcodes, INITIAL);
    var r := Run(env, env.opcodes, INITIAL);
    if r.Ok? {
      assert Abs(r.value).operands == [] <==> r.value.compileStack == [] && r.value.inlineStack == [];
    }
  }

  // ----- when an opcode raises -----

  /** The i-th operand is the value of the last variable then in use. */
  predicate InVariable(es: seq<Entry>, i: nat)
    requires i < |es|
  {
    es[i].Value? ==> es[i].js == Read(Slot(Stored(es[..i + 1])))
  }

  predicate InVariables(es: seq<Entry>, n: nat)
    requires n <= |es|
  {
    forall i | 0 <= i < n :: InVariable(es, i)
  }

  /** What holds of all plain stacks of runs: flushed values are in variables of their own, and no literal is one. */
  predicate Regular(p: Plain) {
    && Sound(p)
    && InVariables(p.operands, p.mark)
    && (forall e <- p.operands :: e.Literal? ==> !e.js.Read?)
  }

  predicate Flushes(op: Opcode) {
    op.Append? || op.AmbiguousBlockValue?
  }

  lemma {:induction false} PrefixInVariable(a: seq<Entry>, b: seq<Entry>, i: nat)
    requires i < |a| && i < |b| && a[..i + 1] == b[..i + 1]
    ensures InVariable(a, i) == InVariable(b, i)
  {
    assert a[i] == a[..i + 1][i] == b[..i + 1][i];
  }

  /** Flushed operands stay where they are, and what is pushed is no literal that reads a variable. */
  predicate Undisturbed(p: Plain, q: Plain) {
    && Sound(p) && Sound(q) && q.mark <= p.mark
    && q.operands[..q.mark] == p.operands[..q.mark]
    && forall e <- q.operands :: e in p.operands || !e.js.Read?
  }

  lemma {:induction false} UndisturbedRegular(p: Plain, q: Plain)
    requires Regular(p) && Undisturbed(p, q)
    ensures Regular(q)
  {
    forall i | 0 <= i < q.mark
      ensures InVariable(q.operands, i)
    {
      assert q.operands[..i + 1] == q.operands[..q.mark][..i + 1] == p.operands[..i + 1];
      PrefixInVariable(q.operands, p.operands, i);
      assert InVariable(p.operands, i);
    }
  }

  lemma {:induction false} DroppedUndisturbed(p: Plain, k: nat)
    requires Sound(p) && k <= |p.operands|
    ensures Undisturbed(p, Dropped(p, k))
  {
  }

  lemma {:induction false} PushedUndisturbed(p: Plain, q: Plain, e: Entry)
    requires Undisturbed(p, q) && !e.js.Read?
    ensures Undisturbed(p, Pushed(q, e))
  {
    assert Pushed(q, e).operands[..q.mark] == q.operands[..q.mark];
  }

  lemma {:induction false} ReplacingUndisturbed(p: Plain, k: nat, e: Entry)
    requires Sound(p) && k <= |p.operands| && !e.js.Read?
    ensures Undisturbed(p, Replacing(p, k, e))
  {
    DroppedUndisturbed(p, k);
    PushedUndisturbed(p, Dropped(p, k), e);
  }

  lemma {:induction false} LookedIsNoRead(slot: nat, e: Entry, g: Guard, parts: seq<string>)
    requires !e.js.Read?
    ensures !Looked(slot, e, g, parts).js.Read?
    decreases parts
  {
    if parts != [] {
      LookedIsNoRead(slot, Value(Replaced(slot, e, g, parts[0])), g, parts[1..]);
    }
  }

  lemma {:induction false} LookupUndisturbed(p: Plain, e: Entry, g: Guard, parts: seq<string>)
    requires Sound(p) && !e.js.Read?
    ensures Undisturbed(p, PlainLookup(p, e, g, parts))
  {
    LookedIsNoRead(Scratch(Slots(p)), e, g, parts);
    PushedUndisturbed(p, p, Looked(Scratch(Slots(p)), e, g, parts));
  }

  lemma {:induction false} PushOpUndisturbed(env: Environment, op: Opcode, p: Plain)
    requires Sound(p) && IsPush(op) && PlainStep(env, op, p).Ok?
    ensures Undisturbed(p, PlainStep(env, op, p).value)
  {
    match op
    case PushContext => PushedUndisturbed(p, p, Literal(ContextVar(p.lastContext)));
    case PushString(text) => PushedUndisturbed(p, p, Literal(StringLit(text)));
    case PushLiteral(text) => PushedUndisturbed(p, p, Literal(RawLit(text)));
    case PushUndefined => PushedUndisturbed(p, p, Value(UndefinedLit));
    case PushProgram(child) =>
      PushedUndisturbed(p, p, Literal(if child.None? then NullLit else ProgramRef(KeyOf(env.children[child.value]))));
    case EmptyHash => PushedUndisturbed(p, p, Literal(ObjectLit([])));
    case _ =>
  }

  predicate IsCall(op: Opcode) {
    op.InvokeHelper? || op.InvokeKnownHelper? || op.InvokeAmbiguous? || op.InvokePartial? || op.BlockValue?
  }

  lemma {:induction false} CallUndisturbed(env: Environment, op: Opcode, p: Plain)
    requires Sound(p) && IsCall(op) && PlainStep(env, op, p).Ok?
    ensures Undisturbed(p, PlainStep(env, op, p).value)
  {
    match op
    case InvokeHelper(arity, name, isSimple) =>
      ReplacingUndisturbed(p, arity + 4, Value(HelperCall(Callee(name, Top(p, 1), isSimple), ParamsAt(p, 4, arity),
                                                          OptionsAt(p, name, 2))));
    case InvokeKnownHelper(arity, name) =>
      ReplacingUndisturbed(p, arity + 3, Value(HelperCall(Get(HelpersVar, name), ParamsAt(p, 3, arity),
                                                          OptionsAt(p, name, 1))));
    case InvokeAmbiguous(name, isBlock) =>
      var options := Options(name, ObjectLit([]), Top(p, 3), Top(p, 2));
      ReplacingUndisturbed(p, 3, Value(AmbiguousCall(name, Top(p, 1), options, isBlock)));
    case InvokePartial(name, indent) =>
      ReplacingUndisturbed(p, 2, Value(PartialJs(Get(PartialsVar, name), indent, name, Top(p, 1), Top(p, 2))));
    case BlockValue(name) =>
      ReplacingUndisturbed(p, 4, Value(CallJs(BLOCK_HELPER_MISSING, ContextVar(0),
                                              [Top(p, 4), OptionsAt(p, name.value, 1)])));
  }

  lemma {:induction false} StepUndisturbed(env: Environment, op: Opcode, p: Plain)
    requires Sound(p) && !Flushes(op) && PlainStep(env, op, p).Ok?
    ensures Undisturbed(p, PlainStep(env, op, p).value)
  {
    match op
    case LookupOnContext(parts, falsy, _) =>
      LookupUndisturbed(p, Literal(ContextVar(p.lastContext)), if falsy then TruthGuard else NullGuard, parts);
    case LookupData(depth, parts) =>
      LookupUndisturbed(p, Literal(if depth == 0 then DataVar else DataAt(depth)), TruthGuard, parts);
    case AssignToHash(_) => DroppedUndisturbed(p, 1);
    case AppendEscaped => DroppedUndisturbed(p, 1);
    case PopHash => PushedUndisturbed(p, p, Value(ObjectLit(p.hash.value)));
    case ResolvePossibleLambda => ReplacingUndisturbed(p, 1, Value(Lambda(Top(p, 1), ContextVar(0))));
    case _ => if IsPush(op) { PushOpUndisturbed(env, op, p); } else { CallUndisturbed(env, op, p); }
  }

  lemma {:induction false} NamedInVariables(below: seq<Entry>, es: seq<Entry>)
    requires InVariables(below, |below|)
    ensures InVariables(below + Named(es, Stored(below)), |below| + |es|)
    decreases es
  {
    var k := Stored(below);
    if es == [] {
      assert below + [] == below;
    } else {
      var first := Named(es, k)[0];
      var more := below + [first];
      StoredSnoc(below, first);
      forall i | 0 <= i < |more|
        ensures InVariable(more, i)
      {
        if i < |below| {
          assert more[..i + 1] == below[..i + 1];
          PrefixInVariable(more, below, i);
        } else {
          assert more[..i + 1] == more;
        }
      }
      NamedInVariables(more, es[1..]);
      assert Named(es[1..], Stored(more)) == Named(es, k)[1..];
      assert below + Named(es, k) == more + Named(es[1..], Stored(more));
    }
  }

  lemma {:induction false} NamedLiterals(es: seq<Entry>, k: nat)
    ensures forall e <- Named(es, k) :: e.Literal? ==> e in es
    decreases es
  {
    if es != [] {
      NamedLiterals(es[1..], if es[0].Literal? then k else k + 1);
    }
  }

  lemma {:induction false} FlushedRegular(isSimple: bool, p: Plain)
    requires Regular(p)
    ensures Regular(Flushed(isSimple, p))
  {
    var below, inl := p.operands[..p.mark], p.operands[p.mark..];
    forall i | 0 <= i < |below|
      ensures InVariable(below, i)
    {
      assert below[..i + 1] == p.operands[..i + 1];
      PrefixInVariable(below, p.operands, i);
      assert InVariable(p.operands, i);
    }
    NamedInVariables(below, inl);
    assert Flushed(isSimple, p).operands == below + Named(inl, Stored(below));
    NamedLiterals(inl, Slots(p));
  }

  lemma {:induction false} FlushingStepRegular(env: Environment, op: Opcode, p: Plain)
    requires Regular(p) && Flushes(op) && PlainStep(env, op, p).Ok?
    ensures Regular(PlainStep(env, op, p).value)
  {
    if op.Append? {
      var q := Flushed(env.isSimple, p);
      FlushedRegular(env.isSimple, p);
      DroppedUndisturbed(q, 1);
      UndisturbedRegular(q, Dropped(q, 1));
    } else {
      DroppedUndisturbed(p, 3);
      UndisturbedRegular(p, Dropped(p, 3));
      FlushedRegular(env.isSimple, Dropped(p, 3));
    }
  }

  lemma {:induction false} StepRegular(env: Environment, op: Opcode, p: Plain)
    requires Regular(p) && PlainStep(env, op, p).Ok?
    ensures Regular(PlainStep(env, op, p).value)
  {
    if Flushes(op) {
      FlushingStepRegular(env, op, p);
    } else {
      StepUndisturbed(env, op, p);
      UndisturbedRegular(p, PlainStep(env, op, p).value);
    }
  }

  /** How many operands an opcode reads. */
  function Needs(op: Opcode): nat {
    match op
    case AssignToHash(_) => 1
    case ResolvePossibleLambda => 1
    case InvokeHelper(arity, _, _) => arity + 4
    case InvokeKnownHelper(arity, _) => arity + 3
    case InvokeAmbiguous(_, _) => 3
    case InvokePartial(_, _) => 2
    case BlockValue(_) => 4
    case AmbiguousBlockValue => 3
    case Append => 1
    case AppendEscaped => 1
    case _ => 0
  }

  /** An open hash, a child or a name that an opcode relies on is there. */
  predicate Provided(env: Environment, op: Opcode, p: Plain) {
    match op
    case AssignToHash(_) => p.hash.Some?
    case PopHash => p.hash.Some?
    case PushProgram(child) => child.None? || child.value < |env.children|
    case BlockValue(name) => name.Some?
    case _ => true
  }

  /** An opcode raises exactly when operands that it needs, or something else that it relies on, are missing. */
  lemma {:induction false} PlainStepSucceedsIff(env: Environment, op: Opcode, p: Plain)
    requires Sound(p)
    ensures PlainStep(env, op, p).Ok? <==> Needs(op) <= |p.operands| && Provided(env, op, p)
  {
  }

  /** A state that some run of opcodes reaches. */
  ghost predicate Reachable(env: Environment, s: State) {
    exists ops :: Run(env, ops, INITIAL) == Ok(s)
  }

  lemma {:induction false} RunRegular(env: Environment, ops: seq<Opcode>, p: Plain)
    requires Regular(p) && PlainRun(env, ops, p).Ok?
    ensures Regular(PlainRun(env, ops, p).value)
    decreases ops
  {
    if ops != [] {
      StepRegular(env, ops[0], p);
      RunRegular(env, ops[1..], PlainStep(env, ops[0], p).value);
    }
  }

  /**
   In every reachable state stackSlot counts the values in compileStack, the
   k-th of which is read from stackk, and an opcode raises exactly when operands
   are missing or something else that it relies on is.
   */
  lemma {:induction false} ReachableStates(env: Environment, s: State, op: Opcode)
    requires Reachable(env, s)
    ensures SlotInvariant(s) && Regular(Abs(s))
    ensures Step(env, op, s).Ok? <==> Needs(op) <= |Abs(s).operands| && Provided(env, op, Abs(s))
  {
    var ops :| Run(env, ops, INITIAL) == Ok(s);
    RunRefinesPlainStack(env, ops, INITIAL);
    RunRegular(env, ops, Abs(INITIAL));
    StepRefinesPlainStack(env, op, s);
    PlainStepSucceedsIff(env, op, Abs(s));
  }
}
