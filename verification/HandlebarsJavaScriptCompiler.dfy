/**
 The JavaScriptCompiler object: one mutable field for each piece of its state,
 and one method for each stack primitive and opcode.  Each method moves the
 state as the function of the same effect in HandlebarsGenerator does; a method
 returns false where the source throws.
 */
module HandlebarsJavaScriptCompiler {
  import opened Wrappers
  import opened HandlebarsSyntax
  import opened HandlebarsGenerator

  predicate IsOperand(op: Opcode) {
    || op.GetContext? || op.PushContext? || op.LookupOnContext? || op.LookupData? || op.PushString? || op.PushLiteral?
    || op.PushUndefined? || op.PushProgram? || op.PushHash? || op.AssignToHash? || op.PopHash? || op.EmptyHash?
  }

  class JavaScriptCompiler {
    const environment: Environment
    var inlineStack: seq<Entry>
    var compileStack: seq<Entry>
    var stackSlot: nat
    var hash: Option<seq<Field>>
    var hashes: seq<seq<Field>>
    var lastContext: nat
    var lastHelper: Js
    var source: seq<Item>
    var pending: string

    ghost function Abs(): State
      reads this
    {
      State(inlineStack, compileStack, stackSlot, hash, hashes, lastContext, lastHelper, source, pending)
    }

    constructor (environment: Environment)
      ensures this.environment == environment && Abs() == INITIAL
    {
      this.environment := environment;
      inlineStack, compileStack, stackSlot, hash, hashes := [], [], 0, None, [];
      lastContext, lastHelper, source, pending := 0, UndefinedLit, [], "";
    }

    // ----- stack primitives -----

    method PushEntry(e: Entry)
      modifies `inlineStack
      ensures Abs() == Push(old(Abs()), e)
    {
      inlineStack := inlineStack + [e];
    }

    method PopStack(wrapped: bool) returns (ok: bool, e: Entry)
      modifies `inlineStack, `compileStack, `stackSlot
      ensures ok == PopEntry(old(Abs()), wrapped).Ok?
      ensures ok ==> (e, Abs()) == PopEntry(old(Abs()), wrapped).value
    {
      var inl := inlineStack != [];
      if inl {
        e := inlineStack[|inlineStack| - 1];
        inlineStack := inlineStack[..|inlineStack| - 1];
      } else if compileStack != [] {
        e := compileStack[|compileStack| - 1];
        compileStack := compileStack[..|compileStack| - 1];
      } else {
        e := Value(UndefinedLit);
      }
      if !wrapped && e.Literal? {
        return true, e;
      }
      if !inl {
        if stackSlot == 0 {
          return false, e;
        }
        stackSlot := stackSlot - 1;
      }
      ok := true;
    }

    method IncrStack() returns (slot: nat)
      modifies `stackSlot
      ensures stackSlot == old(stackSlot) + 1 && slot == stackSlot
    {
      stackSlot := stackSlot + 1;
      slot := stackSlot;
    }

    method PushSource(items: seq<Item>)
      modifies `source, `pending
      ensures Abs() == Emit(environment.isSimple, old(Abs()), items)
    {
      if pending != "" {
        source := source + [AppendItem(environment.isSimple, Text(pending))];
        pending := "";
      }
      source := source + items;
    }

    method FlushInlineStack()
      modifies `inlineStack, `compileStack, `stackSlot, `source, `pending
      ensures Abs() == FlushInline(environment.isSimple, old(Abs()))
    {
      var entries := inlineStack;
      inlineStack := [];
      var b := 0;
      while b < |entries|
        invariant 0 <= b <= |entries|
        invariant FlushInline(environment.isSimple, old(Abs())) == FlushAll(environment.isSimple, Abs(), entries[b..])
      {
        var e := entries[b];
        assert entries[b..][0] == e && entries[b..][1..] == entries[b + 1..];
        if e.Literal? {
          compileStack := compileStack + [e];
        } else {
          var slot := IncrStack();
          PushSource([Code(Set(slot, e.js))]);
          compileStack := compileStack + [Value(Read(Slot(slot)))];
        }
        b := b + 1;
      }
    }

    /** The callback's result is passed as the guard and the part it looks up. */
    method ReplaceTop(g: Guard, part: string) returns (ok: bool)
      modifies `inlineStack, `compileStack, `stackSlot
      ensures ok == ReplaceStack(old(Abs()), g, part).Ok?
      ensures ok ==> Abs() == ReplaceStack(old(Abs()), g, part).value
    {
      if inlineStack == [] {
        return false;
      }
      ghost var below := inlineStack[..|inlineStack| - 1];
      var e, js;
      ok, e := PopStack(true);
      assert ok && inlineStack == below;
      if e.Literal? {
        js := Guarded(g, e.js, e.js, part);
      } else {
        var usedSlot := stackSlot == 0;
        var slot := stackSlot;
        if usedSlot {
          slot := IncrStack();
        }
        PushEntry(Value(Read(Slot(slot))));
        js := Guarded(g, Assign(Slot(slot), e.js), Read(Slot(slot)), part);
        var _, _ := PopStack(false);
        assert inlineStack == below;
        if usedSlot {
          stackSlot := stackSlot - 1;
        }
      }
      PushEntry(Value(js));
    }

    method ReplaceParts(g: Guard, parts: seq<string>) returns (ok: bool)
      modifies `inlineStack, `compileStack, `stackSlot
      ensures ok == ReplaceAll(old(Abs()), g, parts).Ok?
      ensures ok ==> Abs() == ReplaceAll(old(Abs()), g, parts).value
    {
      ghost var goal := ReplaceAll(Abs(), g, parts);
      assert parts[0..] == parts;
      var d := 0;
      while d < |parts|
        invariant 0 <= d <= |parts|
        invariant goal == ReplaceAll(Abs(), g, parts[d..])
      {
        ReplaceAllStep(Abs(), g, parts, d);
        ok := ReplaceTop(g, parts[d]);
        if !ok {
          return;
        }
        d := d + 1;
      }
      ok := true;
    }

    // ----- calls -----

    method PopJs() returns (ok: bool, js: Js)
      modifies `inlineStack, `compileStack, `stackSlot
      ensures ok == Pop(old(Abs())).Ok?
      ensures ok ==> (js, Abs()) == Pop(old(Abs())).value
    {
      var e;
      ok, e := PopStack(false);
      js := e.js;
    }

    /** setupOptions and setupParams: hash, inverse, program, then the parameters from the last to the first */
    method SetupCall(name: string, n: nat) returns (ok: bool, options: Js, params: seq<Js>)
      modifies `inlineStack, `compileStack, `stackSlot
      ensures ok == SetupParams(old(Abs()), name, n).Ok?
      ensures ok ==> (options, params, Abs()) == SetupParams(old(Abs()), name, n).value
    {
      options, params := UndefinedLit, [];
      var h, inverse, program;
      ok, h := PopJs();
      if !ok {
        return;
      }
      ok, inverse := PopJs();
      if !ok {
        return;
      }
      ok, program := PopJs();
      if !ok {
        return;
      }
      ok, params := PopArguments(n);
      options := Options(name, h, program, inverse);
    }

    method PopArguments(n: nat) returns (ok: bool, params: seq<Js>)
      modifies `inlineStack, `compileStack, `stackSlot
      ensures ok == PopParams(old(Abs()), n).Ok?
      ensures ok ==> (params, Abs()) == PopParams(old(Abs()), n).value
    {
      params := [];
      var k := n;
      while k > 0
        invariant 0 <= k <= n
        invariant PopParams(old(Abs()), n).Ok? == PopParams(Abs(), k).Ok?
        invariant PopParams(Abs(), k).Ok? ==>
                    && PopParams(old(Abs()), n).value.0 == PopParams(Abs(), k).value.0 + params
                    && PopParams(old(Abs()), n).value.1 == PopParams(Abs(), k).value.1
      {
        var p;
        ok, p := PopJs();
        if !ok {
          return;
        }
        params := [p] + params;
        k := k - 1;
      }
      assert [] + params == params;
      ok := true;
    }

    // ----- the opcodes -----

    method DoLookup(parts: seq<string>, falsy: bool) returns (ok: bool)
      modifies `inlineStack, `compileStack, `stackSlot
      ensures ok == LookupEffect(old(Abs()), parts, falsy).Ok?
      ensures ok ==> Abs() == LookupEffect(old(Abs()), parts, falsy).value
    {
      PushEntry(Literal(ContextVar(lastContext)));
      ok := ReplaceParts(if falsy then TruthGuard else NullGuard, parts);
    }

    method DoLookupData(depth: nat, parts: seq<string>) returns (ok: bool)
      modifies `inlineStack, `compileStack, `stackSlot
      ensures ok == DataEffect(old(Abs()), depth, parts).Ok?
      ensures ok ==> Abs() == DataEffect(old(Abs()), depth, parts).value
    {
      PushEntry(Literal(if depth == 0 then DataVar else DataAt(depth)));
      ok := ReplaceParts(TruthGuard, parts);
    }

    method DoPushProgram(child: Option<nat>) returns (ok: bool)
      modifies `inlineStack
      ensures ok == ProgramEffect(environment, old(Abs()), child).Ok?
      ensures ok ==> Abs() == ProgramEffect(environment, old(Abs()), child).value
    {
      ok := child.None? || child.value < |environment.children|;
      if ok {
        PushEntry(Literal(if child.None? then NullLit else ProgramRef(KeyOf(environment.children[child.value]))));
      }
    }

    method DoPushHash()
      modifies `hash, `hashes
      ensures Abs() == PushHashEffect(old(Abs()))
    {
      if hash.Some? {
        hashes := hashes + [hash.value];
      }
      hash := Some([]);
    }

    method DoAssignToHash(key: string) returns (ok: bool)
      modifies this
      ensures ok == AssignEffect(old(Abs()), key).Ok?
      ensures ok ==> Abs() == AssignEffect(old(Abs()), key).value
    {
      var v;
      ok, v := PopJs();
      if ok {
        ok := hash.Some?;
        if ok {
          hash := Some(hash.value + [Field(key, v)]);
        }
      }
    }

    method DoPopHash() returns (ok: bool)
      modifies this
      ensures ok == PopHashEffect(old(Abs())).Ok?
      ensures ok ==> Abs() == PopHashEffect(old(Abs())).value
    {
      if hash.None? {
        return false;
      }
      var fields := hash.value;
      if hashes == [] {
        hash := None;
      } else {
        hash := Some(hashes[|hashes| - 1]);
        hashes := hashes[..|hashes| - 1];
      }
      PushEntry(Value(ObjectLit(fields)));
      ok := true;
    }

    method DoResolvePossibleLambda() returns (ok: bool)
      modifies this
      ensures ok == LambdaEffect(old(Abs())).Ok?
      ensures ok ==> Abs() == LambdaEffect(old(Abs())).value
    {
      var v;
      ok, v := PopJs();
      if ok {
        PushEntry(Value(Lambda(v, ContextVar(0))));
      }
    }

    method DoInvokeHelper(arity: nat, name: string, isSimple: bool) returns (ok: bool)
      modifies this
      ensures ok == HelperEffect(old(Abs()), arity, name, isSimple).Ok?
      ensures ok ==> Abs() == HelperEffect(old(Abs()), arity, name, isSimple).value
    {
      var found;
      ok, found := PopJs();
      if ok {
        var options, params;
        ok, options, params := SetupCall(name, arity);
        if ok {
          PushEntry(Value(HelperCall(Callee(name, found, isSimple), params, options)));
        }
      }
    }

    method DoInvokeKnownHelper(arity: nat, name: string) returns (ok: bool)
      modifies this
      ensures ok == KnownHelperEffect(old(Abs()), arity, name).Ok?
      ensures ok ==> Abs() == KnownHelperEffect(old(Abs()), arity, name).value
    {
      var options, params;
      ok, options, params := SetupCall(name, arity);
      if ok {
        PushEntry(Value(HelperCall(Get(HelpersVar, name), params, options)));
      }
    }

    method DoInvokeAmbiguous(name: string, isBlock: bool) returns (ok: bool)
      modifies this
      ensures ok == AmbiguousEffect(old(Abs()), name, isBlock).Ok?
      ensures ok ==> Abs() == AmbiguousEffect(old(Abs()), name, isBlock).value
    {
      var found;
      ok, found := PopJs();
      if ok {
        PushEntry(Literal(ObjectLit([])));
        var options, params;
        ok, options, params := SetupCall(name, 0);
        if ok {
          lastHelper := Get(HelpersVar, name);
          PushEntry(Value(AmbiguousCall(name, found, options, isBlock)));
        }
      }
    }

    method DoInvokePartial(name: string, indent: string) returns (ok: bool)
      modifies this
      ensures ok == PartialEffect(old(Abs()), name, indent).Ok?
      ensures ok ==> Abs() == PartialEffect(old(Abs()), name, indent).value
    {
      var context;
      ok, context := PopJs();
      if ok {
        var h;
        ok, h := PopJs();
        if ok {
          PushEntry(Value(PartialJs(Get(PartialsVar, name), indent, name, context, h)));
        }
      }
    }

    method DoBlockValue(name: Option<string>) returns (ok: bool)
      modifies this
      ensures ok == BlockEffect(old(Abs()), name).Ok?
      ensures ok ==> Abs() == BlockEffect(old(Abs()), name).value
    {
      if name.None? {
        return false;
      }
      var options, params;
      ok, options, params := SetupCall(name.value, 0);
      if ok {
        var v;
        ok, v := PopJs();
        if ok {
          PushEntry(Value(CallJs(BLOCK_HELPER_MISSING, ContextVar(0), [v, options])));
        }
      }
    }

    method DoAmbiguousBlockValue() returns (ok: bool)
      modifies this
      ensures ok == AmbiguousBlockEffect(environment.isSimple, old(Abs())).Ok?
      ensures ok ==> Abs() == AmbiguousBlockEffect(environment.isSimple, old(Abs())).value
    {
      var options, params;
      ok, options, params := SetupCall("", 0);
      if ok {
        FlushInlineStack();
        PushMissing();
      }
    }

    /** The assignment to topStack() that ambiguousBlockValue writes. */
    method PushMissing()
      modifies `source, `pending
      ensures Abs() == MissingEffect(environment.isSimple, old(Abs()))
    {
      var top := if compileStack == [] then UndefinedLit else compileStack[|compileStack| - 1].js;
      PushSource(SetMissing(lastHelper, top));
    }

    method DoAppend() returns (ok: bool)
      modifies this
      ensures ok == AppendEffect(environment.isSimple, old(Abs())).Ok?
      ensures ok ==> Abs() == AppendEffect(environment.isSimple, old(Abs())).value
    {
      FlushInlineStack();
      var v;
      ok, v := PopJs();
      if ok {
        if environment.isSimple {
          PushSource([Code(ReturnUnlessNull(v)), Code(ElseReturnEmpty)]);
        } else {
          PushSource([Code(AppendUnlessNull(v))]);
        }
      }
    }

    method DoAppendEscaped() returns (ok: bool)
      modifies this
      ensures ok == AppendEscapedEffect(environment.isSimple, old(Abs())).Ok?
      ensures ok ==> Abs() == AppendEscapedEffect(environment.isSimple, old(Abs())).value
    {
      var v;
      ok, v := PopJs();
      if ok {
        PushSource([AppendItem(environment.isSimple, Escaped(v))]);
      }
    }

    /** this[opcode].apply(this, args) */
    method Dispatch(op: Opcode) returns (ok: bool)
      modifies this
      ensures ok == Step(environment, op, old(Abs())).Ok?
      ensures ok ==> Abs() == Step(environment, op, old(Abs())).value
    {
      if IsOperand(op) {
        ok := DispatchOperand(op);
      } else {
        ok := DispatchUse(op);
      }
    }

    /** The opcodes for contexts, values and hashes. */
    method DispatchOperand(op: Opcode) returns (ok: bool)
      requires IsOperand(op)
      modifies this
      ensures ok == Step(environment, op, old(Abs())).Ok?
      ensures ok ==> Abs() == Step(environment, op, old(Abs())).value
    {
      ok := true;
      match op
      case GetContext(depth) => lastContext := depth;
      case PushContext => PushEntry(Literal(ContextVar(lastContext)));
      case LookupOnContext(parts, falsy, _) => ok := DoLookup(parts, falsy);
      case LookupData(depth, parts) => ok := DoLookupData(depth, parts);
      case PushString(text) => PushEntry(Literal(StringLit(text)));
      case PushLiteral(text) => PushEntry(Literal(RawLit(text)));
      case PushUndefined => PushEntry(Value(UndefinedLit));
      case PushProgram(child) => ok := DoPushProgram(child);
      case PushHash => DoPushHash();
      case AssignToHash(key) => ok := DoAssignToHash(key);
      case PopHash => ok := DoPopHash();
      case EmptyHash => PushEntry(Literal(ObjectLit([])));
    }

    /** The opcodes for calls and output. */
    method DispatchUse(op: Opcode) returns (ok: bool)
      requires !IsOperand(op)
      modifies this
      ensures ok == Step(environment, op, old(Abs())).Ok?
      ensures ok ==> Abs() == Step(environment, op, old(Abs())).value
    {
      ok := true;
      match op
      case ResolvePossibleLambda => ok := DoResolvePossibleLambda();
      case InvokeHelper(arity, name, isSimple) => ok := DoInvokeHelper(arity, name, isSimple);
      case InvokeKnownHelper(arity, name) => ok := DoInvokeKnownHelper(arity, name);
      case InvokeAmbiguous(name, isBlock) => ok := DoInvokeAmbiguous(name, isBlock);
      case InvokePartial(name, indent) => ok := DoInvokePartial(name, indent);
      case BlockValue(name) => ok := DoBlockValue(name);
      case AmbiguousBlockValue => ok := DoAmbiguousBlockValue();
      case Append => ok := DoAppend();
      case AppendEscaped => ok := DoAppendEscaped();
      case AppendContent(text) => pending := pending + text;
    }

    /** compile, up to the source array that mergeSource works on */
    method Compile() returns (ok: bool)
      requires Abs() == INITIAL
      modifies this
      ensures ok == Generate(environment).Ok?
      ensures ok ==> source == Generate(environment).value
    {
      var ops := environment.opcodes;
      assert ops[0..] == ops;
      var f := 0;
      while f < |ops|
        invariant 0 <= f <= |ops|
        invariant Run(environment, ops, INITIAL) == Run(environment, ops[f..], Abs())
      {
        assert ops[f..][0] == ops[f] && ops[f..][1..] == ops[f + 1..];
        ok := Dispatch(ops[f]);
        if !ok {
          return;
        }
        f := f + 1;
      }
      PushSource([]);
      ok := stackSlot == 0 && inlineStack == [] && compileStack == [];
    }
  }
}
