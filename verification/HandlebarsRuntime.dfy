/**
 A runtime with JavaScript objects, closures and the built-in helpers, in which
 a call may fail to end: it is followed to a given number of nested calls, and
 its world tells whether it was cut off, or raised.  Every call that ends runs the
 code of its entry, which is what the correctness of whole templates asks for.

 There are no partials in it and no data beside what each hands on, and own
 properties are visited in the order in which they were added.  The length of a
 list or a text is no property here.
 */
module HandlebarsRuntime {
  import opened Wrappers
  import opened HandlebarsSyntax
  import opened HandlebarsCompiler
  import opened HandlebarsGenerator
  import opened HandlebarsTranslation
  import opened HandlebarsSemantics
  import opened HandlebarsMerge
  import opened HandlebarsPrograms
  import opened HandlebarsDepths
  import opened HandlebarsCorrectness
  import opened HandlebarsTemplates

  datatype Helper = HelperMissing | BlockHelperMissing | Each | If | Unless | With | Log | Lookup

  datatype Value =
    | Undefined
    | Null
    | String(text: string)
    | Primitive(text: string)                              // true, false and numbers
    | Object(fields: seq<(string, Value)>)
    | List(items: seq<Value>)
    | NoProgram
    | BuiltIn(helper: Helper)
    | Closure(key: Key, outer: Option<nat -> Value>, data: Value, helpers: Value, partials: Value)

  datatype World = Going | Stopped

  type Engine = Runtime<Value, World>

  // ----- objects -----

  function Put(fields: seq<(string, Value)>, key: string, value: Value): seq<(string, Value)>
    decreases fields
  {
    if fields == [] then [(key, value)]
    else if fields[0].0 == key then [(key, value)] + fields[1..]
    else [fields[0]] + Put(fields[1..], key, value)
  }

  /** In an object literal the last of several fields of one name counts. */
  function PutAll(fields: seq<(string, Value)>, more: seq<(string, Value)>): seq<(string, Value)>
    decreases more
  {
    if more == [] then fields else PutAll(Put(fields, more[0].0, more[0].1), more[1..])
  }

  function FieldOf(fields: seq<(string, Value)>, name: string): Value
    decreases fields
  {
    if fields == [] then Undefined
    else if fields[0].0 == name then fields[0].1
    else FieldOf(fields[1..], name)
  }

  function Digits(n: nat): string
    decreases n
  {
    (if n < 10 then "" else Digits(n / 10)) + [['0', '1', '2', '3', '4', '5', '6', '7', '8', '9'][n % 10]]
  }

  /** The own properties that may be visited. */
  function Members(v: Value): seq<(string, Value)> {
    match v
    case Object(fields) => fields
    case List(items) => seq(|items|, i requires 0 <= i < |items| => (Digits(i), items[i]))
    case _ => []
  }

  function Property(v: Value, name: string): Value {
    FieldOf(Members(v), name)
  }

  predicate IsZero(number: string) {
    forall c <- number :: c == '0' || c == '-' || c == '.'
  }

  predicate IsTruthy(v: Value) {
    match v
    case Undefined => false
    case Null => false
    case String(text) => text != ""
    case Primitive(text) => text != "false" && !IsZero(text)
    case _ => true
  }

  predicate IsMissing(v: Value) {
    v.Undefined? || v.Null?
  }

  predicate IsCallable(v: Value) {
    v.NoProgram? || v.BuiltIn? || v.Closure?
  }

  function Parent(data: Value, depth: nat): Value
    decreases depth
  {
    if depth == 0 || !IsTruthy(data) then data else Parent(Property(data, "_parent"), depth - 1)
  }

  function Shown(v: Value): string
    decreases v
  {
    match v
    case Undefined => "undefined"
    case Null => "null"
    case String(text) => text
    case Primitive(text) => text
    case Object(_) => "[object Object]"
    case List(items) => ShownAll(items)
    case _ => "function"
  }

  /** The elements of a list, where null and undefined are empty. */
  function ShownAll(items: seq<Value>): string
    decreases items
  {
    if items == [] then ""
    else (if IsMissing(items[0]) then "" else Shown(items[0]))
         + (if |items| == 1 then "" else ",") + ShownAll(items[1..])
  }

  function EscapedChar(c: char): string {
    match c
    case '&' => "&amp;"
    case '<' => "&lt;"
    case '>' => "&gt;"
    case '"' => "&quot;"
    case '\'' => "&#x27;"
    case '`' => "&#x60;"
    case _ => [c]
  }

  function EscapedText(s: string): string
    decreases s
  {
    if s == "" then "" else EscapedChar(s[0]) + EscapedText(s[1..])
  }

  function EscapedValue(v: Value): string {
    if IsMissing(v) then "" else EscapedText(Shown(v))
  }

  // ----- built-in helpers -----

  function Argument(args: seq<Value>, i: nat): Value {
    if i < |args| then args[i] else Undefined
  }

  /** A value, or what a function given in its place returns. */
  function Resolved(rt: Engine, v: Value, self: Value, w: World): (Value, World) {
    if rt.isFunction(v) then rt.call(v, self, [], w) else (v, w)
  }

  /** null, undefined, false, the empty text and the empty list, but not zero */
  predicate IsEmpty(v: Value) {
    || (!IsTruthy(v) && !(v.Primitive? && IsZero(v.text)))
    || (v.List? && v.items == [])
  }

  /** The data for one item of a list or an object. */
  function ItemData(data: Value, extra: seq<(string, Value)>): Value {
    if !data.Object? then Undefined
    else Object(PutAll(data.fields, [("_parent", data)] + extra))
  }

  function Flag(b: bool): Value {
    Primitive(if b then "true" else "false")
  }

  function MemberData(isList: bool, all: seq<(string, Value)>, i: nat): seq<(string, Value)>
    requires i < |all|
  {
    [("index", Primitive(Digits(i))), ("first", Flag(i == 0)),
     if isList then ("last", Flag(i == |all| - 1)) else ("key", String(all[i].0))]
  }

  function MemberCall(rt: Engine, fn: Value, data: Value, isList: bool, all: seq<(string, Value)>, i: nat, w: World)
    : (Value, World)
    requires i < |all|
  {
    rt.call(fn, Undefined, [all[i].1, Object([("data", ItemData(data, MemberData(isList, all, i)))])], w)
  }

  /** The texts of the members from the i-th on, one after the other. */
  function EachMember(rt: Engine, fn: Value, data: Value, isList: bool, all: seq<(string, Value)>, i: nat, w: World)
    : (string, World)
    requires i <= |all|
    decreases |all| - i
  {
    if i == |all| then ("", w)
    else
      var v := MemberCall(rt, fn, data, isList, all, i, w);
      var rest := EachMember(rt, fn, data, isList, all, i + 1, v.1);
      (Shown(v.0) + rest.0, rest.1)
  }

  function Branch(rt: Engine, self: Value, options: Value, chosen: string, w: World): (Value, World) {
    rt.call(Property(options, chosen), Undefined, [self], w)
  }

  function EachOf(rt: Engine, v: Value, self: Value, options: Value, w: World): (Value, World) {
    if Members(v) == [] then Branch(rt, self, options, "inverse", w)
    else
      var t := EachMember(rt, Property(options, "fn"), Property(options, "data"), v.List?, Members(v), 0, w);
      (String(t.0), t.1)
  }

  function CallFn(rt: Engine, v: Value, options: Value, w: World): (Value, World) {
    rt.call(Property(options, "fn"), Undefined, [v, options], w)
  }

  function HelperCall(rt: Engine, helper: Helper, self: Value, args: seq<Value>, w: World): (Value, World) {
    var first, options := Argument(args, 0), Argument(args, 1);
    match helper
    case HelperMissing => (Undefined, if |args| == 1 then w else Stopped)
    case BlockHelperMissing =>
      if first.Primitive? && first.text == "true" then Branch(rt, self, options, "fn", w)
      else if first.Primitive? && first.text == "false" then Branch(rt, self, options, "inverse", w)
      else if IsMissing(first) then Branch(rt, self, options, "inverse", w)
      else if first.List? then EachOf(rt, first, self, options, w)
      else CallFn(rt, first, options, w)
    case Each =>
      var v := Resolved(rt, first, self, w);
      EachOf(rt, v.0, self, options, v.1)
    case If =>
      var v := Resolved(rt, first, self, w);
      Branch(rt, self, options, if Chosen(v.0, options) then "fn" else "inverse", v.1)
    case Unless =>
      var v := Resolved(rt, first, self, w);
      Branch(rt, self, options, if Chosen(v.0, options) then "inverse" else "fn", v.1)
    case With =>
      var v := Resolved(rt, first, self, w);
      if IsEmpty(v.0) then Branch(rt, self, options, "inverse", v.1)
      else CallFn(rt, v.0, options, v.1)
    case Log => (Undefined, w)
    case Lookup => (if IsTruthy(first) then Property(first, Shown(options)) else first, w)
  }

  /** A number that is zero is chosen only if the hash says so. */
  predicate Chosen(v: Value, options: Value) {
    (IsTruthy(Property(Property(options, "hash"), "includeZero")) || IsTruthy(v)) && !IsEmpty(v)
  }

  // ----- the runtime -----

  /** All of the runtime but its calls. */
  const PRIMITIVES: Engine :=
    Runtime(Undefined, Null, NoProgram, s => String(s), s => Primitive(s), v => !IsMissing(v), v => IsTruthy(v),
            v => IsCallable(v), (v, name) => Property(v, name), fields => Object(PutAll([], fields)),
            (key, scope: Scope<Value>) => Closure(key, scope.outer, scope.data, scope.helpers, scope.partials),
            (v, depth) => Parent(v, depth), (f, self, args, w) => (Undefined, Stopped),
            (v, self, w) => (Undefined, Stopped), (f, indent, name, context, hash, w) => (Undefined, Stopped),
            v => Shown(v), v => EscapedValue(v))

  /** The runtime over a table of programs, where calls may be nested to the given depth. */
  ghost function EngineOver(ctx: Context, nesting: nat): Engine
    decreases nesting, 1
  {
    PRIMITIVES.(call := (f, self, args, w) => Called(ctx, nesting, f, self, args, w),
                lambda := (v, self, w) => if IsCallable(v) then Called(ctx, nesting, v, self, [], w) else (v, w))
  }

  ghost function Called(ctx: Context, nesting: nat, f: Value, self: Value, args: seq<Value>, w: World): (Value, World)
    decreases nesting, 0
  {
    if nesting == 0 || w.Stopped? then (Undefined, Stopped)
    else CalledIn(ctx, EngineOver(ctx, nesting - 1), f, self, args, w)
  }

  /** One call, where those that it makes are calls of the given runtime. */
  ghost function CalledIn(ctx: Context, rt: Engine, f: Value, self: Value, args: seq<Value>, w: World): (Value, World) {
    match f
    case NoProgram => (String(""), w)
    case BuiltIn(helper) => HelperCall(rt, helper, self, args, w)
    case Closure(key, outer, data, helpers, partials) =>
      if HasEntry(ctx, key)
      then
        var code := EntryOf(ctx, key);
        CallBody(rt, Inner(rt, Scope(outer, data, helpers, partials), args, code.useDepths), code.body, w)
      else (Undefined, Stopped)
    case _ => (Undefined, Stopped)
  }

  ghost predicate HasEntry(ctx: Context, key: Key) {
    exists h <- ctx.environments :: h in ctx.code && KeyOf(ctx.environments[h]) == key
  }

  ghost function EntryOf(ctx: Context, key: Key): Compiled
    requires HasEntry(ctx, key)
  {
    var h :| h in ctx.environments && h in ctx.code && KeyOf(ctx.environments[h]) == key;
    ctx.code[h]
  }

  // ----- deeper nesting changes no call that ends -----

  /**
   The second runtime differs in its calls alone, and gives what the first gives
   where that ends; nothing ends in the first once it has stopped.
   */
  ghost predicate Extends(a: Engine, b: Engine) {
    && b == a.(call := b.call, lambda := b.lambda)
    && (forall f, self, args, w :: AgreesOn(w, a.call(f, self, args, w), b.call(f, self, args, w)))
    && (forall v, self, w :: AgreesOn(w, a.lambda(v, self, w), b.lambda(v, self, w)))
    && (forall f, indent, name, context, hash :: a.partial(f, indent, name, context, hash, Stopped).1 == Stopped)
  }

  ghost predicate AgreesOn(w: World, x: (Value, World), y: (Value, World)) {
    (w.Stopped? ==> x.1.Stopped?) && (x.1.Going? ==> y == x)
  }

  ghost predicate Agrees<R(!new)>(w: World, x: (R, Store<Value, World>), y: (R, Store<Value, World>)) {
    (w.Stopped? ==> x.1.world.Stopped?) && (x.1.world.Going? ==> y == x)
  }

  lemma {:induction false} EvalAgrees(a: Engine, b: Engine, fr: Frame<Value>, e: Js, s: Store<Value, World>)
    requires Extends(a, b)
    ensures Agrees(s.world, Eval(a, fr, e, s), Eval(b, fr, e, s))
    decreases e, 1
  {
    match e
    case Get(target, _) => EvalAgrees(a, b, fr, target, s);
    case IfNotNull(_, _, _) => NotNullAgrees(a, b, fr, e, s);
    case IfFunction(_, _, _) => FunctionAgrees(a, b, fr, e, s);
    case And(_, _) => AndAgrees(a, b, fr, e, s);
    case Or(_, _) => OrAgrees(a, b, fr, e, s);
    case Assign(_, value) => EvalAgrees(a, b, fr, value, s);
    case Comma(left, right) =>
      EvalAgrees(a, b, fr, left, s);
      EvalAgrees(a, b, fr, right, Eval(a, fr, left, s).1);
    case CallJs(_, _, _) => CallAgrees(a, b, fr, e, s);
    case Lambda(_, _) => LambdaAgrees(a, b, fr, e, s);
    case PartialJs(_, _, _, _, _) => PartialAgrees(a, b, fr, e, s);
    case ObjectLit(fields) => FieldsAgree(a, b, fr, fields, s);
    case _ =>
  }

  lemma {:induction false} CallAgrees(a: Engine, b: Engine, fr: Frame<Value>, e: Js, s: Store<Value, World>)
    requires Extends(a, b) && e.CallJs?
    ensures Agrees(s.world, Eval(a, fr, e, s), Eval(b, fr, e, s))
    decreases e, 0
  {
    EvalAgrees(a, b, fr, e.callee, s);
    var f := Eval(a, fr, e.callee, s);
    EvalAgrees(a, b, fr, e.self, f.1);
    var o := Eval(a, fr, e.self, f.1);
    AllAgree(a, b, fr, e.args, o.1);
    var args := EvalAll(a, fr, e.args, o.1);
    assert AgreesOn(args.1.world, a.call(f.0, o.0, args.0, args.1.world), b.call(f.0, o.0, args.0, args.1.world));
  }

  lemma {:induction false} LambdaAgrees(a: Engine, b: Engine, fr: Frame<Value>, e: Js, s: Store<Value, World>)
    requires Extends(a, b) && e.Lambda?
    ensures Agrees(s.world, Eval(a, fr, e, s), Eval(b, fr, e, s))
    decreases e, 0
  {
    EvalAgrees(a, b, fr, e.value, s);
    var v := Eval(a, fr, e.value, s);
    EvalAgrees(a, b, fr, e.self, v.1);
    var o := Eval(a, fr, e.self, v.1);
    assert AgreesOn(o.1.world, a.lambda(v.0, o.0, o.1.world), b.lambda(v.0, o.0, o.1.world));
  }

  lemma {:induction false} PartialAgrees(a: Engine, b: Engine, fr: Frame<Value>, e: Js, s: Store<Value, World>)
    requires Extends(a, b) && e.PartialJs?
    ensures Agrees(s.world, Eval(a, fr, e, s), Eval(b, fr, e, s))
    decreases e, 0
  {
    EvalAgrees(a, b, fr, e.callee, s);
    var f := Eval(a, fr, e.callee, s);
    EvalAgrees(a, b, fr, e.context, f.1);
    var c := Eval(a, fr, e.context, f.1);
    EvalAgrees(a, b, fr, e.hash, c.1);
  }

  lemma {:induction false} NotNullAgrees(a: Engine, b: Engine, fr: Frame<Value>, e: Js, s: Store<Value, World>)
    requires Extends(a, b) && e.IfNotNull?
    ensures Agrees(s.world, Eval(a, fr, e, s), Eval(b, fr, e, s))
    decreases e, 0
  {
    var t := Eval(a, fr, e.test, s);
    EvalAgrees(a, b, fr, e.test, s);
    EvalAgrees(a, b, fr, e.yes, t.1);
    EvalAgrees(a, b, fr, e.no, t.1);
  }

  lemma {:induction false} FunctionAgrees(a: Engine, b: Engine, fr: Frame<Value>, e: Js, s: Store<Value, World>)
    requires Extends(a, b) && e.IfFunction?
    ensures Agrees(s.world, Eval(a, fr, e, s), Eval(b, fr, e, s))
    decreases e, 0
  {
    var t := Eval(a, fr, e.test, s);
    EvalAgrees(a, b, fr, e.test, s);
    EvalAgrees(a, b, fr, e.yes, t.1);
    EvalAgrees(a, b, fr, e.no, t.1);
  }

  lemma {:induction false} AndAgrees(a: Engine, b: Engine, fr: Frame<Value>, e: Js, s: Store<Value, World>)
    requires Extends(a, b) && e.And?
    ensures Agrees(s.world, Eval(a, fr, e, s), Eval(b, fr, e, s))
    decreases e, 0
  {
    EvalAgrees(a, b, fr, e.left, s);
    EvalAgrees(a, b, fr, e.right, Eval(a, fr, e.left, s).1);
  }

  lemma {:induction false} OrAgrees(a: Engine, b: Engine, fr: Frame<Value>, e: Js, s: Store<Value, World>)
    requires Extends(a, b) && e.Or?
    ensures Agrees(s.world, Eval(a, fr, e, s), Eval(b, fr, e, s))
    decreases e, 0
  {
    EvalAgrees(a, b, fr, e.left, s);
    EvalAgrees(a, b, fr, e.right, Eval(a, fr, e.left, s).1);
  }

  lemma {:induction false} AllAgree(a: Engine, b: Engine, fr: Frame<Value>, es: seq<Js>, s: Store<Value, World>)
    requires Extends(a, b)
    ensures Agrees(s.world, EvalAll(a, fr, es, s), EvalAll(b, fr, es, s))
    decreases es, 1
  {
    if es != [] {
      EvalAgrees(a, b, fr, es[0], s);
      AllAgree(a, b, fr, es[1..], Eval(a, fr, es[0], s).1);
    }
  }

  lemma {:induction false} FieldsAgree(a: Engine, b: Engine, fr: Frame<Value>, fs: seq<Field>, s: Store<Value, World>)
    requires Extends(a, b)
    ensures Agrees(s.world, EvalFields(a, fr, fs, s), EvalFields(b, fr, fs, s))
    decreases fs, 1
  {
    if fs != [] {
      EvalAgrees(a, b, fr, fs[0].value, s);
      FieldsAgree(a, b, fr, fs[1..], Eval(a, fr, fs[0].value, s).1);
    }
  }

  lemma {:induction false} ChunkAgrees(a: Engine, b: Engine, fr: Frame<Value>, c: Chunk, s: Store<Value, World>)
    requires Extends(a, b)
    ensures Agrees(s.world, EvalChunk(a, fr, c, s), EvalChunk(b, fr, c, s))
  {
    if c.Escaped? {
      EvalAgrees(a, b, fr, c.value, s);
    }
  }

  lemma {:induction false} ChunksAgree(a: Engine, b: Engine, fr: Frame<Value>, cs: seq<Chunk>, s: Store<Value, World>)
    requires Extends(a, b)
    ensures Agrees(s.world, EvalChunks(a, fr, cs, s), EvalChunks(b, fr, cs, s))
    decreases |cs|
  {
    if cs != [] {
      ChunksAgree(a, b, fr, cs[..|cs| - 1], s);
      ChunkAgrees(a, b, fr, cs[|cs| - 1], EvalChunks(a, fr, cs[..|cs| - 1], s).1);
    }
  }

  ghost predicate ProgressAgrees(w: World, x: Progress<Value, World>, y: Progress<Value, World>) {
    (w.Stopped? ==> x.store.world.Stopped?) && (x.store.world.Going? ==> y == x)
  }

  lemma {:induction false} LineAgrees(a: Engine, b: Engine, fr: Frame<Value>, line: Line, buffer: string,
                                      s: Store<Value, World>)
    requires Extends(a, b)
    ensures ProgressAgrees(s.world, ExecLine(a, fr, line, buffer, s), ExecLine(b, fr, line, buffer, s))
  {
    match line
    case Set(_, e) => EvalAgrees(a, b, fr, e, s);
    case SetUnless(test, _, e) =>
      EvalAgrees(a, b, fr, test, s);
      EvalAgrees(a, b, fr, e, Eval(a, fr, test, s).1);
    case AppendUnlessNull(e) => EvalAgrees(a, b, fr, e, s);
    case ReturnUnlessNull(e) => EvalAgrees(a, b, fr, e, s);
    case ElseReturnEmpty =>
    case Return(chunk) => ChunkAgrees(a, b, fr, chunk, s);
  }

  lemma {:induction false} StmtAgrees(a: Engine, b: Engine, fr: Frame<Value>, stmt: Stmt, p: Progress<Value, World>)
    requires Extends(a, b)
    ensures ProgressAgrees(p.store.world, ExecStmt(a, fr, stmt, p), ExecStmt(b, fr, stmt, p))
  {
    if p.Running? {
      match stmt
      case Init(cs) => ChunksAgree(a, b, fr, cs, p.store);
      case AppendChunks(cs) => ChunksAgree(a, b, fr, cs, p.store);
      case Plain(line) => LineAgrees(a, b, fr, line, p.buffer, p.store);
      case ReturnChunks(cs) => ChunksAgree(a, b, fr, cs, p.store);
      case ReturnBuffer(cs) => ChunksAgree(a, b, fr, cs, p.store);
    }
  }

  lemma {:induction false} BodyAgrees(a: Engine, b: Engine, fr: Frame<Value>, body: seq<Stmt>,
                                      p: Progress<Value, World>)
    requires Extends(a, b)
    ensures ProgressAgrees(p.store.world, ExecBody(a, fr, body, p), ExecBody(b, fr, body, p))
    decreases |body|
  {
    if body != [] {
      var front := body[..|body| - 1];
      BodyAgrees(a, b, fr, front, p);
      StmtAgrees(a, b, fr, body[|body| - 1], ExecBody(a, fr, front, p));
    }
  }

  lemma {:induction false} CallBodyAgrees(a: Engine, b: Engine, fr: Frame<Value>, body: seq<Stmt>, w: World)
    requires Extends(a, b)
    ensures AgreesOn(w, CallBody(a, fr, body, w), CallBody(b, fr, body, w))
  {
    BodyAgrees(a, b, fr, body, Running("", Store(map[], w)));
  }

  lemma {:induction false} MemberAgrees(a: Engine, b: Engine, fn: Value, data: Value, isList: bool,
                                        all: seq<(string, Value)>, i: nat, w: World)
    requires Extends(a, b) && i < |all|
    ensures AgreesOn(w, MemberCall(a, fn, data, isList, all, i, w), MemberCall(b, fn, data, isList, all, i, w))
  {
  }

  lemma {:induction false} EachMemberAgrees(a: Engine, b: Engine, fn: Value, data: Value, isList: bool,
                                            all: seq<(string, Value)>, i: nat, w: World)
    requires Extends(a, b) && i <= |all|
    ensures var x, y := EachMember(a, fn, data, isList, all, i, w), EachMember(b, fn, data, isList, all, i, w);
            (w.Stopped? ==> x.1.Stopped?) && (x.1.Going? ==> y == x)
    decreases |all| - i
  {
    if i < |all| {
      MemberAgrees(a, b, fn, data, isList, all, i, w);
      EachMemberAgrees(a, b, fn, data, isList, all, i + 1, MemberCall(a, fn, data, isList, all, i, w).1);
    }
  }

  lemma {:induction false} EachAgrees(a: Engine, b: Engine, v: Value, self: Value, options: Value, w: World)
    requires Extends(a, b)
    ensures AgreesOn(w, EachOf(a, v, self, options, w), EachOf(b, v, self, options, w))
  {
    BranchAgrees(a, b, self, options, "inverse", w);
    EachMemberAgrees(a, b, Property(options, "fn"), Property(options, "data"), v.List?, Members(v), 0, w);
  }

  lemma {:induction false} ResolvedAgrees(a: Engine, b: Engine, v: Value, self: Value, w: World)
    requires Extends(a, b)
    ensures AgreesOn(w, Resolved(a, v, self, w), Resolved(b, v, self, w))
  {
  }

  lemma {:induction false} BranchAgrees(a: Engine, b: Engine, self: Value, options: Value, chosen: string, w: World)
    requires Extends(a, b)
    ensures AgreesOn(w, Branch(a, self, options, chosen, w), Branch(b, self, options, chosen, w))
  {
  }

  lemma {:induction false} FnAgrees(a: Engine, b: Engine, v: Value, options: Value, w: World)
    requires Extends(a, b)
    ensures AgreesOn(w, CallFn(a, v, options, w), CallFn(b, v, options, w))
  {
  }

  lemma {:induction false} HelperAgrees(a: Engine, b: Engine, helper: Helper, self: Value, args: seq<Value>, w: World)
    requires Extends(a, b)
    ensures AgreesOn(w, HelperCall(a, helper, self, args, w), HelperCall(b, helper, self, args, w))
  {
    var first, options := Argument(args, 0), Argument(args, 1);
    var v := Resolved(a, first, self, w);
    ResolvedAgrees(a, b, first, self, w);
    match helper
    case BlockHelperMissing =>
      BranchAgrees(a, b, self, options, "fn", w);
      BranchAgrees(a, b, self, options, "inverse", w);
      EachAgrees(a, b, first, self, options, w);
      FnAgrees(a, b, first, options, w);
    case Each => EachAgrees(a, b, v.0, self, options, v.1);
    case If => BranchAgrees(a, b, self, options, if Chosen(v.0, options) then "fn" else "inverse", v.1);
    case Unless => BranchAgrees(a, b, self, options, if Chosen(v.0, options) then "inverse" else "fn", v.1);
    case With =>
      BranchAgrees(a, b, self, options, "inverse", v.1);
      FnAgrees(a, b, v.0, options, v.1);
    case _ =>
  }

  /** Calls nested more deeply give the same, as long as they end. */
  lemma {:induction false} DeeperExtends(ctx: Context, nesting: nat)
    ensures Extends(EngineOver(ctx, nesting), EngineOver(ctx, nesting + 1))
    decreases nesting, 1
  {
    var a, b := EngineOver(ctx, nesting), EngineOver(ctx, nesting + 1);
    forall f, self, args, w
      ensures AgreesOn(w, a.call(f, self, args, w), b.call(f, self, args, w))
    {
      CalledDeeper(ctx, nesting, f, self, args, w);
    }
    forall v, self, w
      ensures AgreesOn(w, a.lambda(v, self, w), b.lambda(v, self, w))
    {
      CalledDeeper(ctx, nesting, v, self, [], w);
    }
  }

  lemma {:induction false} CalledDeeper(ctx: Context, nesting: nat, f: Value, self: Value, args: seq<Value>, w: World)
    ensures AgreesOn(w, Called(ctx, nesting, f, self, args, w), Called(ctx, nesting + 1, f, self, args, w))
    decreases nesting, 0
  {
    if nesting > 0 && w.Going? {
      DeeperExtends(ctx, nesting - 1);
      CalledAgrees(ctx, EngineOver(ctx, nesting - 1), EngineOver(ctx, nesting), f, self, args, w);
    }
  }

  lemma {:induction false} CalledAgrees(ctx: Context, a: Engine, b: Engine, f: Value, self: Value, args: seq<Value>,
                                        w: World)
    requires Extends(a, b)
    ensures AgreesOn(w, CalledIn(ctx, a, f, self, args, w), CalledIn(ctx, b, f, self, args, w))
  {
    match f
    case BuiltIn(helper) => HelperAgrees(a, b, helper, self, args, w);
    case Closure(key, outer, data, helpers, partials) =>
      if HasEntry(ctx, key) {
        var code := EntryOf(ctx, key);
        CallBodyAgrees(a, b, Inner(a, Scope(outer, data, helpers, partials), args, code.useDepths), code.body, w);
      }
    case _ =>
  }

  // ----- calls that end are correct -----

  lemma {:induction false} EntryOfKey(ctx: Context, h: nat, e: Environment)
    requires Table(ctx) && Refers(ctx, h, e) && h in ctx.code
    ensures HasEntry(ctx, KeyOf(e)) && EntryOf(ctx, KeyOf(e)) == ctx.code[h]
  {
    SameKey(ctx.environments[h], e);
    assert HasEntry(ctx, KeyOf(e));
    forall k | k in ctx.environments && KeyOf(ctx.environments[k]) == KeyOf(e)
      ensures k == h
    {
      SameKey(ctx.environments[k], ctx.environments[h]);
    }
  }

  ghost predicate Ends(ctx: Context, nesting: nat, f: Value, self: Value, args: seq<Value>) {
    EngineOver(ctx, nesting).call(f, self, args, Going).1.Going?
  }

  ghost function ProgramOf(key: Key, scope: Scope<Value>): Value {
    PRIMITIVES.program(key, scope)
  }

  /** A call of a nested program that ends runs the code of its entry. */
  lemma {:induction false} EndedCallRuns(ctx: Context, nesting: nat, h: nat, e: Environment,
                                         scope: Scope<Value>, self: Value, args: seq<Value>)
    requires Table(ctx) && Refers(ctx, h, e) && h in ctx.code
    requires Ends(ctx, nesting, ProgramOf(KeyOf(e), scope), self, args)
    ensures RunsCode(EngineOver(ctx, nesting), KeyOf(e), ctx.code[h], scope, self, args, Going)
  {
    EntryOfKey(ctx, h, e);
    EndedRun(ctx, nesting, KeyOf(e), scope, self, args);
  }

  lemma {:induction false} EndedRun(ctx: Context, nesting: nat, key: Key, scope: Scope<Value>, self: Value,
                                    args: seq<Value>)
    requires HasEntry(ctx, key) && Ends(ctx, nesting, ProgramOf(key, scope), self, args)
    ensures EngineOver(ctx, nesting).call(ProgramOf(key, scope), self, args, Going)
         == EntryRun(EngineOver(ctx, nesting), scope, args, EntryOf(ctx, key))
  {
    ProgramRuns(ctx, EngineOver(ctx, nesting - 1), key, scope, self, args);
    DeeperRun(ctx, nesting - 1, scope, args, EntryOf(ctx, key));
  }

  lemma {:induction false} DeeperRun(ctx: Context, nesting: nat, scope: Scope<Value>, args: seq<Value>, code: Compiled)
    ensures AgreesOn(Going, EntryRun(EngineOver(ctx, nesting), scope, args, code),
                            EntryRun(EngineOver(ctx, nesting + 1), scope, args, code))
  {
    DeeperExtends(ctx, nesting);
    SameBody(EngineOver(ctx, nesting), EngineOver(ctx, nesting + 1), scope, args, code);
  }

  lemma {:induction false} ProgramRuns(ctx: Context, rt: Engine, key: Key, scope: Scope<Value>, self: Value,
                                       args: seq<Value>)
    requires HasEntry(ctx, key)
    ensures CalledIn(ctx, rt, ProgramOf(key, scope), self, args, Going) == EntryRun(rt, scope, args, EntryOf(ctx, key))
  {
  }

  ghost function EntryRun(rt: Engine, scope: Scope<Value>, args: seq<Value>, code: Compiled): (Value, World) {
    CallBody(rt, Inner(rt, scope, args, code.useDepths), code.body, Going)
  }

  lemma {:induction false} SameBody(a: Engine, b: Engine, scope: Scope<Value>, args: seq<Value>, code: Compiled)
    requires Extends(a, b)
    ensures AgreesOn(Going, EntryRun(a, scope, args, code), EntryRun(b, scope, args, code))
  {
    CallBodyAgrees(a, b, Inner(a, scope, args, code.useDepths), code.body, Going);
    assert Inner(a, scope, args, code.useDepths) == Inner(b, scope, args, code.useDepths);
  }

  /** So it gives what the program denotes, at whatever depth it is nested and whatever it calls. */
  lemma {:induction false} EndedCallsAreCorrect(
      known: KnownHelpers, p: Program, code: Compiled, ctx: Context, q: Program, h: nat, nesting: nat,
      scope: Scope<Value>, self: Value, args: seq<Value>)
    requires CompilableStatements(p.statements) && CompiledTo(EnvironmentOf(known, p), code, ctx)
    requires Harmless(EnvironmentOf(known, p)) && AllKeepDepths(EnvironmentOf(known, p).children, [])
    requires NestedProgram(q, p) && CompilableStatements(q.statements) && Refers(ctx, h, EnvironmentOf(known, q))
    requires Ends(ctx, nesting, ProgramOf(KeyOf(EnvironmentOf(known, q)), scope), self, args)
    ensures var e := EnvironmentOf(known, q);
            && GenerableAll(q.statements)
            && CallGives(EngineOver(ctx, nesting), known, KeyOf(e), q, UsesDepths(e), scope, self, args, Going)
  {
    var e := EnvironmentOf(known, q);
    CompiledTable(EnvironmentOf(known, p), code, ctx);
    EndedCallRuns(ctx, nesting, h, e, scope, self, args);
    NestedProgramsAreCorrect(EngineOver(ctx, nesting), known, p, code, ctx, q, h, scope, self, args, Going);
  }

  /** How deep calls may be nested makes no difference to one that ends. */
  lemma {:induction false} NestingIrrelevant(ctx: Context, nesting: nat, more: nat, f: Value, self: Value,
                                             args: seq<Value>)
    requires nesting <= more && Ends(ctx, nesting, f, self, args)
    ensures EngineOver(ctx, more).call(f, self, args, Going) == EngineOver(ctx, nesting).call(f, self, args, Going)
    decreases more - nesting
  {
    if nesting < more {
      CalledDeeper(ctx, nesting, f, self, args, Going);
      NestingIrrelevant(ctx, nesting + 1, more, f, self, args);
    }
  }

  // ----- a program that may call itself -----

  function FooCall(): Sexpr {
    Call(Path("foo", ["foo"], 0, false), [Id(Path("this", [], 0, true))], NoHash)
  }

  /** The text x and what foo gives for the context. */
  function FooProgram(): Program {
    Program([Content("x"), Unescaped(FooCall())])
  }

  lemma {:induction false} FooCalled(rt: Engine, fr: Frame<Value>, known: KnownHelpers)
    requires rt == PRIMITIVES.(call := rt.call, lambda := rt.lambda) && "foo" !in known
    requires !IsTruthy(Property(fr.helpers, "foo")) && IsTruthy(Property(fr.context(0), "foo"))
    ensures DenHelper(rt, fr, known, FooCall(), None, None, Going) == FooResult(rt, fr)
  {
    var c, s := fr.context(0), FooCall();
    assert s.params[1..] == [];
    assert DenLookup(rt, c, true, ["foo"]) == Property(c, "foo");
    assert DenParam(rt, fr, known, s.params[0], Going) == (c, Going);
    assert DenParams(rt, fr, known, [], Going) == ([], Going) && [c] + [] == [c];
    assert DenParams(rt, fr, known, s.params, Going) == ([c], Going);
    var options := DenOptions(rt, fr, "foo", rt.record([]), None, None);
    assert [c] + [options] == [c, options];
  }

  ghost function FooResult(rt: Engine, fr: Frame<Value>): (Value, World) {
    var c := fr.context(0);
    rt.call(Property(c, "foo"), c, [c, DenOptions(rt, fr, "foo", rt.record([]), None, None)], Going)
  }

  lemma {:induction false} FooMeaning(rt: Engine, fr: Frame<Value>, known: KnownHelpers)
    requires rt == PRIMITIVES.(call := rt.call, lambda := rt.lambda) && "foo" !in known
    requires !IsTruthy(Property(fr.helpers, "foo")) && IsTruthy(Property(fr.context(0), "foo"))
    ensures GenerableAll(FooProgram().statements)
    ensures var r := FooResult(rt, fr);
            var shown := if IsMissing(r.0) then "" else Shown(r.0);
            DenProgram(rt, fr, known, FooProgram(), Going) == (String("x" + shown), r.1)
  {
    var ss, s, r := FooProgram().statements, Unescaped(FooCall()), FooResult(rt, fr);
    assert ss[1..] == [s];
    FooText(rt, fr, known);
    TextOfOne(rt, fr, known, s, Going);
    assert ss[0] == Content("x") && DenText(rt, fr, known, ss[0], Going) == ("x", Going);
  }

  lemma {:induction false} FooText(rt: Engine, fr: Frame<Value>, known: KnownHelpers)
    requires rt == PRIMITIVES.(call := rt.call, lambda := rt.lambda) && "foo" !in known
    requires !IsTruthy(Property(fr.helpers, "foo")) && IsTruthy(Property(fr.context(0), "foo"))
    ensures Generable(Unescaped(FooCall())) && GenerableAll([Unescaped(FooCall())])
    ensures var r := FooResult(rt, fr);
            DenText(rt, fr, known, Unescaped(FooCall()), Going)
            == (if IsMissing(r.0) then "" else Shown(r.0), r.1)
  {
    FooCalled(rt, fr, known);
    assert CompilableParams(FooCall().params);
    assert [Unescaped(FooCall())][1..] == [];
  }

  /** The program under whose entry a call of itself would run without end. */
  ghost predicate FooEntry(known: KnownHelpers, ctx: Context, key: Key) {
    HasEntry(ctx, key) && "foo" !in known && exists q | q == FooProgram() :: BodyOf(EntryOf(ctx, key), known, q)
  }

  lemma {:induction false} FooRun(known: KnownHelpers, ctx: Context, key: Key, rt: Engine, scope: Scope<Value>,
                                  args: seq<Value>)
    requires FooEntry(known, ctx, key) && rt == PRIMITIVES.(call := rt.call, lambda := rt.lambda)
    requires !IsTruthy(Property(scope.helpers, "foo")) && IsTruthy(Property(Argument(args, 0), "foo"))
    ensures var fr := Inner(rt, scope, args, EntryOf(ctx, key).useDepths);
            var r := FooResult(rt, fr);
            var shown := if IsMissing(r.0) then "" else Shown(r.0);
            fr.context(0) == Argument(args, 0)
            && EntryRun(rt, scope, args, EntryOf(ctx, key)) == (String("x" + shown), r.1)
  {
    var fr := Inner(rt, scope, args, EntryOf(ctx, key).useDepths);
    FooMeaning(rt, fr, known);
    CompiledTemplateIsCorrect(rt, fr, known, FooProgram(), Going);
  }

  ghost predicate CallsFoo(ctx: Context, key: Key, scope: Scope<Value>, nesting: nat, self: Value, args: seq<Value>,
                           options: Value)
    requires nesting > 0
  {
    var c := Argument(args, 0);
    var r := Called(ctx, nesting - 1, Property(c, "foo"), c, [c, options], Going);
    var shown := if IsMissing(r.0) then "" else Shown(r.0);
    Called(ctx, nesting, ProgramOf(key, scope), self, args, Going) == (String("x" + shown), r.1)
  }

  /** A call of the program is one call of foo, nested in it. */
  lemma {:induction false} FooCallsFoo(known: KnownHelpers, ctx: Context, key: Key, scope: Scope<Value>,
                                       nesting: nat, self: Value, args: seq<Value>) returns (options: Value)
    requires FooEntry(known, ctx, key) && !IsTruthy(Property(scope.helpers, "foo")) && nesting > 0
    requires IsTruthy(Property(Argument(args, 0), "foo"))
    ensures CallsFoo(ctx, key, scope, nesting, self, args, options)
  {
    var rt := EngineOver(ctx, nesting - 1);
    var fr := Inner(rt, scope, args, EntryOf(ctx, key).useDepths);
    options := DenOptions(rt, fr, "foo", rt.record([]), None, None);
    ProgramRuns(ctx, rt, key, scope, self, args);
    FooRun(known, ctx, key, rt, scope, args);
  }

  /** Called for an object whose foo is the program itself, it never ends: no nesting is deep enough. */
  lemma {:induction false} FooOfItselfNeverEnds(known: KnownHelpers, ctx: Context, key: Key, scope: Scope<Value>,
                                                nesting: nat, self: Value, args: seq<Value>)
    requires FooEntry(known, ctx, key) && !IsTruthy(Property(scope.helpers, "foo"))
    requires Property(Argument(args, 0), "foo") == ProgramOf(key, scope)
    ensures !Ends(ctx, nesting, ProgramOf(key, scope), self, args)
  {
    forall n: nat, o, xs | n > 0 && IsTruthy(Property(Argument(xs, 0), "foo"))
      ensures CallsSomeFoo(ctx, key, scope, n, o, xs)
    {
      var options := FooCallsFoo(known, ctx, key, scope, n, o, xs);
    }
    CallingItself(ctx, key, scope, nesting, self, args);
  }

  ghost predicate AlwaysCallsFoo(ctx: Context, key: Key, scope: Scope<Value>) {
    forall n: nat, o, xs | n > 0 && IsTruthy(Property(Argument(xs, 0), "foo")) ::
      CallsSomeFoo(ctx, key, scope, n, o, xs)
  }

  ghost predicate CallsSomeFoo(ctx: Context, key: Key, scope: Scope<Value>, nesting: nat, self: Value, args: seq<Value>)
    requires nesting > 0
  {
    exists options :: CallsFoo(ctx, key, scope, nesting, self, args, options)
  }

  lemma {:induction false} CallingItself(ctx: Context, key: Key, scope: Scope<Value>, nesting: nat, self: Value,
                                         args: seq<Value>)
    requires AlwaysCallsFoo(ctx, key, scope) && Property(Argument(args, 0), "foo") == ProgramOf(key, scope)
    ensures !Ends(ctx, nesting, ProgramOf(key, scope), self, args)
    decreases nesting
  {
    if nesting > 0 {
      assert CallsSomeFoo(ctx, key, scope, nesting, self, args);
      var options :| CallsFoo(ctx, key, scope, nesting, self, args, options);
      CallingItself(ctx, key, scope, nesting - 1, Argument(args, 0), [Argument(args, 0), options]);
      NeitherEnds(ctx, key, scope, nesting, self, args, options);
    }
  }

  lemma {:induction false} NeitherEnds(ctx: Context, key: Key, scope: Scope<Value>, nesting: nat, self: Value,
                                       args: seq<Value>, options: Value)
    requires nesting > 0 && CallsFoo(ctx, key, scope, nesting, self, args, options)
    requires Property(Argument(args, 0), "foo") == ProgramOf(key, scope)
    requires !Ends(ctx, nesting - 1, ProgramOf(key, scope), Argument(args, 0), [Argument(args, 0), options])
    ensures !Ends(ctx, nesting, ProgramOf(key, scope), self, args)
  {
  }

  /** Called for one whose foo is the log helper it ends, with the text x. */
  lemma {:induction false} FooOfLogEnds(known: KnownHelpers, ctx: Context, key: Key, scope: Scope<Value>,
                                        nesting: nat, self: Value, args: seq<Value>)
    requires FooEntry(known, ctx, key) && !IsTruthy(Property(scope.helpers, "foo")) && nesting >= 2
    requires Property(Argument(args, 0), "foo") == BuiltIn(Log)
    ensures EngineOver(ctx, nesting).call(ProgramOf(key, scope), self, args, Going) == (String("x"), Going)
  {
    var options := FooCallsFoo(known, ctx, key, scope, nesting, self, args);
    LogEnds(ctx, key, scope, nesting, self, args, options);
  }

  lemma {:induction false} LogEnds(ctx: Context, key: Key, scope: Scope<Value>, nesting: nat, self: Value,
                                   args: seq<Value>, options: Value)
    requires nesting >= 2 && CallsFoo(ctx, key, scope, nesting, self, args, options)
    requires Property(Argument(args, 0), "foo") == BuiltIn(Log)
    ensures EngineOver(ctx, nesting).call(ProgramOf(key, scope), self, args, Going) == (String("x"), Going)
  {
    var c := Argument(args, 0);
    assert Called(ctx, nesting - 1, BuiltIn(Log), c, [c, options], Going) == (Undefined, Going);
    assert "x" + "" == "x";
  }

  function FooTemplate(): Program {
    Program([Block(Name("a", 0), OnlyProgram(FooProgram()))])
  }

  lemma {:induction false} FooTemplateChildren(known: KnownHelpers)
    ensures CompilableStatements(FooProgram().statements) && CompilableStatements(FooTemplate().statements)
    ensures var e := EnvironmentOf(known, FooProgram());
            EnvironmentOf(known, FooTemplate()).children == [e] && e.children == []
  {
    var ss, block := FooProgram().statements, FooTemplate().statements[0];
    assert ss[1..] == [ss[1]] && [ss[1]][1..] == [] && CompilableParams(FooCall().params);
    assert ChildrenOf(known, ss) == [] && ChildrenOf(known, [ss[1]]) == [];
    assert CompilableBodies(block.bodies) && FooTemplate().statements[1..] == [];
    var e := EnvironmentOf(known, FooProgram());
    assert Children(known, block) == [e] && ChildrenOf(known, FooTemplate().statements) == [e] + [];
  }

  /** The program of this template's block is such a program. */
  lemma {:induction false} FooTemplateHasEntry(known: KnownHelpers, code: Compiled, ctx: Context)
    requires "foo" !in known && CompilableStatements(FooTemplate().statements)
    requires CompiledTo(EnvironmentOf(known, FooTemplate()), code, ctx)
    ensures CompilableStatements(FooProgram().statements)
         && FooEntry(known, ctx, KeyOf(EnvironmentOf(known, FooProgram())))
  {
    FooTemplateChildren(known);
    var root, e := EnvironmentOf(known, FooTemplate()), EnvironmentOf(known, FooProgram());
    var h := OnlyEntry(root, code, ctx, e);
    EntryRunsItself(known, ctx, FooProgram(), h);
  }

  lemma {:induction false} OnlyEntry(root: Environment, code: Compiled, ctx: Context, e: Environment) returns (h: nat)
    requires CompiledTo(root, code, ctx) && root.children == [e] && e.children == []
    ensures Table(ctx) && h in ctx.environments && ctx.environments[h] == e
  {
    NestedChild(e, root);
    h := NestedEntry(root, code, ctx, e);
    OnlyNested(root, e, ctx.environments[h]);
  }

  lemma {:induction false} OnlyNested(root: Environment, e: Environment, x: Environment)
    requires root.children == [e] && e.children == [] && Nested(x, root)
    ensures x == e
  {
  }

  lemma {:induction false} EntryRunsItself(known: KnownHelpers, ctx: Context, d: Program, h: nat)
    requires CompilableStatements(d.statements) && Table(ctx)
    requires h in ctx.environments && ctx.environments[h] == EnvironmentOf(known, d)
    ensures var key := KeyOf(EnvironmentOf(known, d)); HasEntry(ctx, key) && BodyOf(EntryOf(ctx, key), known, d)
  {
    RepresentsItself(known, ctx, d, h);
    SameItself(ctx.environments[h]);
    EntryOfKey(ctx, h, EnvironmentOf(known, d));
  }
}
