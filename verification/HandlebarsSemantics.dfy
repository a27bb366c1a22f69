/**
 What templates and generated code mean.  Values (V) and the outside world that
 helpers may affect (W) are left open: a Runtime gives the primitive operations
 of JavaScript and of the Handlebars runtime on them.  The generated code is
 executed statement by statement over its variables; the meaning of a template
 is defined directly on its syntax tree, with no variables at all.
 */
module HandlebarsSemantics {
  import opened Wrappers
  import opened HandlebarsSyntax
  import opened HandlebarsCompiler

  datatype Runtime<!V, !W> = Runtime(
    undefinedValue: V,
    nullValue: V,
    noop: V,
    text: string -> V,
    raw: string -> V,
    notNull: V -> bool,
    truthy: V -> bool,
    isFunction: V -> bool,
    get: (V, string) -> V,
    record: seq<(string, V)> -> V,
    program: (Key, Scope<V>) -> V,
    dataAt: (V, nat) -> V,
    call: (V, V, seq<V>, W) -> (V, W),
    lambda: (V, V, W) -> (V, W),
    partial: (V, string, string, V, V, W) -> (V, W),
    show: V -> string,
    escape: V -> string)

  /**
   The arguments of a generated function: its context and those around it, and
   whether the function passes them on to its programs.
   */
  datatype Frame<!V> = Frame(context: nat -> V, data: V, helpers: V, partials: V, passes: bool)

  /** What this.program keeps for a later call: the contexts around the program, if they were passed. */
  datatype Scope<!V> = Scope(outer: Option<nat -> V>, data: V, helpers: V, partials: V)

  function ScopeOf<V>(fr: Frame<V>): Scope<V> {
    Scope(if fr.passes then Some(fr.context) else None, fr.data, fr.helpers, fr.partials)
  }

  datatype Store<V, W> = Store(registers: map<Register, V>, world: W)

  // ----- expressions of the generated code -----

  function Eval<V, W>(rt: Runtime<V, W>, fr: Frame<V>, e: Js, s: Store<V, W>): (V, Store<V, W>)
    decreases e
  {
    match e
    case ContextVar(depth) => (fr.context(depth), s)
    case DataVar => (fr.data, s)
    case DataAt(depth) => (rt.dataAt(fr.data, depth), s)
    case HelpersVar => (fr.helpers, s)
    case PartialsVar => (fr.partials, s)
    case Noop => (rt.noop, s)
    case NullLit => (rt.nullValue, s)
    case UndefinedLit => (rt.undefinedValue, s)
    case StringLit(text) => (rt.text(text), s)
    case RawLit(text) => (rt.raw(text), s)
    case ProgramRef(key) => (rt.program(key, ScopeOf(fr)), s)
    case Read(r) => (if r in s.registers then s.registers[r] else rt.undefinedValue, s)
    case Get(target, name) =>
      var o := Eval(rt, fr, target, s);
      (rt.get(o.0, name), o.1)
    case IfNotNull(test, yes, no) =>
      var t := Eval(rt, fr, test, s);
      if rt.notNull(t.0) then Eval(rt, fr, yes, t.1) else Eval(rt, fr, no, t.1)
    case IfFunction(test, yes, no) =>
      var t := Eval(rt, fr, test, s);
      if rt.isFunction(t.0) then Eval(rt, fr, yes, t.1) else Eval(rt, fr, no, t.1)
    case And(left, right) =>
      var l := Eval(rt, fr, left, s);
      if rt.truthy(l.0) then Eval(rt, fr, right, l.1) else l
    case Or(left, right) =>
      var l := Eval(rt, fr, left, s);
      if rt.truthy(l.0) then l else Eval(rt, fr, right, l.1)
    case Assign(r, value) =>
      var v := Eval(rt, fr, value, s);
      (v.0, v.1.(registers := v.1.registers[r := v.0]))
    case Comma(left, right) => Eval(rt, fr, right, Eval(rt, fr, left, s).1)
    case CallJs(callee, self, args) =>
      var f := Eval(rt, fr, callee, s);
      var o := Eval(rt, fr, self, f.1);
      var a := EvalAll(rt, fr, args, o.1);
      var r := rt.call(f.0, o.0, a.0, a.1.world);
      (r.0, a.1.(world := r.1))
    case Lambda(value, self) =>
      var v := Eval(rt, fr, value, s);
      var o := Eval(rt, fr, self, v.1);
      var r := rt.lambda(v.0, o.0, o.1.world);
      (r.0, o.1.(world := r.1))
    case PartialJs(callee, indent, name, context, hash) =>
      var f := Eval(rt, fr, callee, s);
      var c := Eval(rt, fr, context, f.1);
      var h := Eval(rt, fr, hash, c.1);
      var r := rt.partial(f.0, indent, name, c.0, h.0, h.1.world);
      (r.0, h.1.(world := r.1))
    case ObjectLit(fields) =>
      var f := EvalFields(rt, fr, fields, s);
      (rt.record(f.0), f.1)
  }

  function EvalAll<V, W>(rt: Runtime<V, W>, fr: Frame<V>, es: seq<Js>, s: Store<V, W>): (seq<V>, Store<V, W>)
    decreases es
  {
    if es == [] then ([], s)
    else
      var v := Eval(rt, fr, es[0], s);
      var rest := EvalAll(rt, fr, es[1..], v.1);
      ([v.0] + rest.0, rest.1)
  }

  function EvalFields<V, W>(rt: Runtime<V, W>, fr: Frame<V>, fs: seq<Field>, s: Store<V, W>)
    : (seq<(string, V)>, Store<V, W>)
    decreases fs
  {
    if fs == [] then ([], s)
    else
      var v := Eval(rt, fr, fs[0].value, s);
      var rest := EvalFields(rt, fr, fs[1..], v.1);
      ([(fs[0].key, v.0)] + rest.0, rest.1)
  }

  // ----- the meaning of template expressions -----

  /** Looking up parts, stopping at a missing object: null or undefined, or (lax) anything falsy. */
  function DenLookup<V, W>(rt: Runtime<V, W>, v: V, lax: bool, parts: seq<string>): V
    decreases parts
  {
    if parts == [] then v
    else if (if lax then rt.truthy(v) else rt.notNull(v))
    then DenLookup(rt, rt.get(v, parts[0]), lax, parts[1..])
    else DenLookup(rt, v, lax, parts[1..])
  }

  function DenPath<V, W>(rt: Runtime<V, W>, fr: Frame<V>, p: Path, lax: bool): V {
    var c := fr.context(p.depth);
    if p.IsContext() then c else DenLookup(rt, c, lax, p.parts)
  }

  function DenData<V, W>(rt: Runtime<V, W>, fr: Frame<V>, p: Path): V {
    DenLookup(rt, if p.depth == 0 then fr.data else rt.dataAt(fr.data, p.depth), true, p.parts)
  }

  function DenParam<V, W>(rt: Runtime<V, W>, fr: Frame<V>, known: KnownHelpers, p: Param, w: W): (V, W)
    decreases p
  {
    match p
    case Id(path) => (DenPath(rt, fr, path, false), w)
    case Data(path) => (DenData(rt, fr, path), w)
    case Quoted(text) => (rt.text(text), w)
    case Verbatim(text) => (rt.raw(text), w)
    case SubExpr(s) => if s.Call? then DenHelper(rt, fr, known, s, None, None, w) else (rt.undefinedValue, w)
  }

  /** Parameters are evaluated from left to right. */
  function DenParams<V, W>(rt: Runtime<V, W>, fr: Frame<V>, known: KnownHelpers, ps: seq<Param>, w: W): (seq<V>, W)
    decreases ps
  {
    if ps == [] then ([], w)
    else
      var v := DenParam(rt, fr, known, ps[0], w);
      var rest := DenParams(rt, fr, known, ps[1..], v.1);
      ([v.0] + rest.0, rest.1)
  }

  /** Hash pairs are evaluated, and listed, from right to left. */
  function DenPairs<V, W>(rt: Runtime<V, W>, fr: Frame<V>, known: KnownHelpers, ps: seq<Pair>, w: W)
    : (seq<(string, V)>, W)
    decreases ps
  {
    if ps == [] then ([], w)
    else
      var rest := DenPairs(rt, fr, known, ps[1..], w);
      var v := DenParam(rt, fr, known, ps[0].value, rest.1);
      (rest.0 + [(ps[0].key, v.0)], v.1)
  }

  function DenHash<V, W>(rt: Runtime<V, W>, fr: Frame<V>, known: KnownHelpers, h: Hash, w: W): (V, W)
    decreases h
  {
    if h.NoHash? then (rt.record([]), w)
    else
      var ps := DenPairs(rt, fr, known, h.pairs, w);
      (rt.record(ps.0), ps.1)
  }

  /** The options that a helper receives: fn runs the program, inverse the inverse. */
  function DenOptions<V, W>(rt: Runtime<V, W>, fr: Frame<V>, name: string, hash: V,
                            program: Option<Environment>, inverse: Option<Environment>): V {
    rt.record(
      [("name", rt.text(name)), ("hash", hash)]
      + (if program.Some? || inverse.Some?
         then [("fn", if program.Some? then rt.program(KeyOf(program.value), ScopeOf(fr)) else rt.noop),
               ("inverse", if inverse.Some? then rt.program(KeyOf(inverse.value), ScopeOf(fr)) else rt.noop)]
         else [])
      + [("data", fr.data)])
  }

  function Either<V, W>(rt: Runtime<V, W>, a: V, b: V): V {
    if rt.truthy(a) then a else b
  }

  function DenHelper<V, W>(rt: Runtime<V, W>, fr: Frame<V>, known: KnownHelpers, s: Sexpr,
                           program: Option<Environment>, inverse: Option<Environment>, w: W): (V, W)
    requires s.Call?
    decreases s
  {
    var isKnown := s.path.Head() in known;
    var name := if isKnown then s.path.Head() else s.path.original;
    var fallback := Either(rt, DenPath(rt, fr, s.path, true), rt.get(fr.helpers, "helperMissing"));
    var f := if isKnown then rt.get(fr.helpers, name)
             else if s.path.IsSimple() then Either(rt, rt.get(fr.helpers, name), fallback)
             else fallback;
    var args := DenParams(rt, fr, known, s.params, w);
    var hash := DenHash(rt, fr, known, s.hash, args.1);
    rt.call(f, fr.context(0), args.0 + [DenOptions(rt, fr, name, hash.0, program, inverse)], hash.1)
  }

  function DenSimple<V, W>(rt: Runtime<V, W>, fr: Frame<V>, s: Sexpr, w: W): (V, W) {
    rt.lambda(match s
              case DataRef(path) => DenData(rt, fr, path)
              case Call(path, _, _) => DenPath(rt, fr, path, false),
              fr.context(0), w)
  }

  /** A name that may be a helper or a property: the helper if there is one. */
  function DenAmbiguous<V, W>(rt: Runtime<V, W>, fr: Frame<V>, path: Path,
                              program: Option<Environment>, inverse: Option<Environment>, w: W): (V, W) {
    var name := path.Head();
    var found := Either(rt, rt.get(fr.helpers, name), DenPath(rt, fr, path, false));
    var f := if rt.notNull(found) then found else rt.get(fr.helpers, "helperMissing");
    if rt.isFunction(f)
    then rt.call(f, fr.context(0), [DenOptions(rt, fr, name, rt.record([]), program, inverse)], w)
    else (f, w)
  }

  function DenSexpr<V, W>(rt: Runtime<V, W>, fr: Frame<V>, known: KnownHelpers, s: Sexpr, w: W): (V, W) {
    match Classify(known, s)
    case SimpleKind => DenSimple(rt, fr, s, w)
    case HelperKind => DenHelper(rt, fr, known, s, None, None, w)
    case AmbiguousKind => DenAmbiguous(rt, fr, s.path, None, None, w)
  }

  // ----- the meaning of statements -----

  function DenBlock<V, W>(rt: Runtime<V, W>, fr: Frame<V>, known: KnownHelpers, s: Sexpr,
                          program: Option<Environment>, inverse: Option<Environment>, w: W): (V, W) {
    match Classify(known, s)
    case HelperKind => DenHelper(rt, fr, known, s, program, inverse, w)
    case SimpleKind =>
      var v := DenSimple(rt, fr, s, w);
      rt.call(rt.get(fr.helpers, "blockHelperMissing"), fr.context(0),
              [v.0, DenOptions(rt, fr, s.path.original, rt.record([]), program, inverse)], v.1)
    case AmbiguousKind =>
      var v := DenAmbiguous(rt, fr, s.path, program, inverse, w);
      if rt.truthy(rt.get(fr.helpers, s.path.Head())) then v
      else rt.call(rt.get(fr.helpers, "blockHelperMissing"), fr.context(0),
                   [v.0, DenOptions(rt, fr, s.path.Head(), rt.record([]), program, inverse)], v.1)
  }

  function DenPartial<V, W>(rt: Runtime<V, W>, fr: Frame<V>, known: KnownHelpers, s: Statement, w: W): (V, W)
    requires s.Partial?
  {
    var c := if s.context.Some? then DenParam(rt, fr, known, s.context.value, w) else (fr.context(0), w);
    var h := if s.hash.Hash? then DenHash(rt, fr, known, s.hash, c.1) else (rt.undefinedValue, c.1);
    rt.partial(rt.get(fr.partials, s.name), s.indent, s.name, c.0, h.0, h.1)
  }

  /** The value of a statement whose value is appended as it is. */
  function DenValue<V, W>(rt: Runtime<V, W>, fr: Frame<V>, known: KnownHelpers, s: Statement, w: W): (V, W)
    requires Generable(s) && (s.Mustache? || s.Block? || s.Partial?)
  {
    match s
    case Mustache(e, _) => DenSexpr(rt, fr, known, e, w)
    case Block(e, b) => DenBlock(rt, fr, known, e, ProgramEnvironment(known, b), InverseEnvironment(known, b), w)
    case Partial(_, _, _, _) => DenPartial(rt, fr, known, s, w)
  }

  /** The text that a statement adds to the output. */
  function DenText<V, W>(rt: Runtime<V, W>, fr: Frame<V>, known: KnownHelpers, s: Statement, w: W): (string, W)
    requires Generable(s)
  {
    if s.Content? then (s.text, w)
    else if s.Comment? then ("", w)
    else
      var v := DenValue(rt, fr, known, s, w);
      (if s.Mustache? && s.escaped then rt.escape(v.0) else if rt.notNull(v.0) then rt.show(v.0) else "", v.1)
  }

  function DenTexts<V, W>(rt: Runtime<V, W>, fr: Frame<V>, known: KnownHelpers, ss: seq<Statement>, w: W): (string, W)
    requires GenerableAll(ss)
  {
    if ss == [] then ("", w)
    else
      var t := DenText(rt, fr, known, ss[0], w);
      var rest := DenTexts(rt, fr, known, ss[1..], t.1);
      (t.0 + rest.0, rest.1)
  }

  /** A program returns its text, except that a single unescaped value is returned as it is. */
  function DenProgram<V, W>(rt: Runtime<V, W>, fr: Frame<V>, known: KnownHelpers, p: Program, w: W): (V, W)
    requires GenerableAll(p.statements)
  {
    var ss := p.statements;
    if |ss| == 1 && !ss[0].Content? && !ss[0].Comment? && !(ss[0].Mustache? && ss[0].escaped) then
      var v := DenValue(rt, fr, known, ss[0], w);
      (if rt.notNull(v.0) then v.0 else rt.text(""), v.1)
    else
      var t := DenTexts(rt, fr, known, ss, w);
      (rt.text(t.0), t.1)
  }
}
