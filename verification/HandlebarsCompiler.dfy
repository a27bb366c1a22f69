/**
 The first stage of the template compiler: from a syntax tree to opcodes.  The
 functions say which opcodes a tree compiles to; the class is the Compiler
 object, which appends them one by one.
 */
module HandlebarsCompiler {
  import opened Wrappers
  import opened Sequences
  import opened HandlebarsSyntax

  /** The keys found truthy in options.knownHelpers. */
  type KnownHelpers = set<string>

  datatype Kind = HelperKind | AmbiguousKind | SimpleKind

  // ----- what cannot be compiled -----

  /**
   A data reference in parentheses is taken for a helper call, whose name is
   then read from a field that data nodes lack: the compiler raises a TypeError.
   */
  predicate CompilableParam(p: Param)
    decreases p
  {
    p.SubExpr? ==> p.sexpr.Call? && CompilableSexpr(p.sexpr)
  }

  predicate CompilableSexpr(s: Sexpr)
    decreases s
  {
    s.Call? ==> CompilableParams(s.params) && (s.hash.Hash? ==> CompilablePairs(s.hash.pairs))
  }

  predicate CompilableParams(ps: seq<Param>)
    decreases ps
  {
    ps != [] ==> CompilableParam(ps[0]) && CompilableParams(ps[1..])
  }

  predicate CompilablePairs(ps: seq<Pair>)
    decreases ps
  {
    ps != [] ==> CompilableParam(ps[0].value) && CompilablePairs(ps[1..])
  }

  predicate CompilableStatement(s: Statement)
    decreases s
  {
    match s
    case Mustache(e, _) => CompilableSexpr(e)
    case Block(e, b) => CompilableSexpr(e) && CompilableBodies(b)
    case Partial(_, c, h, _) =>
      (c.Some? ==> CompilableParam(c.value)) && (h.Hash? ==> CompilablePairs(h.pairs))
    case Content(_) => true
    case Comment => true
  }

  predicate CompilableBodies(b: Bodies)
    decreases b
  {
    && (!b.OnlyInverse? ==> CompilableStatements(b.program.statements))
    && (!b.OnlyProgram? ==> CompilableStatements(b.inverse.statements))
  }

  predicate CompilableStatements(ss: seq<Statement>)
    decreases ss
  {
    ss != [] ==> CompilableStatement(ss[0]) && CompilableStatements(ss[1..])
  }

  /**
   A block over a data reference compiles, but its name is undefined, which the
   second stage cannot quote.
   */
  predicate IsDataBlock(s: Statement) {
    s.Block? && s.sexpr.DataRef?
  }

  predicate NamedBlocks(ss: seq<Statement>)
    decreases ss
  {
    ss != [] ==> !IsDataBlock(ss[0]) && NamedBlocks(ss[1..])
  }

  predicate Generable(s: Statement) {
    CompilableStatement(s) && !IsDataBlock(s)
  }

  /** Both stages succeed on the statements, their nested programs apart. */
  predicate GenerableAll(ss: seq<Statement>) {
    CompilableStatements(ss) && NamedBlocks(ss)
  }

  // ----- opcodes of expressions -----

  /** classifySexpr */
  function Classify(known: KnownHelpers, s: Sexpr): Kind {
    match s
    case DataRef(_) => SimpleKind
    case Call(path, params, hash) =>
      if params != [] || hash.Hash? then HelperKind
      else if !path.IsSimple() then SimpleKind
      else if path.Head() in known then HelperKind
      else AmbiguousKind
  }

  function OpsPath(p: Path, falsy: bool): seq<Opcode> {
    [GetContext(p.depth)]
    + if p.IsContext() then [PushContext] else [LookupOnContext(p.parts, falsy, p.isScoped)]
  }

  function OpsParam(known: KnownHelpers, p: Param): seq<Opcode>
    requires CompilableParam(p)
    decreases p
  {
    match p
    case Id(path) => OpsPath(path, false)
    case Data(path) => [LookupData(path.depth, path.parts)]
    case Quoted(text) => [PushString(text)]
    case Verbatim(text) => [PushLiteral(text)]
    case SubExpr(s) => OpsHelper(known, s, None, None)
  }

  function OpsParams(known: KnownHelpers, ps: seq<Param>): seq<Opcode>
    requires CompilableParams(ps)
    decreases ps
  {
    if ps == [] then [] else OpsParam(known, ps[0]) + OpsParams(known, ps[1..])
  }

  function OpsValues(known: KnownHelpers, ps: seq<Pair>): seq<Opcode>
    requires CompilablePairs(ps)
    decreases ps, 0
  {
    if ps == [] then [] else OpsParam(known, ps[0].value) + OpsValues(known, ps[1..])
  }

  /** Keys are assigned in reverse, the last value being on top of the stack. */
  function OpsKeys(ps: seq<Pair>): seq<Opcode> {
    if ps == [] then [] else OpsKeys(ps[1..]) + [AssignToHash(ps[0].key)]
  }

  function OpsHash(known: KnownHelpers, ps: seq<Pair>): seq<Opcode>
    requires CompilablePairs(ps)
    decreases ps, 1
  {
    [PushHash] + OpsValues(known, ps) + OpsKeys(ps) + [PopHash]
  }

  /** helperSexpr */
  function OpsHelper(known: KnownHelpers, s: Sexpr, program: Option<nat>, inverse: Option<nat>): seq<Opcode>
    requires s.Call? && CompilableSexpr(s)
    decreases s
  {
    OpsParams(known, s.params)
    + [PushProgram(program), PushProgram(inverse)]
    + (if s.hash.Hash? then OpsHash(known, s.hash.pairs) else [EmptyHash])
    + (if s.path.Head() in known then [InvokeKnownHelper(|s.params|, s.path.Head())]
       else OpsPath(s.path, true) + [InvokeHelper(|s.params|, s.path.original, s.path.IsSimple())])
  }

  /** simpleSexpr */
  function OpsSimple(s: Sexpr): seq<Opcode> {
    (match s
     case DataRef(path) => [LookupData(path.depth, path.parts)]
     case Call(path, _, _) => if |path.parts| > 0 then OpsPath(path, false) else [GetContext(path.depth), PushContext])
    + [ResolvePossibleLambda]
  }

  /** ambiguousSexpr */
  function OpsAmbiguous(path: Path, program: Option<nat>, inverse: Option<nat>): seq<Opcode> {
    [GetContext(path.depth), PushProgram(program), PushProgram(inverse)]
    + OpsPath(path, false)
    + [InvokeAmbiguous(path.Head(), program.Some? || inverse.Some?)]
  }

  function OpsSexpr(known: KnownHelpers, s: Sexpr): seq<Opcode>
    requires CompilableSexpr(s)
  {
    match Classify(known, s)
    case SimpleKind => OpsSimple(s)
    case HelperKind => OpsHelper(known, s, None, None)
    case AmbiguousKind => OpsAmbiguous(s.path, None, None)
  }

  // ----- opcodes and children of statements -----

  /** How many children a statement adds. */
  function ChildCount(s: Statement): nat {
    if !s.Block? then 0 else if s.bodies.Both? then 2 else 1
  }

  /** The children that a block adds, in the order of compileProgram calls. */
  function Children(known: KnownHelpers, s: Statement): (kids: seq<Environment>)
    requires CompilableStatement(s)
    ensures |kids| == ChildCount(s)
    decreases s, 0
  {
    if !s.Block? then [] else ChildrenOfBodies(known, s.bodies)
  }

  function ChildrenOfBodies(known: KnownHelpers, b: Bodies): seq<Environment>
    requires CompilableBodies(b)
    decreases b, 3
  {
    match b
    case OnlyProgram(p) => [EnvironmentOf(known, p)]
    case OnlyInverse(i) => [EnvironmentOf(known, i)]
    case Both(p, i) => [EnvironmentOf(known, p), EnvironmentOf(known, i)]
  }

  function ProgramIndex(b: Bodies, guid: nat): Option<nat> {
    if b.OnlyInverse? then None else Some(guid)
  }

  function InverseIndex(b: Bodies, guid: nat): Option<nat> {
    if b.OnlyProgram? then None else Some(if b.Both? then guid + 1 else guid)
  }

  /** The original text of a path, a field that data references lack. */
  function BlockName(s: Sexpr): Option<string> {
    if s.Call? then Some(s.path.original) else None
  }

  /** The part of a block before its append. */
  function OpsBlockCall(known: KnownHelpers, s: Sexpr, p: Option<nat>, i: Option<nat>): seq<Opcode>
    requires CompilableSexpr(s)
  {
    match Classify(known, s)
    case HelperKind => OpsHelper(known, s, p, i)
    case SimpleKind =>
      OpsSimple(s) + (OpsBodies(p, i) + [BlockValue(BlockName(s))])
    case AmbiguousKind =>
      OpsAmbiguous(s.path, p, i) + (OpsBodies(p, i) + [AmbiguousBlockValue])
  }

  function OpsBodies(p: Option<nat>, i: Option<nat>): seq<Opcode> {
    [PushProgram(p), PushProgram(i), EmptyHash]
  }

  function OpsStatement(known: KnownHelpers, s: Statement, guid: nat): seq<Opcode>
    requires CompilableStatement(s)
    decreases s, 0
  {
    match s
    case Mustache(e, escaped) => OpsSexpr(known, e) + [if escaped then AppendEscaped else Append]
    case Block(e, b) => OpsBlockCall(known, e, ProgramIndex(b, guid), InverseIndex(b, guid)) + [Append]
    case Partial(name, c, h, indent) =>
      (if h.Hash? then OpsHash(known, h.pairs) else [PushUndefined])
      + (if c.Some? then OpsParam(known, c.value) else [GetContext(0), PushContext])
      + [InvokePartial(name, indent), Append]
    case Content(text) => if text != "" then [AppendContent(text)] else []
    case Comment => []
  }

  function OpsStatements(known: KnownHelpers, ss: seq<Statement>, guid: nat): seq<Opcode>
    requires CompilableStatements(ss)
    decreases ss, 1
  {
    if ss == [] then []
    else OpsStatement(known, ss[0], guid) + OpsStatements(known, ss[1..], guid + ChildCount(ss[0]))
  }

  function ChildrenOf(known: KnownHelpers, ss: seq<Statement>): seq<Environment>
    requires CompilableStatements(ss)
    decreases ss, 1
  {
    if ss == [] then [] else Children(known, ss[0]) + ChildrenOf(known, ss[1..])
  }

  function EnvironmentOf(known: KnownHelpers, p: Program): Environment
    requires CompilableStatements(p.statements)
    decreases p, 2
  {
    Environment(OpsStatements(known, p.statements, 0), ChildrenOf(known, p.statements), |p.statements| == 1)
  }

  function ProgramEnvironment(known: KnownHelpers, b: Bodies): Option<Environment>
    requires CompilableBodies(b)
  {
    if b.OnlyInverse? then None else Some(EnvironmentOf(known, b.program))
  }

  function InverseEnvironment(known: KnownHelpers, b: Bodies): Option<Environment>
    requires CompilableBodies(b)
  {
    if b.OnlyProgram? then None else Some(EnvironmentOf(known, b.inverse))
  }

  /** The first c statements have been compiled to ops and kids. */
  ghost predicate Compiled(known: KnownHelpers, ss: seq<Statement>, c: nat, ops: seq<Opcode>, kids: seq<Environment>)
    requires c <= |ss|
  {
    && (CompilableStatements(ss) <==> CompilableStatements(ss[c..]))
    && (CompilableStatements(ss) ==>
          && OpsStatements(known, ss, 0) == ops + OpsStatements(known, ss[c..], |kids|)
          && ChildrenOf(known, ss) == kids + ChildrenOf(known, ss[c..]))
  }

  lemma {:induction false} OneMoreCompiled(known: KnownHelpers, ss: seq<Statement>, c: nat, ops: seq<Opcode>,
                                           kids: seq<Environment>)
    requires c < |ss| && Compiled(known, ss, c, ops, kids) && CompilableStatement(ss[c])
    ensures Compiled(known, ss, c + 1, ops + OpsStatement(known, ss[c], |kids|), kids + Children(known, ss[c]))
  {
    assert ss[c..][0] == ss[c] && ss[c..][1..] == ss[c + 1..];
    if CompilableStatements(ss[c..]) {
      var next := |kids + Children(known, ss[c])|;
      OpsUnfold(known, ss[c..], ops, |kids|, next, OpsStatement(known, ss[c], |kids|),
                OpsStatements(known, ss[c + 1..], next));
      ChildrenUnfold(known, ss[c..], kids);
    }
  }

  lemma {:induction false} OpsUnfold(known: KnownHelpers, ss: seq<Statement>, ops: seq<Opcode>, guid: nat, next: nat,
                                     first: seq<Opcode>, rest: seq<Opcode>)
    requires ss != [] && CompilableStatements(ss) && next == guid + ChildCount(ss[0])
    requires first == OpsStatement(known, ss[0], guid) && rest == OpsStatements(known, ss[1..], next)
    ensures ops + OpsStatements(known, ss, guid) == ops + first + rest
  {
    Associate(ops, first, rest);
  }

  lemma {:induction false} ChildrenUnfold(known: KnownHelpers, ss: seq<Statement>, kids: seq<Environment>)
    requires ss != [] && CompilableStatements(ss)
    ensures kids + ChildrenOf(known, ss) == kids + Children(known, ss[0]) + ChildrenOf(known, ss[1..])
  {
    Associate(kids, Children(known, ss[0]), ChildrenOf(known, ss[1..]));
  }

  lemma {:induction false} CompilableUnlessHelper(known: KnownHelpers, s: Sexpr)
    requires Classify(known, s) != HelperKind
    ensures CompilableSexpr(s)
  {
  }

  // ----- the Compiler object -----

  /**
   Every method returns false where the source raises the TypeError of
   CompilableParam; otherwise it has appended the opcodes of its argument.
   */
  class Compiler {
    const known: KnownHelpers
    var opcodes: seq<Opcode>
    var children: seq<Environment>
    var guid: nat
    var isSimple: bool

    ghost predicate Valid()
      reads this
    {
      guid == |children|
    }

    constructor (known: KnownHelpers)
      ensures Valid() && this.known == known && opcodes == [] && children == []
    {
      this.known := known;
      opcodes, children, guid, isSimple := [], [], 0, false;
    }

    method Emit(op: Opcode)
      modifies `opcodes
      ensures opcodes == old(opcodes) + [op]
    {
      opcodes := opcodes + [op];
    }

    method ID(p: Path, falsy: bool)
      modifies `opcodes
      ensures opcodes == old(opcodes) + OpsPath(p, falsy)
    {
      Emit(GetContext(p.depth));
      if p.IsContext() {
        Emit(PushContext);
      } else {
        Emit(LookupOnContext(p.parts, falsy, p.isScoped));
      }
    }

    method PushParam(p: Param) returns (ok: bool)
      modifies `opcodes
      ensures ok == CompilableParam(p)
      ensures ok ==> opcodes == old(opcodes) + OpsParam(known, p)
      decreases p, 0
    {
      ok := true;
      match p
      case Id(path) => ID(path, false);
      case Data(path) => Emit(LookupData(path.depth, path.parts));
      case Quoted(text) => Emit(PushString(text));
      case Verbatim(text) => Emit(PushLiteral(text));
      case SubExpr(s) =>
        if s.DataRef? {
          ok := false;
        } else {
          ok := HelperSexpr(s, None, None);
        }
    }

    method PushParams(ps: seq<Param>) returns (ok: bool)
      modifies `opcodes
      ensures ok == CompilableParams(ps)
      ensures ok ==> opcodes == old(opcodes) + OpsParams(known, ps)
      decreases ps, 0
    {
      var i := 0;
      while i < |ps|
        invariant 0 <= i <= |ps|
        invariant CompilableParams(ps) == CompilableParams(ps[i..])
        invariant CompilableParams(ps) ==> old(opcodes) + OpsParams(known, ps) == opcodes + OpsParams(known, ps[i..])
      {
        assert ps[i..][0] == ps[i] && ps[i..][1..] == ps[i + 1..];
        ok := PushParam(ps[i]);
        if !ok {
          return;
        }
        i := i + 1;
      }
      ok := true;
    }

    method HashArguments(ps: seq<Pair>) returns (ok: bool)
      modifies `opcodes
      ensures ok == CompilablePairs(ps)
      ensures ok ==> opcodes == old(opcodes) + OpsHash(known, ps)
      decreases ps, 1
    {
      Emit(PushHash);
      ok := PushValues(ps);
      if ok {
        AssignKeys(ps);
        Emit(PopHash);
      }
    }

    /** The first loop of hash. */
    method PushValues(ps: seq<Pair>) returns (ok: bool)
      modifies `opcodes
      ensures ok == CompilablePairs(ps)
      ensures ok ==> opcodes == old(opcodes) + OpsValues(known, ps)
      decreases ps, 0
    {
      ghost var start := opcodes;
      var b := 0;
      assert ps[0..] == ps;
      while b < |ps|
        invariant 0 <= b <= |ps|
        invariant CompilablePairs(ps) == CompilablePairs(ps[b..])
        invariant CompilablePairs(ps) ==> start + OpsValues(known, ps) == opcodes + OpsValues(known, ps[b..])
      {
        assert ps[b..][0] == ps[b] && ps[b..][1..] == ps[b + 1..];
        ok := PushParam(ps[b].value);
        if !ok {
          return;
        }
        b := b + 1;
      }
      ok := true;
    }

    /** The second loop of hash, which runs backwards. */
    method AssignKeys(ps: seq<Pair>)
      modifies `opcodes
      ensures opcodes == old(opcodes) + OpsKeys(ps)
    {
      ghost var values := opcodes;
      var b := |ps|;
      while b > 0
        invariant 0 <= b <= |ps|
        invariant opcodes == values + OpsKeys(ps[b..])
      {
        b := b - 1;
        assert ps[b..][0] == ps[b] && ps[b..][1..] == ps[b + 1..];
        Emit(AssignToHash(ps[b].key));
      }
      assert ps[0..] == ps;
    }

    method HelperSexpr(s: Sexpr, program: Option<nat>, inverse: Option<nat>) returns (ok: bool)
      requires s.Call?
      modifies `opcodes
      ensures ok == CompilableSexpr(s)
      ensures ok ==> opcodes == old(opcodes) + OpsHelper(known, s, program, inverse)
      decreases s, 1
    {
      ok := FullParams(s, program, inverse);
      if ok {
        InvokeNamed(s);
      }
    }

    /** setupFullMustacheParams */
    method FullParams(s: Sexpr, program: Option<nat>, inverse: Option<nat>) returns (ok: bool)
      requires s.Call?
      modifies `opcodes
      ensures ok == CompilableSexpr(s)
      ensures ok ==> opcodes == old(opcodes)
                                + (OpsParams(known, s.params) + [PushProgram(program), PushProgram(inverse)]
                                   + (if s.hash.Hash? then OpsHash(known, s.hash.pairs) else [EmptyHash]))
      decreases s, 0
    {
      ok := PushParams(s.params);
      if !ok {
        return;
      }
      Emit(PushProgram(program));
      Emit(PushProgram(inverse));
      ghost var bodies := OpsParams(known, s.params) + [PushProgram(program), PushProgram(inverse)];
      assert opcodes == old(opcodes) + bodies;
      if s.hash.Hash? {
        ok := HashArguments(s.hash.pairs);
      } else {
        Emit(EmptyHash);
      }
    }

    method InvokeNamed(s: Sexpr)
      requires s.Call?
      modifies `opcodes
      ensures opcodes == old(opcodes)
                         + (if s.path.Head() in known then [InvokeKnownHelper(|s.params|, s.path.Head())]
                            else OpsPath(s.path, true) + [InvokeHelper(|s.params|, s.path.original, s.path.IsSimple())])
    {
      if s.path.Head() in known {
        Emit(InvokeKnownHelper(|s.params|, s.path.Head()));
      } else {
        ID(s.path, true);
        Emit(InvokeHelper(|s.params|, s.path.original, s.path.IsSimple()));
      }
    }

    method SimpleSexpr(s: Sexpr)
      modifies `opcodes
      ensures opcodes == old(opcodes) + OpsSimple(s)
    {
      if s.DataRef? {
        Emit(LookupData(s.path.depth, s.path.parts));
      } else if |s.path.parts| > 0 {
        ID(s.path, false);
      } else {
        Emit(GetContext(s.path.depth));
        Emit(PushContext);
      }
      Emit(ResolvePossibleLambda);
    }

    method AmbiguousSexpr(path: Path, program: Option<nat>, inverse: Option<nat>)
      modifies `opcodes
      ensures opcodes == old(opcodes) + OpsAmbiguous(path, program, inverse)
    {
      Emit(GetContext(path.depth));
      Emit(PushProgram(program));
      Emit(PushProgram(inverse));
      ID(path, false);
      Emit(InvokeAmbiguous(path.Head(), program.Some? || inverse.Some?));
    }

    method AcceptSexpr(s: Sexpr) returns (ok: bool)
      modifies `opcodes
      ensures ok == CompilableSexpr(s)
      ensures ok ==> opcodes == old(opcodes) + OpsSexpr(known, s)
    {
      ok := true;
      match Classify(known, s)
      case SimpleKind => SimpleSexpr(s);
      case HelperKind => ok := HelperSexpr(s, None, None);
      case AmbiguousKind => AmbiguousSexpr(s.path, None, None);
    }

    /** The first part of block: both bodies become children. */
    method CompileBodies(b: Bodies) returns (ok: bool, program: Option<nat>, inverse: Option<nat>)
      requires Valid()
      modifies `children, `guid
      ensures Valid() && ok == CompilableBodies(b)
      ensures ok ==> children == old(children) + ChildrenOfBodies(known, b)
      ensures ok ==> program == ProgramIndex(b, old(guid)) && inverse == InverseIndex(b, old(guid))
      decreases b, 3
    {
      ok, program, inverse := true, None, None;
      if !b.OnlyInverse? {
        var d;
        ok, d := CompileProgram(b.program);
        if !ok {
          return;
        }
        program := Some(d);
      }
      if !b.OnlyProgram? {
        var d;
        ok, d := CompileProgram(b.inverse);
        if !ok {
          return;
        }
        inverse := Some(d);
      }
    }

    method CompileProgram(p: Program) returns (ok: bool, d: nat)
      requires Valid()
      modifies `children, `guid
      ensures Valid() && ok == CompilableStatements(p.statements)
      ensures ok ==> d == old(guid) && children == old(children) + [EnvironmentOf(known, p)]
      ensures !ok ==> children == old(children)
      decreases p, 2
    {
      var c := new Compiler(known);
      ok := c.CompileStatements(p.statements);
      d := guid;
      if ok {
        guid := guid + 1;
        children := children + [Environment(c.opcodes, c.children, c.isSimple)];
      }
    }

    method Block(s: Statement) returns (ok: bool)
      requires s.Block? && Valid()
      modifies this
      ensures Valid() && isSimple == old(isSimple)
      ensures ok == CompilableStatement(s)
      ensures ok ==> opcodes == old(opcodes) + OpsStatement(known, s, old(guid))
      ensures ok ==> children == old(children) + Children(known, s)
      decreases s, 0
    {
      var program, inverse;
      ok, program, inverse := CompileBodies(s.bodies);
      if !ok {
        return;
      }
      ok := BlockCall(s.sexpr, program, inverse);
      if ok {
        Emit(Append);
      }
    }

    method BlockCall(e: Sexpr, program: Option<nat>, inverse: Option<nat>) returns (ok: bool)
      modifies `opcodes
      ensures ok == CompilableSexpr(e)
      ensures ok ==> opcodes == old(opcodes) + OpsBlockCall(known, e, program, inverse)
    {
      ok := true;
      if Classify(known, e) == HelperKind {
        ok := HelperSexpr(e, program, inverse);
      } else {
        CompilableUnlessHelper(known, e);
        if Classify(known, e) == SimpleKind {
          SimpleSexpr(e);
          PushBodies(program, inverse);
          Emit(BlockValue(BlockName(e)));
        } else {
          AmbiguousSexpr(e.path, program, inverse);
          PushBodies(program, inverse);
          Emit(AmbiguousBlockValue);
        }
      }
    }

    method PushBodies(program: Option<nat>, inverse: Option<nat>)
      modifies `opcodes
      ensures opcodes == old(opcodes) + OpsBodies(program, inverse)
    {
      Emit(PushProgram(program));
      Emit(PushProgram(inverse));
      Emit(EmptyHash);
    }

    method PartialStatement(s: Statement) returns (ok: bool)
      requires s.Partial?
      modifies `opcodes
      ensures ok == CompilableStatement(s)
      ensures ok ==> opcodes == old(opcodes) + OpsStatement(known, s, 0)
    {
      if s.hash.Hash? {
        ok := HashArguments(s.hash.pairs);
        if !ok {
          return;
        }
      } else {
        Emit(PushUndefined);
      }
      if s.context.Some? {
        ok := PushParam(s.context.value);
        if !ok {
          return;
        }
      } else {
        Emit(GetContext(0));
        Emit(PushContext);
      }
      Emit(InvokePartial(s.name, s.indent));
      Emit(Append);
      ok := true;
    }

    method Accept(s: Statement) returns (ok: bool)
      requires Valid()
      modifies this
      ensures Valid() && isSimple == old(isSimple)
      ensures ok == CompilableStatement(s)
      ensures ok ==> opcodes == old(opcodes) + OpsStatement(known, s, old(guid))
      ensures ok ==> children == old(children) + Children(known, s)
      decreases s, 1
    {
      ok := true;
      match s
      case Mustache(e, escaped) =>
        ok := AcceptSexpr(e);
        if ok {
          Emit(if escaped then AppendEscaped else Append);
        }
      case Block(_, _) => ok := Block(s);
      case Partial(_, _, _, _) => ok := PartialStatement(s);
      case Content(text) =>
        if text != "" {
          Emit(AppendContent(text));
        }
      case Comment =>
    }

    method CompileStatements(ss: seq<Statement>) returns (ok: bool)
      requires Valid() && opcodes == [] && children == []
      modifies this
      ensures ok == CompilableStatements(ss)
      ensures ok ==> opcodes == OpsStatements(known, ss, 0) && children == ChildrenOf(known, ss)
      ensures ok ==> isSimple == (|ss| == 1)
      decreases ss, 1
    {
      assert ss[0..] == ss;
      var c := 0;
      while c < |ss|
        invariant 0 <= c <= |ss| && Valid()
        invariant Compiled(known, ss, c, opcodes, children)
      {
        ghost var done, kids := opcodes, children;
        ok := Accept(ss[c]);
        if !ok {
          assert ss[c..][0] == ss[c];
          return;
        }
        OneMoreCompiled(known, ss, c, done, kids);
        c := c + 1;
      }
      isSimple := |ss| == 1;
      ok := true;
    }
  }
}
