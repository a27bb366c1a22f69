/**
 The three languages of the template compiler in
 doc/swagger/lib/handlebars-2.0.0.js: the syntax tree of a template, the opcodes
 that its Compiler emits, and the JavaScript that its JavaScriptCompiler
 generates.  Generated JavaScript is kept as a tree instead of as text.

 The mode is the default one: no stringParams, trackIds, compat,
 knownHelpersOnly or noEscape, and the data option on.
 */
module HandlebarsSyntax {
  import opened Wrappers

  // ----- templates -----

  /** A path such as ../a.b: IdNode */
  datatype Path = Path(original: string, parts: seq<string>, depth: nat, isScoped: bool) {
    predicate IsSimple() {
      |parts| == 1 && !isScoped && depth == 0
    }

    /** parts[0] as a property key */
    function Head(): string {
      if |parts| > 0 then parts[0] else "undefined"
    }

    /** parts[0] is missing or empty: the path denotes the context itself */
    predicate IsContext() {
      |parts| == 0 || parts[0] == ""
    }
  }

  datatype Param =
    | Id(path: Path)
    | Data(path: Path)
    | Quoted(text: string)
    | Verbatim(text: string)
    | SubExpr(sexpr: Sexpr)

  datatype Pair = Pair(key: string, value: Param)

  datatype Hash = NoHash | Hash(pairs: seq<Pair>)

  /** The grammar allows no parameters after a data reference. */
  datatype Sexpr =
    | Call(path: Path, params: seq<Param>, hash: Hash)
    | DataRef(path: Path)

  datatype Statement =
    | Mustache(sexpr: Sexpr, escaped: bool)
    | Block(sexpr: Sexpr, bodies: Bodies)
    | Partial(name: string, context: Option<Param>, hash: Hash, indent: string)
    | Content(text: string)
    | Comment

  /** A block has a program, an inverse, or both. */
  datatype Bodies =
    | OnlyProgram(program: Program)
    | OnlyInverse(inverse: Program)
    | Both(program: Program, inverse: Program)

  datatype Program = Program(statements: seq<Statement>)

  // ----- opcodes -----

  datatype Opcode =
    | GetContext(depth: nat)
    | PushContext
    | LookupOnContext(parts: seq<string>, falsy: bool, scoped: bool)
    | LookupData(depth: nat, parts: seq<string>)
    | PushString(text: string)
    | PushLiteral(text: string)
    | PushUndefined
    | PushProgram(child: Option<nat>)
    | PushHash
    | AssignToHash(key: string)
    | PopHash
    | EmptyHash
    | ResolvePossibleLambda
    | InvokeHelper(arity: nat, name: string, isSimple: bool)
    | InvokeKnownHelper(arity: nat, name: string)
    | InvokeAmbiguous(name: string, isBlock: bool)
    | InvokePartial(name: string, indent: string)
    | BlockValue(original: Option<string>)
    | AmbiguousBlockValue
    | Append
    | AppendEscaped
    | AppendContent(text: string)

  /** A compiled program: the result of Compiler.compile */
  datatype Environment = Environment(opcodes: seq<Opcode>, children: seq<Environment>, isSimple: bool)

  /**
   What the compiler compares of two compiled programs.  Programs with the same
   key share the index by which generated code refers to a program, so the key
   stands for that index.
   */
  datatype Key = Key(opcodes: seq<Opcode>, children: seq<Key>)

  function KeyOf(e: Environment): Key
    decreases e
  {
    Key(e.opcodes, KeysOf(e.children))
  }

  function KeysOf(es: seq<Environment>): (ks: seq<Key>)
    ensures |ks| == |es| && forall i | 0 <= i < |es| :: ks[i] == KeyOf(es[i])
    decreases es
  {
    if es == [] then [] else [KeyOf(es[0])] + KeysOf(es[1..])
  }

  // ----- generated JavaScript -----

  /** The variables a generated function assigns. */
  datatype Register = Slot(index: nat) | HelperRegister | OptionsRegister

  datatype Js =
    | ContextVar(depth: nat)                             // depth0, depths[n]
    | DataVar                                            // data
    | DataAt(depth: nat)                                 // this.data(data, n)
    | HelpersVar | PartialsVar | Noop
    | NullLit | UndefinedLit
    | StringLit(text: string)
    | RawLit(text: string)
    | ProgramRef(key: Key)                               // this.program(i, data)
    | Read(register: Register)
    | Get(target: Js, name: string)
    | IfNotNull(test: Js, yes: Js, no: Js)               // test != null ? yes : no
    | IfFunction(test: Js, yes: Js, no: Js)              // typeof test === "function" ? yes : no
    | And(left: Js, right: Js)
    | Or(left: Js, right: Js)
    | Assign(register: Register, value: Js)
    | Comma(left: Js, right: Js)
    | CallJs(callee: Js, self: Js, args: seq<Js>)        // callee.call(self, args...)
    | Lambda(value: Js, self: Js)                        // this.lambda(value, self)
    | PartialJs(callee: Js, indent: string, name: string, context: Js, hash: Js)
    | ObjectLit(fields: seq<Field>)

  datatype Field = Field(key: string, value: Js)

  /** The text that an emitted item appends to the buffer. */
  datatype Chunk =
    | Text(text: string)                                 // a quoted string
    | Escaped(value: Js)                                 // escapeExpression(value)

  datatype Line =
    | Set(slot: nat, value: Js)                          // stackN = value;
    | SetUnless(test: Js, target: Js, value: Js)         // if (!test) { target = value; }
    | AppendUnlessNull(value: Js)                        // if (value != null) { buffer += value; }
    | ReturnUnlessNull(value: Js)                        // if (value != null) { return value; }
    | ElseReturnEmpty                                    // else { return ''; }
    | Return(chunk: Chunk)                               // return chunk;

  /** One element of the source array. */
  datatype Item = Buffer(chunk: Chunk) | Code(line: Line)
}
