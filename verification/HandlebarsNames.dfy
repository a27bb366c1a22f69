/**
 What names in templates of doc/swagger/lib/handlebars-2.0.0.js stand for: how a
 path is made from its segments, which value it looks up, and which of the forms
 of a call a name and its arguments make, in terms of the parts of the path.
 */
module HandlebarsNames {
  import opened Wrappers
  import opened HandlebarsSyntax
  import opened HandlebarsCompiler
  import opened HandlebarsGenerator
  import opened HandlebarsSemantics
  import opened HandlebarsMerge
  import opened HandlebarsCorrectness

  // ----- paths -----

  /** A part of a written path with the separator in front of it, if there is one. */
  datatype Segment = Segment(separator: string, part: string)

  /** Segments that lead to a context instead of naming a property. */
  predicate Leads(s: Segment) {
    s.part == ".." || s.part == "." || s.part == "this"
  }

  function Written(segments: seq<Segment>): string {
    if segments == [] then ""
    else Written(segments[..|segments| - 1]) + segments[|segments| - 1].separator + segments[|segments| - 1].part
  }

  function Parts(segments: seq<Segment>): (parts: seq<string>)
    ensures |parts| == |segments| && forall i | 0 <= i < |segments| :: parts[i] == segments[i].part
  {
    if segments == [] then []
    else Parts(segments[..|segments| - 1]) + [segments[|segments| - 1].part]
  }

  function Ups(segments: seq<Segment>): nat {
    if segments == [] then 0
    else Ups(segments[..|segments| - 1]) + if segments[|segments| - 1].part == ".." then 1 else 0
  }

  /** The path of segments of which the first n lead to a context, and no others. */
  predicate PathOf(segments: seq<Segment>, n: nat, p: Path) {
    && n <= |segments|
    && (forall i | 0 <= i < |segments| :: Leads(segments[i]) <==> i < n)
    && p.original == Written(segments)
    && p.parts == Parts(segments[n..])
    && p.depth == Ups(segments[..n])
    && (p.isScoped <==> exists i | 0 <= i < n :: segments[i].part != "..")
  }

  /** A segment that leads to a context comes after one that does not. */
  predicate Misplaced(segments: seq<Segment>) {
    exists i, j | 0 <= i < j < |segments| :: !Leads(segments[i]) && Leads(segments[j])
  }

  /** IdNode: segments that lead to a context come first, or the path is invalid; the rest are its parts. */
  method MakePath(segments: seq<Segment>) returns (r: Option<Path>)
    ensures r.None? <==> Misplaced(segments)
    ensures r.Some? ==> exists n :: PathOf(segments, n, r.value)
    ensures r.Some? ==>
              (r.value.IsSimple() <==> |segments| == 1 && !r.value.isScoped && r.value.depth == 0)
  {
    var original, parts, depth, isScoped := "", [], 0, false;
    ghost var n := 0;
    for i := 0 to |segments|
      invariant |parts| == i - n && PathOf(segments[..i], n, Path(original, parts, depth, isScoped))
    {
      var part := segments[i].part;
      ghost var before := Path(original, parts, depth, isScoped);
      original := original + segments[i].separator + part;
      if part == ".." || part == "." || part == "this" {
        if |parts| > 0 {
          assert !Leads(segments[..i][n]) && Leads(segments[i]);
          return None;
        }
        LeadsNext(segments, i, before);
        if part == ".." {
          depth := depth + 1;
        } else {
          isScoped := true;
        }
        n := i + 1;
      } else {
        PartNext(segments, i, n, before);
        parts := parts + [part];
      }
    }
    assert segments[..|segments|] == segments;
    r := Some(Path(original, parts, depth, isScoped));
    SimpleIff(segments, n, r.value);
  }

  lemma {:induction false} LeadsNext(segments: seq<Segment>, i: nat, p: Path)
    requires i < |segments| && PathOf(segments[..i], i, p) && Leads(segments[i])
    ensures var up := segments[i].part == "..";
            PathOf(segments[..i + 1], i + 1,
                   Path(p.original + segments[i].separator + segments[i].part, p.parts,
                        if up then p.depth + 1 else p.depth, p.isScoped || !up))
  {
    var more := segments[..i + 1];
    assert more[..i] == segments[..i] && segments[..i][..i] == segments[..i] && more[..i + 1] == more;
    assert more[i + 1..] == [] && segments[..i][i..] == [];
    assert forall j | 0 <= j < i :: segments[..i][j] == more[j];
    assert more[i] == segments[i];
  }

  lemma {:induction false} PartNext(segments: seq<Segment>, i: nat, n: nat, p: Path)
    requires i < |segments| && PathOf(segments[..i], n, p) && !Leads(segments[i])
    ensures PathOf(segments[..i + 1], n,
                   Path(p.original + segments[i].separator + segments[i].part, p.parts + [segments[i].part], p.depth,
                        p.isScoped))
  {
    var more := segments[..i + 1];
    assert more[..i] == segments[..i] && more[n..][..i - n] == segments[..i][n..] && more[..n] == segments[..i][..n];
    assert forall j | 0 <= j < i :: segments[..i][j] == more[j];
    assert more[i] == segments[i];
  }

  lemma {:induction false} SimpleIff(segments: seq<Segment>, n: nat, p: Path)
    requires PathOf(segments, n, p)
    ensures p.IsSimple() <==> |segments| == 1 && !p.isScoped && p.depth == 0
    ensures !Misplaced(segments)
  {
    if n > 0 && segments[n - 1].part == ".." {
      assert segments[..n][..n - 1] == segments[..n - 1];
    }
  }

  // ----- what a path looks up -----

  /** The property of a property, and so on. */
  function Gets<V, W>(rt: Runtime<V, W>, v: V, parts: seq<string>): V {
    if parts == [] then v else rt.get(Gets(rt, v, parts[..|parts| - 1]), parts[|parts| - 1])
  }

  /** A value to look further into; in a helper's place falsy ones are not. */
  predicate Present<V, W>(rt: Runtime<V, W>, lax: bool, v: V) {
    if lax then rt.truthy(v) else rt.notNull(v)
  }

  /** How many parts are looked up: up to the first value that is missing. */
  predicate LooksUp<V, W>(rt: Runtime<V, W>, lax: bool, v: V, parts: seq<string>, n: nat) {
    && n <= |parts|
    && (forall i | 0 <= i < n :: Present(rt, lax, Gets(rt, v, parts[..i])))
    && (n < |parts| ==> !Present(rt, lax, Gets(rt, v, parts[..n])))
  }

  lemma {:induction false} GetsFirst<V, W>(rt: Runtime<V, W>, v: V, parts: seq<string>)
    requires parts != []
    ensures Gets(rt, v, parts) == Gets(rt, rt.get(v, parts[0]), parts[1..])
  {
    var last := |parts| - 1;
    if last > 0 {
      GetsFirst(rt, v, parts[..last]);
      assert parts[..last][1..] == parts[1..][..last - 1];
    } else {
      assert parts[..0] == [];
    }
  }

  lemma {:induction false} MissingStays<V, W>(rt: Runtime<V, W>, v: V, lax: bool, parts: seq<string>)
    requires !Present(rt, lax, v)
    ensures DenLookup(rt, v, lax, parts) == v
  {
    if parts != [] {
      MissingStays(rt, v, lax, parts[1..]);
    }
  }

  lemma {:induction false} LookupGets<V, W>(rt: Runtime<V, W>, v: V, lax: bool, parts: seq<string>, n: nat)
    requires LooksUp(rt, lax, v, parts, n)
    ensures DenLookup(rt, v, lax, parts) == Gets(rt, v, parts[..n])
    decreases n
  {
    assert Gets(rt, v, parts[..0]) == v;
    if n == 0 {
      if parts != [] {
        MissingStays(rt, v, lax, parts);
      }
    } else {
      var next := rt.get(v, parts[0]);
      forall i | 0 <= i < |parts|
        ensures Gets(rt, next, parts[1..][..i]) == Gets(rt, v, parts[..i + 1])
      {
        GetsFirst(rt, v, parts[..i + 1]);
        assert parts[..i + 1][1..] == parts[1..][..i];
      }
      LookupGets(rt, next, lax, parts[1..], n - 1);
    }
  }

  /** A path without a part, or with an empty one in front, is the context it leads to. */
  lemma {:induction false} ContextMeans<V, W>(rt: Runtime<V, W>, fr: Frame<V>, p: Path, lax: bool)
    requires p.parts == [] || p.parts[0] == ""
    ensures DenPath(rt, fr, p, lax) == fr.context(p.depth)
  {
  }

  /** Any other is the property of all its parts in turn, or the value at which one is missing. */
  lemma {:induction false} PathMeans<V, W>(rt: Runtime<V, W>, fr: Frame<V>, p: Path, lax: bool, n: nat)
    requires p.parts != [] && p.parts[0] != "" && LooksUp(rt, lax, fr.context(p.depth), p.parts, n)
    ensures DenPath(rt, fr, p, lax) == Gets(rt, fr.context(p.depth), p.parts[..n])
  {
    LookupGets(rt, fr.context(p.depth), lax, p.parts, n);
  }

  lemma {:induction false} NameMeans<V, W>(rt: Runtime<V, W>, fr: Frame<V>, p: Path, name: string)
    requires p.parts == [name] && name != ""
    ensures var context := fr.context(p.depth);
            DenPath(rt, fr, p, false) == if rt.notNull(context) then rt.get(context, name) else context
  {
    var context := fr.context(p.depth);
    assert p.parts[..0] == [] && p.parts[..1] == [name] && [name][..0] == [];
    assert Gets(rt, context, [name]) == rt.get(context, name);
    PathMeans(rt, fr, p, false, if rt.notNull(context) then 1 else 0);
  }

  /** A data reference looks its parts up in the data, or in the data of as many frames further out. */
  lemma {:induction false} DataMeans<V, W>(rt: Runtime<V, W>, fr: Frame<V>, p: Path, n: nat)
    requires LooksUp(rt, true, if p.depth == 0 then fr.data else rt.dataAt(fr.data, p.depth), p.parts, n)
    ensures DenData(rt, fr, p)
         == Gets(rt, if p.depth == 0 then fr.data else rt.dataAt(fr.data, p.depth), p.parts[..n])
  {
    LookupGets(rt, if p.depth == 0 then fr.data else rt.dataAt(fr.data, p.depth), true, p.parts, n);
  }

  /** Some number of parts is looked up. */
  lemma {:induction false} SomeLookup<V, W>(rt: Runtime<V, W>, lax: bool, v: V, parts: seq<string>) returns (n: nat)
    ensures LooksUp(rt, lax, v, parts, n)
  {
    n := 0;
    while n < |parts| && Present(rt, lax, Gets(rt, v, parts[..n]))
      invariant n <= |parts| && forall i | 0 <= i < n :: Present(rt, lax, Gets(rt, v, parts[..i]))
    {
      n := n + 1;
    }
  }

  /** The opcodes of a path: its context, or all its parts looked up in it. */
  lemma {:induction false} PathOpcodes(p: Path, falsy: bool)
    ensures p.parts != [] && p.parts[0] != "" ==>
              OpsPath(p, falsy) == [GetContext(p.depth), LookupOnContext(p.parts, falsy, p.isScoped)]
    ensures p.parts == [] || p.parts[0] == "" ==> OpsPath(p, falsy) == [GetContext(p.depth), PushContext]
  {
  }

  // ----- which form of a call a name makes -----

  /** A bare name, which may be that of a helper. */
  predicate Bare(p: Path) {
    |p.parts| == 1 && p.depth == 0 && !p.isScoped
  }

  /** The first part, as a key; a path without parts has the key that undefined makes. */
  predicate FirstPart(p: Path, name: string) {
    name == if p.parts == [] then "undefined" else p.parts[0]
  }

  /**
   With arguments it is a call of a helper.  Without any, it is one for the bare name
   of a known helper, it is left to run time for any other bare name, and else it is a value.
   */
  lemma {:induction false} KindOf(known: KnownHelpers, path: Path, params: seq<Param>, hash: Hash)
    ensures var bare := Bare(path) && params == [] && hash.NoHash?;
            Classify(known, Call(path, params, hash))
            == if params != [] || hash.Hash? || (bare && path.parts[0] in known) then HelperKind
               else if bare then AmbiguousKind else SimpleKind
    ensures Classify(known, DataRef(path)) == SimpleKind
  {
  }

  /** The last opcode of an expression is the call of its form, with the number of its parameters. */
  lemma {:induction false} CallOpcode(known: KnownHelpers, path: Path, params: seq<Param>, hash: Hash, name: string)
    requires CompilableSexpr(Call(path, params, hash)) && FirstPart(path, name)
    ensures var ops := OpsSexpr(known, Call(path, params, hash));
            var plain := params == [] && hash.NoHash?;
            && ops != []
            && ops[|ops| - 1]
               == if plain && !Bare(path) then ResolvePossibleLambda
                  else if name in known then InvokeKnownHelper(|params|, name)
                  else if plain then InvokeAmbiguous(name, false)
                  else InvokeHelper(|params|, path.original, Bare(path))
  {
    KindOf(known, path, params, hash);
  }

  /** A value: the path, which lambda calls if it is a function. */
  lemma {:induction false} ValueMeans<V, W>(rt: Runtime<V, W>, fr: Frame<V>, known: KnownHelpers, path: Path, w: W)
    requires !Bare(path)
    ensures DenSexpr(rt, fr, known, Call(path, [], NoHash), w)
         == rt.lambda(DenPath(rt, fr, path, false), fr.context(0), w)
  {
    KindOf(known, path, [], NoHash);
  }

  lemma {:induction false} DataValueMeans<V, W>(rt: Runtime<V, W>, fr: Frame<V>, known: KnownHelpers, path: Path, w: W)
    ensures DenSexpr(rt, fr, known, DataRef(path), w) == rt.lambda(DenData(rt, fr, path), fr.context(0), w)
  {
    KindOf(known, path, [], NoHash);
  }

  /** The options of a call: what it is called by, its hash, the functions of a block, and the data. */
  function Options<V, W>(rt: Runtime<V, W>, fr: Frame<V>, name: string, hash: V, functions: seq<(string, V)>): V {
    rt.record([("name", rt.text(name)), ("hash", hash)] + functions + [("data", fr.data)])
  }

  function FirstTruthy<V, W>(rt: Runtime<V, W>, a: V, b: V): V {
    if rt.truthy(a) then a else b
  }

  /**
   A bare name that is no known helper: the helper of that name, or else the property
   of the context, or else helperMissing.  A function is called without arguments,
   anything else is the value.
   */
  lemma {:induction false} BareMeans<V, W>(rt: Runtime<V, W>, fr: Frame<V>, known: KnownHelpers, path: Path,
                                           name: string, w: W)
    requires path.parts == [name] && Bare(path) && name !in known && name != ""
    ensures var context := fr.context(0);
            var property := if rt.notNull(context) then rt.get(context, name) else context;
            var found := FirstTruthy(rt, rt.get(fr.helpers, name), property);
            var f := if rt.notNull(found) then found else rt.get(fr.helpers, "helperMissing");
            DenSexpr(rt, fr, known, Call(path, [], NoHash), w)
            == if rt.isFunction(f) then rt.call(f, context, [Options(rt, fr, name, rt.record([]), [])], w) else (f, w)
  {
    KindOf(known, path, [], NoHash);
    NameMeans(rt, fr, path, name);
  }

  /** A known helper is taken from the helpers, even if the path goes on after its name. */
  lemma {:induction false} KnownMeans<V, W>(rt: Runtime<V, W>, fr: Frame<V>, known: KnownHelpers, path: Path,
                                            params: seq<Param>, hash: Hash, name: string, w: W)
    requires FirstPart(path, name) && name in known && (Bare(path) || params != [] || hash.Hash?)
    ensures var args := DenParams(rt, fr, known, params, w);
            var hashed := DenHash(rt, fr, known, hash, args.1);
            DenSexpr(rt, fr, known, Call(path, params, hash), w)
            == rt.call(rt.get(fr.helpers, name), fr.context(0), args.0 + [Options(rt, fr, name, hashed.0, [])],
                       hashed.1)
  {
    KindOf(known, path, params, hash);
  }

  /**
   Any other name with arguments: for a bare one the helper of that name, or else the
   value of the path, or else helperMissing; it is called with the context, its
   parameters in order, and the options.
   */
  lemma {:induction false} CallMeans<V, W>(rt: Runtime<V, W>, fr: Frame<V>, known: KnownHelpers, path: Path,
                                           params: seq<Param>, hash: Hash, name: string, w: W)
    requires FirstPart(path, name) && name !in known && (params != [] || hash.Hash?)
    ensures var args := DenParams(rt, fr, known, params, w);
            var hashed := DenHash(rt, fr, known, hash, args.1);
            var value := FirstTruthy(rt, DenPath(rt, fr, path, true), rt.get(fr.helpers, "helperMissing"));
            var f := if Bare(path) then FirstTruthy(rt, rt.get(fr.helpers, path.original), value) else value;
            DenSexpr(rt, fr, known, Call(path, params, hash), w)
            == rt.call(f, fr.context(0), args.0 + [Options(rt, fr, path.original, hashed.0, [])], hashed.1)
  {
    KindOf(known, path, params, hash);
  }

  /** fn runs the program of a block and inverse its inverse; one that is missing does nothing. */
  function Functions<V, W>(rt: Runtime<V, W>, fr: Frame<V>, known: KnownHelpers, b: Bodies): seq<(string, V)>
    requires CompilableBodies(b)
  {
    [("fn", if b.OnlyInverse? then rt.noop else rt.program(KeyOf(EnvironmentOf(known, b.program)), ScopeOf(fr))),
     ("inverse", if b.OnlyProgram? then rt.noop else rt.program(KeyOf(EnvironmentOf(known, b.inverse)), ScopeOf(fr)))]
  }

  /** A block with arguments calls its helper with its two functions. */
  lemma {:induction false} BlockCallMeans<V, W>(rt: Runtime<V, W>, fr: Frame<V>, known: KnownHelpers, path: Path,
                                                params: seq<Param>, hash: Hash, b: Bodies, name: string, w: W)
    requires FirstPart(path, name) && (params != [] || hash.Hash?)
    requires Generable(Block(Call(path, params, hash), b))
    ensures var args := DenParams(rt, fr, known, params, w);
            var hashed := DenHash(rt, fr, known, hash, args.1);
            var value := FirstTruthy(rt, DenPath(rt, fr, path, true), rt.get(fr.helpers, "helperMissing"));
            var f := if name in known then rt.get(fr.helpers, name)
                     else if Bare(path) then FirstTruthy(rt, rt.get(fr.helpers, path.original), value) else value;
            var called := if name in known then name else path.original;
            DenValue(rt, fr, known, Block(Call(path, params, hash), b), w)
            == rt.call(f, fr.context(0), args.0 + [Options(rt, fr, called, hashed.0, Functions(rt, fr, known, b))],
                       hashed.1)
  {
    KindOf(known, path, params, hash);
  }

  /** A block over a value hands it, and its functions, to blockHelperMissing. */
  lemma {:induction false} BlockValueMeans<V, W>(rt: Runtime<V, W>, fr: Frame<V>, known: KnownHelpers, path: Path,
                                                 b: Bodies, w: W)
    requires !Bare(path) && Generable(Block(Call(path, [], NoHash), b))
    ensures var v := rt.lambda(DenPath(rt, fr, path, false), fr.context(0), w);
            DenValue(rt, fr, known, Block(Call(path, [], NoHash), b), w)
            == rt.call(rt.get(fr.helpers, "blockHelperMissing"), fr.context(0),
                       [v.0, Options(rt, fr, path.original, rt.record([]), Functions(rt, fr, known, b))], v.1)
  {
    KindOf(known, path, [], NoHash);
  }

  /**
   A block over a bare name that is no known helper: the helper of that name is called
   with the functions; without one, so is a property that is a function, and what comes
   of it goes to blockHelperMissing.
   */
  lemma {:induction false} BlockBareMeans<V, W>(rt: Runtime<V, W>, fr: Frame<V>, known: KnownHelpers, path: Path,
                                                name: string, b: Bodies, w: W)
    requires path.parts == [name] && Bare(path) && name !in known && name != ""
    requires Generable(Block(Call(path, [], NoHash), b))
    ensures var context, helper := fr.context(0), rt.get(fr.helpers, name);
            var property := if rt.notNull(context) then rt.get(context, name) else context;
            var found := FirstTruthy(rt, helper, property);
            var f := if rt.notNull(found) then found else rt.get(fr.helpers, "helperMissing");
            var options := Options(rt, fr, name, rt.record([]), Functions(rt, fr, known, b));
            var v := if rt.isFunction(f) then rt.call(f, context, [options], w) else (f, w);
            DenValue(rt, fr, known, Block(Call(path, [], NoHash), b), w)
            == if rt.truthy(helper) then v
               else rt.call(rt.get(fr.helpers, "blockHelperMissing"), context, [v.0, options], v.1)
  {
    KindOf(known, path, [], NoHash);
    NameMeans(rt, fr, path, name);
  }

  // ----- compiled names -----

  /**
   The compiled function of a template that consists of one escaped path of several
   parts: the text of the property of all of them in turn.
   */
  lemma {:induction false} CompiledPath<V, W>(rt: Runtime<V, W>, fr: Frame<V>, known: KnownHelpers, path: Path, n: nat,
                                              w: W)
    requires |path.parts| > 1 && path.parts[0] != ""
    requires LooksUp(rt, false, fr.context(path.depth), path.parts, n)
    ensures var p := Program([Mustache(Call(path, [], NoHash), true)]);
            && GenerableAll(p.statements)
            && var source := Generate(EnvironmentOf(known, p));
            && source.Ok?
            && var v := rt.lambda(Gets(rt, fr.context(path.depth), path.parts[..n]), fr.context(0), w);
               CallBody(rt, fr, Merged(true, source.value), w) == (rt.text(rt.escape(v.0)), v.1)
  {
    var s := Mustache(Call(path, [], NoHash), true);
    OneGenerable(s);
    CompiledTemplateIsCorrect(rt, fr, known, Program([s]), w);
    TextOfOne(rt, fr, known, s, w);
    ValueMeans(rt, fr, known, path, w);
    PathMeans(rt, fr, path, false, n);
  }

  lemma {:induction false} OneGenerable(s: Statement)
    requires Generable(s)
    ensures GenerableAll([s])
  {
    assert [s][1..] == [];
  }
}
