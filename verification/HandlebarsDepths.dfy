/**
 Which functions of a template pass depths on to the programs nested in them.
 compileChildren of doc/swagger/lib/handlebars-2.0.0.js takes the flag from the
 children that it compiles and not from those that it finds in the table.
 */
module HandlebarsDepths {
  import opened Wrappers
  import opened HandlebarsSyntax
  import opened HandlebarsGenerator
  import opened HandlebarsMerge
  import opened HandlebarsPrograms

  // ----- passing depths on -----

  lemma {:induction false} DepthsAreUsed(e: Environment)
    ensures Depths(e) != {} ==> UsesDepths(e)
    decreases e
  {
    NestedDepthsAreUsed(e.children);
  }

  lemma {:induction false} NestedDepthsAreUsed(es: seq<Environment>)
    ensures NestedDepths(es) != {} ==> AnyUsesDepths(es)
    decreases es
  {
    if es != [] {
      DepthsAreUsed(es[0]);
      NestedDepthsAreUsed(es[1..]);
      if Depths(es[0]) == {} {
        assert (set d | d in Depths(es[0]) && d >= 2 :: d - 1) == {};
      }
    }
  }

  lemma {:induction false} SameDepths(a: Environment, b: Environment)
    requires Same(a, b)
    ensures Depths(a) == Depths(b) && (UsesDepths(a) <==> UsesDepths(b))
    decreases a
  {
    SameNestedDepths(a.children, b.children);
  }

  lemma {:induction false} SameNestedDepths(a: seq<Environment>, b: seq<Environment>)
    requires |a| == |b| && SameAll(a, b)
    ensures NestedDepths(a) == NestedDepths(b) && (AnyUsesDepths(a) <==> AnyUsesDepths(b))
    decreases a
  {
    if a != [] {
      SameDepths(a[0], b[0]);
      SameNestedDepths(a[1..], b[1..]);
    }
  }

  predicate Within(x: Environment, e: Environment) {
    x == e || Nested(x, e)
  }

  predicate Inside(x: Environment, es: seq<Environment>) {
    exists i | 0 <= i < |es| :: Within(x, es[i])
  }

  /** Something within the program collects depths and is not in the table yet. */
  ghost predicate NewDepths(ctx: Context, e: Environment) {
    exists x :: Within(x, e) && Depths(x) != {} && !Represented(ctx, x)
  }

  ghost predicate NewDepthsInside(ctx: Context, es: seq<Environment>) {
    exists x :: Inside(x, es) && Depths(x) != {} && !Represented(ctx, x)
  }

  lemma {:induction false} NestedIsInside(x: Environment, e: Environment)
    ensures Nested(x, e) <==> Inside(x, e.children)
  {
    if Nested(x, e) {
      var i :| 0 <= i < |e.children| && (x == e.children[i] || Nested(x, e.children[i]));
      assert Within(x, e.children[i]);
    }
    if Inside(x, e.children) {
      var i :| 0 <= i < |e.children| && Within(x, e.children[i]);
    }
  }

  lemma {:induction false} InsideSplit(x: Environment, es: seq<Environment>)
    requires es != []
    ensures Inside(x, es) <==> Within(x, es[0]) || Inside(x, es[1..])
  {
    if Inside(x, es) && !Within(x, es[0]) {
      var i :| 0 <= i < |es| && Within(x, es[i]);
      assert es[1..][i - 1] == es[i];
    }
    if Inside(x, es[1..]) {
      var i :| 0 <= i < |es[1..]| && Within(x, es[1..][i]);
      assert es[i + 1] == es[1..][i];
    }
  }

  lemma {:induction false} RepresentedKept(a: Context, b: Context, x: Environment)
    requires Keeps(a, b) && Represented(a, x)
    ensures Represented(b, x)
  {
    var h :| h in a.environments && Refers(a, h, x);
    assert Refers(b, h, x);
  }

  /** What was added to the table comes from within these programs. */
  predicate AddedFrom(a: Context, b: Context, es: seq<Environment>) {
    forall h <- b.environments :: h in a.environments || Inside(b.environments[h], es)
  }

  lemma {:induction false} ProgramAddsInside(e: Environment, ctx: Context)
    requires Table(ctx) && CompileProgram(e, ctx).Ok?
    ensures AddedFrom(ctx, CompileProgram(e, ctx).value.1, e.children)
    decreases e, 0
  {
    ChildrenAddInside(e.children, ctx);
  }

  lemma {:induction false} ChildrenAddInside(es: seq<Environment>, ctx: Context)
    requires Table(ctx) && CompileChildren(es, ctx).Ok?
    ensures AddedFrom(ctx, CompileChildren(es, ctx).value.context, es)
    decreases es
  {
    if es != [] {
      var mid := CompileChild(es[0], ctx).value.context;
      ChildAddsInside(es[0], ctx);
      CompileChildTable(es[0], ctx);
      ChildrenAddInside(es[1..], mid);
      CompileChildrenTable(es[1..], mid);
      var b := CompileChildren(es[1..], mid).value.context;
      forall h <- b.environments | h !in ctx.environments
        ensures Inside(b.environments[h], es)
      {
        InsideSplit(b.environments[h], es);
        InsideOne(b.environments[h], es[0]);
      }
    }
  }

  lemma {:induction false} InsideOne(x: Environment, e: Environment)
    ensures Inside(x, [e]) <==> Within(x, e)
  {
    assert [e][0] == e;
  }

  lemma {:induction false} ChildAddsInside(e: Environment, ctx: Context)
    requires Table(ctx) && CompileChild(e, ctx).Ok?
    ensures AddedFrom(ctx, CompileChild(e, ctx).value.context, [e])
    decreases e, 1
  {
    if Existing(ctx.environments, e, 0, ctx.length).None? {
      var longer := ctx.(length := ctx.length + 1);
      assert CompileProgram(e, longer).Ok?;
      LongerTable(ctx, ctx.length + 1);
      ProgramAddsInside(e, longer);
      NewChildAdds(e, ctx, longer, CompileProgram(e, longer).value);
    }
  }

  lemma {:induction false} NewChildAdds(e: Environment, ctx: Context, longer: Context, r: (Compiled, Context))
    requires Existing(ctx.environments, e, 0, ctx.length).None? && longer == ctx.(length := ctx.length + 1)
    requires CompileProgram(e, longer) == Ok(r) && AddedFrom(longer, r.1, e.children)
    ensures CompileChild(e, ctx).Ok? && AddedFrom(ctx, CompileChild(e, ctx).value.context, [e])
  {
    AddedInside(ctx, r.1, ctx.length + 1, e, r.0);
    assert CompileChild(e, ctx).value.context == Added(r.1, ctx.length + 1, e, r.0);
  }

  lemma {:induction false} AddedInside(ctx: Context, c: Context, index: nat, e: Environment, code: Compiled)
    requires AddedFrom(ctx, c, e.children)
    ensures AddedFrom(ctx, Added(c, index, e, code), [e])
  {
    var b := Added(c, index, e, code);
    forall h <- b.environments | h !in ctx.environments
      ensures Inside(b.environments[h], [e])
    {
      InsideOne(b.environments[h], e);
      NestedIsInside(b.environments[h], e);
    }
  }

  /** New depths in a list come from its first program, or are still new after that was compiled. */
  lemma {:induction false} NewDepthsSplit(ctx: Context, mid: Context, es: seq<Environment>)
    requires es != [] && Keeps(ctx, mid) && AddedFrom(ctx, mid, [es[0]])
    ensures NewDepthsInside(ctx, es) <==> NewDepths(ctx, es[0]) || NewDepthsInside(mid, es[1..])
  {
    if NewDepthsInside(ctx, es) {
      var x :| Inside(x, es) && Depths(x) != {} && !Represented(ctx, x);
      InsideSplit(x, es);
      if !Within(x, es[0]) && Represented(mid, x) {
        var h :| h in mid.environments && Refers(mid, h, x);
        var y := mid.environments[h];
        assert h in ctx.environments && ctx.environments[h] == y ==> Refers(ctx, h, x);
        InsideOne(y, es[0]);
        SameDepths(y, x);
        StillNew(ctx, y, x);
      }
    }
    if NewDepths(ctx, es[0]) {
      var x :| Within(x, es[0]) && Depths(x) != {} && !Represented(ctx, x);
      InsideSplit(x, es);
    }
    if NewDepthsInside(mid, es[1..]) {
      var x :| Inside(x, es[1..]) && Depths(x) != {} && !Represented(mid, x);
      InsideSplit(x, es);
      if Represented(ctx, x) {
        RepresentedKept(ctx, mid, x);
      }
    }
  }

  lemma {:induction false} StillNew(ctx: Context, y: Environment, x: Environment)
    requires Same(y, x) && !Represented(ctx, x)
    ensures !Represented(ctx, y)
  {
    if Represented(ctx, y) {
      OldSame(ctx, y, x);
    }
  }

  /**
   A function passes depths on exactly when depths were collected for its
   program, or for one nested in it that is not in the table when its
   compilation starts.
   */
  lemma {:induction false} PassesDepthsIff(e: Environment, ctx: Context)
    requires Table(ctx) && CompileProgram(e, ctx).Ok?
    ensures CompileProgram(e, ctx).value.0.useDepths
       <==> Depths(e) != {} || exists x :: Nested(x, e) && Depths(x) != {} && !Represented(ctx, x)
    decreases e, 0
  {
    ChildrenPassDepthsIff(e.children, ctx);
    forall x
      ensures Nested(x, e) <==> Inside(x, e.children)
    {
      NestedIsInside(x, e);
    }
  }

  lemma {:induction false} ChildrenPassDepthsIff(es: seq<Environment>, ctx: Context)
    requires Table(ctx) && CompileChildren(es, ctx).Ok?
    ensures CompileChildren(es, ctx).value.useDepths <==> NewDepthsInside(ctx, es)
    decreases es
  {
    if es != [] {
      var mid := CompileChild(es[0], ctx).value.context;
      ChildPassesDepthsIff(es[0], ctx);
      ChildAddsInside(es[0], ctx);
      CompileChildTable(es[0], ctx);
      ChildrenPassDepthsIff(es[1..], mid);
      NewDepthsSplit(ctx, mid, es);
    }
  }

  lemma {:induction false} ChildPassesDepthsIff(e: Environment, ctx: Context)
    requires Table(ctx) && CompileChild(e, ctx).Ok?
    ensures CompileChild(e, ctx).value.useDepths <==> NewDepths(ctx, e)
    decreases e, 1
  {
    ExistingIs(ctx.environments, e, 0, ctx.length);
    var found := Existing(ctx.environments, e, 0, ctx.length);
    if found.Some? {
      AllOld(ctx, found.value, e);
    } else {
      var longer := ctx.(length := ctx.length + 1);
      assert CompileProgram(e, longer).Ok?;
      LongerTable(ctx, ctx.length + 1);
      PassesDepthsIff(e, longer);
      NewChildDepths(e, ctx, longer);
      assert CompileChild(e, ctx).value.useDepths == CompileProgram(e, longer).value.0.useDepths;
    }
  }

  /** Nothing within a program that was found is new. */
  lemma {:induction false} AllOld(ctx: Context, h: nat, e: Environment)
    requires Table(ctx) && Refers(ctx, h, e)
    ensures forall x | Within(x, e) :: Represented(ctx, x)
  {
    ChildrenRepresented(ctx, h, e);
    forall x | Within(x, e)
      ensures Represented(ctx, x)
    {
      if x != e {
        NestedRepresented(ctx, e, x);
      }
    }
  }

  lemma {:induction false} NewChildDepths(e: Environment, ctx: Context, longer: Context)
    requires NoneSame(ctx.environments, e, 0, ctx.length) && (forall h <- ctx.environments :: h < ctx.length)
    requires longer.environments == ctx.environments
    ensures NewDepths(ctx, e)
       <==> Depths(e) != {} || exists x :: Nested(x, e) && Depths(x) != {} && !Represented(longer, x)
  {
    assert !Represented(ctx, e);
    forall x
      ensures Represented(longer, x) <==> Represented(ctx, x)
    {
      assert forall h :: Refers(longer, h, x) == Refers(ctx, h, x);
    }
    if Depths(e) != {} {
      assert Within(e, e);
    }
    if exists x :: Nested(x, e) && Depths(x) != {} && !Represented(longer, x) {
      var x :| Nested(x, e) && Depths(x) != {} && !Represented(longer, x);
      assert Within(x, e);
    }
  }

  /**
   A program p that refers to no enclosing context, around a program q that
   refers to the next: when q is found in the table because it also stands
   before p, the function of p passes no depths on, though that of q reads them.
   */
  lemma {:induction false} SharingLosesDepths(q: Environment, p: Environment)
    requires q.children == [] && OwnDepths(q.opcodes) == {1}
    requires p.children == [q] && OwnDepths(p.opcodes) == {}
    requires CompileChildren([q, p], NO_PROGRAMS).Ok?
    ensures UsesDepths(p)
    ensures var ctx := CompileChildren([q, p], NO_PROGRAMS).value.context;
            && ctx.environments == map[1 := q, 3 := p]
            && 1 in ctx.code && ctx.code[1].useDepths
            && 3 in ctx.code && ctx.code[3].refs == [1] && !ctx.code[3].useDepths
  {
    assert [q, p][1..] == [p] && [p][1..] == [] && [q][1..] == [];
    assert UsesDepths(q) && AnyUsesDepths([q]);
    assert CompileChild(q, NO_PROGRAMS).Ok?;
    FirstGenerates(q);
    FirstChild(q, 0);
    var ctx := CompileChild(q, NO_PROGRAMS).value.context;
    assert CompileChildren([p], ctx).Ok? && CompileChild(p, ctx).Ok?;
    AroundFound(q, p, ctx);
    assert CompileChildren([], CompileChild(p, ctx).value.context).Ok?;
  }

  lemma {:induction false} FirstGenerates(q: Environment)
    requires CompileChild(q, NO_PROGRAMS).Ok?
    ensures Generate(q).Ok?
  {
    assert Existing(NO_PROGRAMS.environments, q, 0, 0).None?;
    assert CompileProgram(q, Context(1, map[], map[])).Ok?;
  }

  /** Compiling p when q, the only program in it, has been compiled. */
  lemma {:induction false} AroundFound(q: Environment, p: Environment, ctx: Context)
    requires p.children == [q] && q.children == []
    requires OwnDepths(q.opcodes) == {1} && OwnDepths(p.opcodes) == {}
    requires ctx.environments == map[1 := q] && ctx.length == 2 && CompileChild(p, ctx).Ok?
    ensures var kids := CompileChild(p, ctx).value;
            && kids.context.environments == map[1 := q, 3 := p]
            && 3 in kids.context.code && kids.context.code == ctx.code[3 := kids.context.code[3]]
            && kids.context.code[3].refs == [1] && !kids.context.code[3].useDepths
  {
    assert [q][1..] == [];
    assert Depths(q) == {1};
    assert NestedDepths([]) == {};
    assert NestedDepths([q]) == {};
    assert !Same(q, p);
    ExistingIs(ctx.environments, p, 0, 2);
    assert Existing(ctx.environments, p, 0, 2).None?;
    FoundChild(q, ctx.(length := 3));
    assert CompileProgram(p, ctx.(length := 3)).Ok?;
  }

  lemma {:induction false} FoundChild(q: Environment, ctx: Context)
    requires ctx.environments == map[1 := q] && ctx.length > 1
    ensures CompileChildren([q], ctx) == Ok(Kids([1], false, ctx))
  {
    SameItself(q);
    ExistingIs(ctx.environments, q, 0, ctx.length);
    assert CompileChild(q, ctx) == Ok(Kids([1], false, ctx));
    assert [q][1..] == [] && CompileChildren([], ctx) == Ok(Kids([], false, ctx));
    assert [1] + [] == [1];
  }

  // ----- when every function passes the depths that are needed -----

  /** A program and all nested in it, each behind those nested in it. */
  function Programs(e: Environment): seq<Environment>
    decreases e, 0
  {
    ProgramsOf(e.children) + [e]
  }

  function ProgramsOf(es: seq<Environment>): seq<Environment>
    decreases es
  {
    if es == [] then [] else Programs(es[0]) + ProgramsOf(es[1..])
  }

  predicate Seen(seen: seq<Environment>, e: Environment) {
    exists s <- seen :: Same(s, e)
  }

  /** First met behind these programs, the program gets a function that passes the depths it uses. */
  ghost predicate KeepsDepths(e: Environment, seen: seq<Environment>) {
    UsesDepths(e) ==> Depths(e) != {} || exists x :: Nested(x, e) && Depths(x) != {} && !Seen(seen, x)
  }

  /**
   For programs met in the order of the template: each that is not equal to an
   earlier one, and uses depths, collects depths of its own or contains one that
   does and is not equal to any program in front of it.
   */
  ghost predicate AllKeepDepths(es: seq<Environment>, seen: seq<Environment>)
    decreases es
  {
    es != [] ==>
      && (Seen(seen, es[0]) || (KeepsDepths(es[0], seen) && AllKeepDepths(es[0].children, seen)))
      && AllKeepDepths(es[1..], seen + Programs(es[0]))
  }

  /** The table represents what was seen. */
  ghost predicate Sees(ctx: Context, seen: seq<Environment>) {
    forall x :: Represented(ctx, x) <==> Seen(seen, x)
  }

  predicate PassesAt(ctx: Context, h: nat)
    requires h in ctx.code && h in ctx.environments
  {
    ctx.code[h].useDepths == UsesDepths(ctx.environments[h])
  }

  /** The functions added to the table pass depths exactly where they are used. */
  predicate AddedPass(a: Context, b: Context) {
    forall h <- b.code :: h in b.environments && h !in a.code ==> PassesAt(b, h)
  }

  lemma {:induction false} SeenConcat(a: seq<Environment>, b: seq<Environment>, x: Environment)
    ensures Seen(a + b, x) <==> Seen(a, x) || Seen(b, x)
  {
    if Seen(a + b, x) {
      var s :| s in a + b && Same(s, x);
    }
    if Seen(a, x) {
      var s :| s in a && Same(s, x);
      assert s in a + b;
    }
    if Seen(b, x) {
      var s :| s in b && Same(s, x);
      assert s in a + b;
    }
  }

  lemma {:induction false} ProgramsAreWithin(e: Environment)
    ensures forall x <- Programs(e) :: Within(x, e)
    decreases e, 0
  {
    ProgramsAreInside(e.children);
    forall x <- Programs(e)
      ensures Within(x, e)
    {
      NestedIsInside(x, e);
    }
  }

  lemma {:induction false} ProgramsAreInside(es: seq<Environment>)
    ensures forall x <- ProgramsOf(es) :: Inside(x, es)
    decreases es
  {
    if es != [] {
      ProgramsAreWithin(es[0]);
      ProgramsAreInside(es[1..]);
      forall x <- ProgramsOf(es)
        ensures Inside(x, es)
      {
        InsideSplit(x, es);
      }
    }
  }

  lemma {:induction false} AddedPassTwice(a: Context, b: Context, c: Context)
    requires Keeps(a, b) && Keeps(b, c)
    requires b.code.Keys == b.environments.Keys && c.code.Keys == c.environments.Keys
    ensures AddedPass(a, c) <==> AddedPass(a, b) && AddedPass(b, c)
  {
    if AddedPass(a, c) {
      forall h <- b.code | h !in a.code
        ensures PassesAt(b, h)
      {
        assert h in c.code && PassesAt(c, h);
      }
    }
    if AddedPass(a, b) && AddedPass(b, c) {
      forall h <- c.code | h !in a.code
        ensures PassesAt(c, h)
      {
        if h in b.code {
          assert PassesAt(b, h);
        }
      }
    }
  }

  /** After some programs were compiled or found: what the table represents, and whether the new functions pass. */
  ghost predicate KidsKept(ctx: Context, b: Context, es: seq<Environment>, seen: seq<Environment>) {
    Sees(b, seen + ProgramsOf(es)) && (AddedPass(ctx, b) <==> AllKeepDepths(es, seen))
  }

  ghost predicate KidKept(ctx: Context, b: Context, e: Environment, seen: seq<Environment>) {
    && Sees(b, seen + Programs(e))
    && (AddedPass(ctx, b) <==> Seen(seen, e) || (KeepsDepths(e, seen) && AllKeepDepths(e.children, seen)))
  }

  lemma {:induction false} ChildrenKeepDepths(es: seq<Environment>, ctx: Context, seen: seq<Environment>)
    requires Table(ctx) && CompileChildren(es, ctx).Ok? && Sees(ctx, seen)
    ensures KidsKept(ctx, CompileChildren(es, ctx).value.context, es, seen)
    decreases es
  {
    if es == [] {
      assert seen + [] == seen;
    } else {
      var mid := CompileChild(es[0], ctx).value.context;
      ChildKeepsDepths(es[0], ctx, seen);
      CompileChildTable(es[0], ctx);
      ChildrenKeepDepths(es[1..], mid, seen + Programs(es[0]));
      CompileChildrenTable(es[1..], mid);
      OneMoreKept(ctx, mid, CompileChildren(es[1..], mid).value.context, es, seen);
    }
  }

  lemma {:induction false} OneMoreKept(ctx: Context, mid: Context, b: Context, es: seq<Environment>,
                                       seen: seq<Environment>)
    requires es != [] && KidKept(ctx, mid, es[0], seen) && KidsKept(mid, b, es[1..], seen + Programs(es[0]))
    requires Keeps(ctx, mid) && Keeps(mid, b)
    requires mid.code.Keys == mid.environments.Keys && b.code.Keys == b.environments.Keys
    ensures KidsKept(ctx, b, es, seen)
  {
    AddedPassTwice(ctx, mid, b);
    assert seen + ProgramsOf(es) == seen + Programs(es[0]) + ProgramsOf(es[1..]);
  }

  lemma {:induction false} ChildKeepsDepths(e: Environment, ctx: Context, seen: seq<Environment>)
    requires Table(ctx) && CompileChild(e, ctx).Ok? && Sees(ctx, seen)
    ensures KidKept(ctx, CompileChild(e, ctx).value.context, e, seen)
    decreases e, 1
  {
    ExistingIs(ctx.environments, e, 0, ctx.length);
    var found := Existing(ctx.environments, e, 0, ctx.length);
    if found.Some? {
      FoundKept(ctx, found.value, e, seen);
    } else {
      var longer := ctx.(length := ctx.length + 1);
      assert CompileProgram(e, longer).Ok?;
      var r := CompileProgram(e, longer).value;
      LongerSees(ctx, longer, seen);
      LongerTable(ctx, ctx.length + 1);
      ChildrenKeepDepths(e.children, longer, seen);
      NewKept(e, ctx, longer, r, seen);
      assert CompileChild(e, ctx).value.context == Added(r.1, ctx.length + 1, e, r.0);
    }
  }

  lemma {:induction false} LongerSees(ctx: Context, longer: Context, seen: seq<Environment>)
    requires longer.environments == ctx.environments && Sees(ctx, seen)
    ensures Sees(longer, seen)
  {
    SameEntries(ctx, longer);
  }

  lemma {:induction false} SameEntries(ctx: Context, longer: Context)
    requires longer.environments == ctx.environments
    ensures forall x :: Represented(longer, x) <==> Represented(ctx, x)
  {
    forall x
      ensures Represented(longer, x) <==> Represented(ctx, x)
    {
      assert forall h :: Refers(longer, h, x) == Refers(ctx, h, x);
    }
  }

  /** A program that was found adds nothing to what was seen. */
  lemma {:induction false} FoundKept(ctx: Context, h: nat, e: Environment, seen: seq<Environment>)
    requires Table(ctx) && Refers(ctx, h, e) && Sees(ctx, seen)
    ensures KidKept(ctx, ctx, e, seen)
  {
    assert Represented(ctx, e);
    AllOld(ctx, h, e);
    ProgramsAreWithin(e);
    forall x
      ensures Represented(ctx, x) <==> Seen(seen + Programs(e), x)
    {
      SeenConcat(seen, Programs(e), x);
      if Seen(Programs(e), x) {
        var s :| s in Programs(e) && Same(s, x);
        OldSame(ctx, s, x);
      }
    }
  }

  lemma {:induction false} OldSame(ctx: Context, s: Environment, x: Environment)
    requires Represented(ctx, s) && Same(s, x)
    ensures Represented(ctx, x)
  {
    var h :| h in ctx.environments && Refers(ctx, h, s);
    SameTransitive(ctx.environments[h], s, x);
    assert Refers(ctx, h, x);
  }

  lemma {:induction false} NewKept(e: Environment, ctx: Context, longer: Context, r: (Compiled, Context),
                                   seen: seq<Environment>)
    requires longer == ctx.(length := ctx.length + 1) && Table(longer) && Table(ctx) && Sees(ctx, seen)
    requires NoneSame(ctx.environments, e, 0, ctx.length)
    requires CompileProgram(e, longer) == Ok(r) && KidsKept(longer, r.1, e.children, seen)
    ensures KidKept(ctx, Added(r.1, ctx.length + 1, e, r.0), e, seen)
  {
    NotSeen(ctx, e, seen);
    FreshIndex(e, longer, r);
    PassesDepthsIff(e, longer);
    FlagKept(e, ctx, longer, r.0.useDepths, seen);
    NewKeptFrom(e, ctx, r.1, ctx.length + 1, r.0, seen);
  }

  lemma {:induction false} NotSeen(ctx: Context, e: Environment, seen: seq<Environment>)
    requires Table(ctx) && Sees(ctx, seen) && NoneSame(ctx.environments, e, 0, ctx.length)
    ensures !Seen(seen, e)
  {
    assert !Represented(ctx, e);
  }

  lemma {:induction false} FreshIndex(e: Environment, longer: Context, r: (Compiled, Context))
    requires Table(longer) && CompileProgram(e, longer) == Ok(r)
    requires longer.length !in longer.environments
    ensures Keeps(longer, r.1) && longer.length !in r.1.code && r.1.code.Keys == r.1.environments.Keys
  {
    CompileProgramTable(e, longer);
  }

  lemma {:induction false} NewKeptFrom(e: Environment, ctx: Context, c: Context, index: nat, code: Compiled,
                                       seen: seq<Environment>)
    requires Keeps(ctx, c) && index !in c.code && c.code.Keys == c.environments.Keys && !Seen(seen, e)
    requires KidsKept(ctx, c, e.children, seen)
    requires code.useDepths == UsesDepths(e) <==> KeepsDepths(e, seen)
    ensures KidKept(ctx, Added(c, index, e, code), e, seen)
  {
    NewPasses(ctx, c, index, e, code);
    NewSees(c, index, e, code, seen);
  }

  lemma {:induction false} FlagKept(e: Environment, ctx: Context, longer: Context, useDepths: bool,
                                    seen: seq<Environment>)
    requires longer.environments == ctx.environments && Sees(ctx, seen)
    requires useDepths <==> Depths(e) != {} || exists x :: Nested(x, e) && Depths(x) != {} && !Represented(longer, x)
    ensures useDepths == UsesDepths(e) <==> KeepsDepths(e, seen)
  {
    SameEntries(ctx, longer);
    CollectedAreUsed(e);
  }

  lemma {:induction false} NewSees(c: Context, index: nat, e: Environment, code: Compiled, seen: seq<Environment>)
    requires index !in c.environments && Sees(c, seen + ProgramsOf(e.children))
    ensures Sees(Added(c, index, e, code), seen + Programs(e))
  {
    forall x
      ensures Represented(Added(c, index, e, code), x) <==> Seen(seen + Programs(e), x)
    {
      assert seen + Programs(e) == seen + ProgramsOf(e.children) + [e];
      SeenConcat(seen + ProgramsOf(e.children), [e], x);
      AddedRepresents(c, index, e, code, x);
    }
  }

  lemma {:induction false} AddedRepresents(c: Context, index: nat, e: Environment, code: Compiled, x: Environment)
    requires index !in c.environments
    ensures Represented(Added(c, index, e, code), x) <==> Represented(c, x) || Same(e, x)
    ensures Seen([e], x) <==> Same(e, x)
  {
    var b := Added(c, index, e, code);
    assert e in [e];
    if Same(e, x) {
      assert Refers(b, index, x);
    }
    if Represented(c, x) {
      var h :| h in c.environments && Refers(c, h, x);
      assert Refers(b, h, x);
    }
    if Represented(b, x) {
      var h :| h in b.environments && Refers(b, h, x);
      assert h != index ==> Refers(c, h, x);
    }
  }

  lemma {:induction false} NewPasses(ctx: Context, c: Context, index: nat, e: Environment, code: Compiled)
    requires index !in c.code && Keeps(ctx, c) && c.code.Keys == c.environments.Keys
    ensures AddedPass(ctx, Added(c, index, e, code)) <==> AddedPass(ctx, c) && code.useDepths == UsesDepths(e)
  {
    var b := Added(c, index, e, code);
    assert index in b.code && index in b.environments && index !in ctx.code;
    assert PassesAt(b, index) <==> code.useDepths == UsesDepths(e);
    forall h <- c.code
      ensures h in b.code && h in b.environments && (PassesAt(b, h) <==> PassesAt(c, h))
    {
    }
    assert forall h <- b.code :: h == index || h in c.code;
  }

  /** Collected depths are used, here and in what is nested. */
  lemma {:induction false} CollectedAreUsed(e: Environment)
    ensures Depths(e) != {} ==> UsesDepths(e)
    ensures forall x | Nested(x, e) && Depths(x) != {} :: UsesDepths(e)
    decreases e
  {
    DepthsAreUsed(e);
    forall x | Nested(x, e) && Depths(x) != {}
      ensures UsesDepths(e)
    {
      var i :| 0 <= i < |e.children| && (x == e.children[i] || Nested(x, e.children[i]));
      CollectedAreUsed(e.children[i]);
      ChildUses(e.children, i);
    }
  }

  lemma {:induction false} ChildUses(es: seq<Environment>, i: nat)
    requires i < |es| && UsesDepths(es[i])
    ensures AnyUsesDepths(es)
  {
    if i > 0 {
      ChildUses(es[1..], i - 1);
    }
  }

  /** Conversely, some program within one that uses depths collects them. */
  lemma {:induction false} UsedAreCollected(e: Environment)
    requires UsesDepths(e)
    ensures Depths(e) != {} || exists x :: Nested(x, e) && Depths(x) != {}
    decreases e
  {
    if OwnDepths(e.opcodes) == {} {
      var i := UsingChild(e.children);
      UsedAreCollected(e.children[i]);
      if Depths(e.children[i]) != {} {
        NestedChild(e.children[i], e);
      } else {
        var x :| Nested(x, e.children[i]) && Depths(x) != {};
        NestedChild(e.children[i], e);
        NestedDeeper(x, e.children[i], e);
      }
    }
  }

  lemma {:induction false} UsingChild(es: seq<Environment>) returns (i: nat)
    requires AnyUsesDepths(es)
    ensures i < |es| && UsesDepths(es[i])
  {
    if UsesDepths(es[0]) {
      i := 0;
    } else {
      i := UsingChild(es[1..]);
      i := i + 1;
    }
  }

  /**
   As long as nothing nested in a program is in the table when it is compiled, its
   function passes depths on exactly when it, or a program nested in it, uses them.
   */
  lemma {:induction false} UnsharedPassesDepths(e: Environment, ctx: Context)
    requires Table(ctx) && CompileProgram(e, ctx).Ok?
    requires forall x | Nested(x, e) :: !Represented(ctx, x)
    ensures CompileProgram(e, ctx).value.0.useDepths == UsesDepths(e)
  {
    PassesDepthsIff(e, ctx);
    CollectedAreUsed(e);
    if UsesDepths(e) {
      UsedAreCollected(e);
    }
  }

  /** Every function in the table passes depths exactly where its program uses them. */
  predicate AllPass(ctx: Context) {
    forall h <- ctx.code :: h in ctx.environments ==> PassesAt(ctx, h)
  }

  /** The main function always passes the depths that are used; the others do under the condition above. */
  lemma {:induction false} AllPassIff(root: Environment, code: Compiled, ctx: Context)
    requires CompiledTo(root, code, ctx)
    ensures code.useDepths == UsesDepths(root)
    ensures AllPass(ctx) <==> AllKeepDepths(root.children, [])
  {
    NothingYet();
    assert Sees(NO_PROGRAMS, []);
    UnsharedPassesDepths(root, NO_PROGRAMS);
    ChildrenKeepDepths(root.children, NO_PROGRAMS, []);
  }
}
