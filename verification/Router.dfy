/**
 The routing chain of src/ejabberd_router.erl: each module may drop a packet in
 its filter, or deliver it, or pass it on to the next module, possibly changed.
 */
module Router {

  /** J, A and P are the addresses, the accumulator and the packet; R is the reason of an exception. */
  datatype State<J, A, P> = State(from: J, to: J, acc: A, packet: P)

  /** What a filter returns or raises; Unexpected is any other term. */
  datatype Filtered<J, A, P, R> = Drop | Kept(state: State<J, A, P>) | FilterRaised(reason: R) | FilterUnexpected

  datatype Routed<J, A, P, R> =
    Delivered(acc: A) | PassedOn(state: State<J, A, P>) | RouteRaised(reason: R) | RouteUnexpected

  datatype Verdict<M, R> = Dropped(m: M) | DoneBy(m: M) | Failed(m: M, reason: R) | OutOfModules

  /** The modules' behaviour, and mongoose_acc:append(router, result, _, _). */
  datatype Env<!M, !J, !A, !P, !R> = Env(
    filter: (M, State<J, A, P>) -> Filtered<J, A, P, R>,
    deliver: (M, State<J, A, P>) -> Routed<J, A, P, R>,
    append: (Verdict<M, R>, A) -> A)

  datatype Call<M, J, A, P> = FilterCall(m: M, state: State<J, A, P>) | RouteCall(m: M, state: State<J, A, P>)

  /** Crashed is the error that no clause matched, which nothing in the chain catches. */
  datatype End<A> = Crashed | Finished(acc: A)

  datatype Run<M, J, A, P> = Run(calls: seq<Call<M, J, A, P>>, end: End<A>)

  function Prepend<M, J, A, P>(calls: seq<Call<M, J, A, P>>, run: Run<M, J, A, P>): Run<M, J, A, P> {
    Run(calls + run.calls, run.end)
  }

  /** route/5, with the calls it makes */
  function Route<M, J(==), A, P, R>(env: Env<M, J, A, P, R>, s: State<J, A, P>, modules: seq<M>): Run<M, J, A, P>
    decreases modules
  {
    if modules == [] then Run([], Finished(env.append(OutOfModules, s.acc)))
    else
      var m := modules[0];
      var filterCall := FilterCall(m, s);
      match env.filter(m, s)
      case Drop => Run([filterCall], Finished(env.append(Dropped(m), s.acc)))
      case FilterRaised(reason) => Run([filterCall], Finished(env.append(Failed(m, reason), s.acc)))
      case FilterUnexpected => Run([filterCall], Crashed)
      case Kept(k) =>
        if k.from != s.from || k.to != s.to then Run([filterCall], Crashed)
        else
          var routeCall := RouteCall(m, k);
          match env.deliver(m, k)
          case Delivered(acc) => Run([filterCall, routeCall], Finished(env.append(DoneBy(m), acc)))
          case RouteRaised(reason) => Run([filterCall, routeCall], Finished(env.append(Failed(m, reason), k.acc)))
          case RouteUnexpected => Run([filterCall, routeCall], Crashed)
          case PassedOn(next) => Prepend([filterCall, routeCall], Route(env, next, modules[1..]))
  }

  // ----- one module on its own -----

  predicate Passes<M, J(==), A, P, R>(env: Env<M, J, A, P, R>, m: M, s: State<J, A, P>) {
    && env.filter(m, s).Kept?
    && env.filter(m, s).state.from == s.from && env.filter(m, s).state.to == s.to
    && env.deliver(m, env.filter(m, s).state).PassedOn?
  }

  /** The state a module passes on. */
  function Next<M, J(==), A, P, R>(env: Env<M, J, A, P, R>, m: M, s: State<J, A, P>): State<J, A, P>
    requires Passes(env, m, s)
  {
    env.deliver(m, env.filter(m, s).state).state
  }

  /** The states before the first, the second, ... module, as far as every module passes the packet on. */
  ghost predicate Chain<M, J, A, P, R>(env: Env<M, J, A, P, R>, modules: seq<M>, states: seq<State<J, A, P>>) {
    && 0 < |states| <= |modules| + 1
    && forall i | 0 <= i < |states| - 1 :: Link(env, modules[i], states[i], states[i + 1])
  }

  ghost predicate Link<M, J, A, P, R>(env: Env<M, J, A, P, R>, m: M, s: State<J, A, P>, next: State<J, A, P>) {
    Passes(env, m, s) && next == Next(env, m, s)
  }

  /** The two calls of every module that passed the packet on. */
  ghost function PassingCalls<M, J, A, P, R>(env: Env<M, J, A, P, R>, modules: seq<M>, states: seq<State<J, A, P>>)
    : seq<Call<M, J, A, P>>
    requires Chain(env, modules, states)
  {
    if |states| == 1 then []
    else
      assert Link(env, modules[0], states[0], states[1]);
      TailChain(env, modules, states);
      [FilterCall(modules[0], states[0]), RouteCall(modules[0], env.filter(modules[0], states[0]).state)]
      + PassingCalls(env, modules[1..], states[1..])
  }

  lemma {:induction false} TailChain<M, J, A, P, R>(env: Env<M, J, A, P, R>, modules: seq<M>,
                                                    states: seq<State<J, A, P>>)
    requires Chain(env, modules, states) && |states| > 1
    ensures Chain(env, modules[1..], states[1..])
  {
    forall i | 0 <= i < |states[1..]| - 1
      ensures Link(env, modules[1..][i], states[1..][i], states[1..][i + 1])
    {
      assert Link(env, modules[i + 1], states[i + 1], states[i + 1 + 1]);
    }
  }

  /** How a module that does not pass the packet on ends the run. */
  function LastCalls<M, J(==), A, P, R>(env: Env<M, J, A, P, R>, m: M, s: State<J, A, P>): seq<Call<M, J, A, P>> {
    var f := env.filter(m, s);
    if f.Kept? && f.state.from == s.from && f.state.to == s.to then [FilterCall(m, s), RouteCall(m, f.state)]
    else [FilterCall(m, s)]
  }

  function Ending<M, J(==), A, P, R>(env: Env<M, J, A, P, R>, m: M, s: State<J, A, P>): End<A>
    requires !Passes(env, m, s)
  {
    var f := env.filter(m, s);
    if f.Drop? then Finished(env.append(Dropped(m), s.acc))
    else if f.FilterRaised? then Finished(env.append(Failed(m, f.reason), s.acc))
    else if f.FilterUnexpected? || f.state.from != s.from || f.state.to != s.to then Crashed
    else
      var r := env.deliver(m, f.state);
      if r.Delivered? then Finished(env.append(DoneBy(m), r.acc))
      else if r.RouteRaised? then Finished(env.append(Failed(m, r.reason), f.state.acc))
      else Crashed
  }

  // ----- every run -----

  /** The longest chain from a state. */
  function States<M, J(==), A, P, R>(env: Env<M, J, A, P, R>, s: State<J, A, P>, modules: seq<M>): seq<State<J, A, P>>
    decreases modules
  {
    if modules == [] || !Passes(env, modules[0], s) then [s]
    else [s] + States(env, Next(env, modules[0], s), modules[1..])
  }

  lemma {:induction false} StatesChain<M, J, A, P, R>(env: Env<M, J, A, P, R>, s: State<J, A, P>, modules: seq<M>)
    ensures var states := States(env, s, modules);
            && Chain(env, modules, states) && states[0] == s && |states| > 0
            && (|states| <= |modules| ==> !Passes(env, modules[|states| - 1], states[|states| - 1]))
    decreases modules
  {
    if modules != [] && Passes(env, modules[0], s) {
      var next := Next(env, modules[0], s);
      StatesChain(env, next, modules[1..]);
      var rest := States(env, next, modules[1..]);
      var states := [s] + rest;
      forall i | 0 <= i < |states| - 1
        ensures Link(env, modules[i], states[i], states[i + 1])
      {
        if i > 0 {
          assert Link(env, modules[1..][i - 1], rest[i - 1], rest[i - 1 + 1]);
        }
      }
    }
  }

  /** The two calls of a module that passes the packet on. */
  function BothCalls<M, J(==), A, P, R>(env: Env<M, J, A, P, R>, m: M, s: State<J, A, P>): seq<Call<M, J, A, P>>
    requires Passes(env, m, s)
  {
    [FilterCall(m, s), RouteCall(m, env.filter(m, s).state)]
  }

  lemma {:induction false} PassingStep<M, J, A, P, R>(env: Env<M, J, A, P, R>, s: State<J, A, P>, modules: seq<M>)
    requires modules != [] && Passes(env, modules[0], s)
    ensures var next := Next(env, modules[0], s);
            && Route(env, s, modules) == Prepend(BothCalls(env, modules[0], s), Route(env, next, modules[1..]))
            && States(env, s, modules)[1..] == States(env, next, modules[1..])
            && Chain(env, modules, States(env, s, modules)) && Chain(env, modules[1..], States(env, next, modules[1..]))
            && PassingCalls(env, modules, States(env, s, modules))
               == BothCalls(env, modules[0], s) + PassingCalls(env, modules[1..], States(env, next, modules[1..]))
  {
    StatesChain(env, s, modules);
    var next := Next(env, modules[0], s);
    StatesChain(env, next, modules[1..]);
    assert ([s] + States(env, next, modules[1..]))[1..] == States(env, next, modules[1..]);
  }

  /** The run that a chain of states makes. */
  ghost function RunOf<M, J, A, P, R>(env: Env<M, J, A, P, R>, modules: seq<M>, states: seq<State<J, A, P>>)
    : Run<M, J, A, P>
    requires Chain(env, modules, states)
    requires |states| <= |modules| ==> !Passes(env, modules[|states| - 1], states[|states| - 1])
  {
    var n := |states| - 1;
    if n == |modules| then Run(PassingCalls(env, modules, states), Finished(env.append(OutOfModules, states[n].acc)))
    else Run(PassingCalls(env, modules, states) + LastCalls(env, modules[n], states[n]),
             Ending(env, modules[n], states[n]))
  }

  /**
   Every run goes through a chain of modules that pass the packet on, each after
   its own filter, and then either out of modules or to one that ends the run.
   */
  lemma {:induction false} RouteIsChain<M, J, A, P, R>(env: Env<M, J, A, P, R>, s: State<J, A, P>, modules: seq<M>)
    ensures var states := States(env, s, modules);
            && states[0] == s && Chain(env, modules, states)
            && (|states| <= |modules| ==> !Passes(env, modules[|states| - 1], states[|states| - 1]))
            && Route(env, s, modules) == RunOf(env, modules, states)
    decreases modules
  {
    StatesChain(env, s, modules);
    if modules != [] && Passes(env, modules[0], s) {
      var next := Next(env, modules[0], s);
      RouteIsChain(env, next, modules[1..]);
      PassingStep(env, s, modules);
      RunStep(env, modules, States(env, s, modules), BothCalls(env, modules[0], s));
    } else if modules != [] {
      assert [] + LastCalls(env, modules[0], s) == LastCalls(env, modules[0], s);
    }
  }

  lemma {:induction false} RunStep<M, J, A, P, R>(env: Env<M, J, A, P, R>, modules: seq<M>, states: seq<State<J, A, P>>,
                                                  calls: seq<Call<M, J, A, P>>)
    requires modules != [] && |states| > 1 && Chain(env, modules, states) && Chain(env, modules[1..], states[1..])
    requires |states| <= |modules| ==> !Passes(env, modules[|states| - 1], states[|states| - 1])
    requires PassingCalls(env, modules, states) == calls + PassingCalls(env, modules[1..], states[1..])
    ensures RunOf(env, modules, states) == Prepend(calls, RunOf(env, modules[1..], states[1..]))
  {
    var n := |states| - 1;
    if n < |modules| {
      var passing, last := PassingCalls(env, modules[1..], states[1..]), LastCalls(env, modules[n], states[n]);
      assert calls + (passing + last) == calls + passing + last;
    }
  }

  /** A term that route/5 has no clause for: a filter's with other addresses, for one. */
  predicate Misbehaves<M, J(==), A, P, R>(env: Env<M, J, A, P, R>, m: M, s: State<J, A, P>) {
    var f := env.filter(m, s);
    || f.FilterUnexpected?
    || (f.Kept? && (f.state.from != s.from || f.state.to != s.to || env.deliver(m, f.state).RouteUnexpected?))
  }

  /** A filter that only redirects its packet makes the run fail. */
  lemma {:induction false} RedirectCrashes<M, J, A, P, R>(env: Env<M, J, A, P, R>, m: M, s: State<J, A, P>, to: J)
    requires to != s.to && env.filter(m, s) == Kept(s.(to := to))
    ensures Route(env, s, [m]) == Run([FilterCall(m, s)], Crashed)
  {
  }

  /** A run fails exactly when the module it stops at misbehaves. */
  lemma {:induction false} CrashIff<M, J, A, P, R>(env: Env<M, J, A, P, R>, s: State<J, A, P>, modules: seq<M>)
    ensures var states := States(env, s, modules);
            var n := |states| - 1;
            Route(env, s, modules).end.Crashed? <==> n < |modules| && Misbehaves(env, modules[n], states[n])
  {
    RouteIsChain(env, s, modules);
  }
}
