/** Access rules of src/acl.erl: first-match clauses, and the merge of host rules into global ones. */
module AccessRules {

  datatype AclName = Everyone | Nobody | Named(name: string)

  datatype Value = Allow | Deny | Term(term: string)

  datatype Clause = Clause(acl: AclName, value: Value)

  /** What decides for one JID: the specs of each named acl, and which conditions hold. */
  datatype World<!C> = World(specs: string -> seq<seq<C>>, check: C -> bool)

  /** match_step: the conditions of a spec, in the order of a map iterator */
  predicate MatchSpec<C>(check: C -> bool, spec: seq<C>) {
    if spec == [] then true else check(spec[0]) && MatchSpec(check, spec[1..])
  }

  predicate MatchAny<C>(check: C -> bool, specs: seq<seq<C>>) {
    if specs == [] then false else MatchSpec(check, specs[0]) || MatchAny(check, specs[1..])
  }

  /** match_acl */
  predicate MatchAcl<C>(w: World<C>, acl: AclName) {
    match acl
    case Everyone => true
    case Nobody => false
    case Named(name) => MatchAny(w.check, w.specs(name))
  }

  /** match_rule_clauses */
  function Decide<C>(w: World<C>, clauses: seq<Clause>): Value {
    if clauses == [] then Deny
    else if MatchAcl(w, clauses[0].acl) then clauses[0].value
    else Decide(w, clauses[1..])
  }

  const ALLOW_ALL: Clause := Clause(Everyone, Allow)

  predicate EndsInAllowAll(clauses: seq<Clause>) {
    clauses != [] && clauses[|clauses| - 1] == ALLOW_ALL
  }

  /** merge_access_rules */
  function Merge(global: seq<Clause>, hostLocal: seq<Clause>): seq<Clause> {
    if EndsInAllowAll(global) then global[..|global| - 1] + hostLocal + [global[|global| - 1]]
    else global + hostLocal
  }

  // ----- which users a spec and an acl match -----

  lemma {:induction false} SpecIsConjunction<C>(check: C -> bool, spec: seq<C>)
    ensures MatchSpec(check, spec) <==> forall i | 0 <= i < |spec| :: check(spec[i])
  {
    if spec != [] {
      SpecIsConjunction(check, spec[1..]);
      if MatchSpec(check, spec) {
        forall i | 0 <= i < |spec|
          ensures check(spec[i])
        {
          assert i > 0 ==> spec[i] == spec[1..][i - 1];
        }
      } else if check(spec[0]) {
        var i :| 0 <= i < |spec[1..]| && !check(spec[1..][i]);
        assert !check(spec[i + 1]);
      }
    }
  }

  /** So the order of iteration does not matter. */
  lemma {:induction false} SpecOrderIrrelevant<C>(check: C -> bool, a: seq<C>, b: seq<C>)
    requires multiset(a) == multiset(b)
    ensures MatchSpec(check, a) == MatchSpec(check, b)
  {
    SpecIsConjunction(check, a);
    SpecIsConjunction(check, b);
    assert forall i | 0 <= i < |a| :: a[i] in multiset(b);
    assert forall i | 0 <= i < |b| :: b[i] in multiset(a);
  }

  predicate SpecHolds<C>(check: C -> bool, spec: seq<C>) {
    forall i | 0 <= i < |spec| :: check(spec[i])
  }

  lemma {:induction false} AclIsUnion<C>(check: C -> bool, specs: seq<seq<C>>)
    ensures MatchAny(check, specs) <==> exists i | 0 <= i < |specs| :: SpecHolds(check, specs[i])
  {
    if specs != [] {
      SpecIsConjunction(check, specs[0]);
      AclIsUnion(check, specs[1..]);
      if MatchSpec(check, specs[0]) {
        assert SpecHolds(check, specs[0]);
      } else if MatchAny(check, specs[1..]) {
        var i :| 0 <= i < |specs[1..]| && SpecHolds(check, specs[1..][i]);
        assert SpecHolds(check, specs[i + 1]);
      } else {
        forall i | 0 <= i < |specs|
          ensures !SpecHolds(check, specs[i])
        {
          assert i > 0 ==> specs[i] == specs[1..][i - 1];
        }
      }
    }
  }

  /** Who an acl matches: all, nobody, or those whom one of its specs matches in all its conditions. */
  lemma {:induction false} AclMatches<C>(w: World<C>, acl: AclName)
    ensures MatchAcl(w, acl)
       <==> acl == Everyone || (acl.Named? && exists i | 0 <= i < |w.specs(acl.name)| ::
                                               SpecHolds(w.check, w.specs(acl.name)[i]))
  {
    if acl.Named? {
      AclIsUnion(w.check, w.specs(acl.name));
    }
  }

  // ----- decisions -----

  predicate Applies<C>(w: World<C>, clauses: seq<Clause>) {
    exists i | 0 <= i < |clauses| :: MatchAcl(w, clauses[i].acl)
  }

  lemma {:induction false} DecideFirst<C>(w: World<C>, clauses: seq<Clause>, i: nat)
    requires i < |clauses| && MatchAcl(w, clauses[i].acl)
    requires forall j | 0 <= j < i :: !MatchAcl(w, clauses[j].acl)
    ensures Decide(w, clauses) == clauses[i].value
    decreases clauses
  {
    if i > 0 {
      assert forall j | 0 <= j < i - 1 :: clauses[1..][j] == clauses[j + 1];
      DecideFirst(w, clauses[1..], i - 1);
    }
  }

  lemma {:induction false} AppliesTail<C>(w: World<C>, clauses: seq<Clause>)
    requires clauses != []
    ensures Applies(w, clauses) <==> MatchAcl(w, clauses[0].acl) || Applies(w, clauses[1..])
  {
    if Applies(w, clauses[1..]) {
      var i :| 0 <= i < |clauses[1..]| && MatchAcl(w, clauses[1..][i].acl);
      assert MatchAcl(w, clauses[i + 1].acl);
    }
    if Applies(w, clauses) && !MatchAcl(w, clauses[0].acl) {
      var i :| 0 <= i < |clauses| && MatchAcl(w, clauses[i].acl);
      assert MatchAcl(w, clauses[1..][i - 1].acl);
    }
  }

  /** Clauses decide before those behind them. */
  lemma {:induction false} DecideConcat<C>(w: World<C>, a: seq<Clause>, b: seq<Clause>)
    ensures Decide(w, a + b) == if Applies(w, a) then Decide(w, a) else Decide(w, b)
    ensures Applies(w, a + b) <==> Applies(w, a) || Applies(w, b)
    decreases a
  {
    if a == [] {
      assert a + b == b;
    } else {
      assert (a + b)[1..] == a[1..] + b;
      AppliesTail(w, a);
      AppliesTail(w, a + b);
      DecideConcat(w, a[1..], b);
    }
  }

  lemma {:induction false} DecideNothing<C>(w: World<C>, clauses: seq<Clause>)
    requires !Applies(w, clauses)
    ensures Decide(w, clauses) == Deny
    decreases clauses
  {
    if clauses != [] {
      AppliesTail(w, clauses);
      DecideNothing(w, clauses[1..]);
    }
  }

  /** Merged rules: the earlier global clauses, then the host's, then a global allow-all that comes last, else deny. */
  lemma {:induction false} MergedDecision<C>(w: World<C>, global: seq<Clause>, hostLocal: seq<Clause>)
    ensures var allows := global != [] && global[|global| - 1] == Clause(Everyone, Allow);
            var earlier := if allows then global[..|global| - 1] else global;
            Decide(w, Merge(global, hostLocal))
            == if Applies(w, earlier) then Decide(w, earlier)
               else if Applies(w, hostLocal) then Decide(w, hostLocal)
               else if allows then Allow
               else Deny
  {
    if EndsInAllowAll(global) {
      var earlier := global[..|global| - 1];
      DecideConcat(w, earlier, hostLocal);
      DecideConcat(w, earlier + hostLocal, [ALLOW_ALL]);
    } else {
      DecideConcat(w, global, hostLocal);
      if !Applies(w, hostLocal) {
        DecideNothing(w, hostLocal);
      }
    }
  }

  // ----- merging twice -----

  lemma {:induction false} Shifted(h: seq<Clause>, c: Clause)
    ensures h + [c] == [c] + h <==> forall i | 0 <= i < |h| :: h[i] == c
  {
    if forall i | 0 <= i < |h| :: h[i] == c {
      assert h + [c] == [c] + h;
    }
    if h + [c] == [c] + h {
      AllEqual(h, c, |h|);
    }
  }

  lemma {:induction false} AllEqual(h: seq<Clause>, c: Clause, n: nat)
    requires n <= |h| && h + [c] == [c] + h
    ensures forall i | 0 <= i < n :: h[i] == c
  {
    if n > 0 {
      AllEqual(h, c, n - 1);
      assert h[n - 1] == (h + [c])[n - 1] == ([c] + h)[n - 1];
    }
  }

  lemma {:induction false} CancelPrefix(a: seq<Clause>, b: seq<Clause>, c: seq<Clause>)
    ensures a + b == a + c <==> b == c
  {
    if a + b == a + c {
      assert b == (a + b)[|a|..] == (a + c)[|a|..] == c;
    }
  }

  lemma {:induction false} MergeAfterGlobal(global: seq<Clause>, first: seq<Clause>, second: seq<Clause>)
    requires EndsInAllowAll(global)
    ensures Merge(Merge(global, first), second) == Merge(global, first + second)
  {
    var front := global[..|global| - 1];
    var once := front + first + [ALLOW_ALL];
    assert once[..|once| - 1] == front + first;
    assert front + first + second + [ALLOW_ALL] == front + (first + second) + [ALLOW_ALL];
  }

  lemma {:induction false} MergePlain(global: seq<Clause>, first: seq<Clause>, second: seq<Clause>)
    requires !EndsInAllowAll(global) && !EndsInAllowAll(first)
    ensures Merge(Merge(global, first), second) == Merge(global, first + second)
  {
    var once := global + first;
    if first == [] {
      assert once == global;
    } else {
      assert once[|once| - 1] == first[|first| - 1];
    }
    assert once + second == global + (first + second);
  }

  lemma {:induction false} MergeAfterLocal(global: seq<Clause>, first: seq<Clause>, second: seq<Clause>)
    requires !EndsInAllowAll(global) && EndsInAllowAll(first)
    ensures var front := global + first[..|first| - 1];
            && Merge(Merge(global, first), second) == front + (second + [ALLOW_ALL])
            && Merge(global, first + second) == front + ([ALLOW_ALL] + second)
  {
    var front, once := global + first[..|first| - 1], global + first;
    assert once == front + [ALLOW_ALL];
    assert once[..|once| - 1] == front && once[|once| - 1] == ALLOW_ALL;
    assert front + second + [ALLOW_ALL] == front + (second + [ALLOW_ALL]);
    assert global + (first + second) == once + second;
    assert front + [ALLOW_ALL] + second == front + ([ALLOW_ALL] + second);
  }

  /**
   Merging two host lists one after the other is merging them together, except
   when the allow-all comes from the first host list: then it is moved behind
   the second.
   */
  lemma {:induction false} MergeTwice(global: seq<Clause>, first: seq<Clause>, second: seq<Clause>)
    ensures Merge(Merge(global, first), second) == Merge(global, first + second)
       <==> || EndsInAllowAll(global)
            || !EndsInAllowAll(first)
            || forall i | 0 <= i < |second| :: second[i] == ALLOW_ALL
  {
    if EndsInAllowAll(global) {
      MergeAfterGlobal(global, first, second);
    } else if !EndsInAllowAll(first) {
      MergePlain(global, first, second);
    } else {
      MergeAfterLocal(global, first, second);
      CancelPrefix(global + first[..|first| - 1], second + [ALLOW_ALL], [ALLOW_ALL] + second);
      Shifted(second, ALLOW_ALL);
    }
  }

  /** Whether the clauses before a moved allow-all decide, or those it is moved behind allow as well. */
  predicate SettledAnyway<C>(w: World<C>, front: seq<Clause>, second: seq<Clause>) {
    Applies(w, front) || !Applies(w, second) || Decide(w, second) == Allow
  }

  /**
   For a JID, the two ways to merge decide alike except when the allow-all comes
   from the first host list, nothing before it applies, and a clause of the
   second list that applies does not allow.
   */
  lemma {:induction false} MergeTwiceDecides<C>(w: World<C>, global: seq<Clause>, first: seq<Clause>,
                                                second: seq<Clause>)
    ensures Decide(w, Merge(Merge(global, first), second)) == Decide(w, Merge(global, first + second))
       <==> || EndsInAllowAll(global)
            || !EndsInAllowAll(first)
            || SettledAnyway(w, global + first[..|first| - 1], second)
  {
    MergeTwice(global, first, second);
    if !EndsInAllowAll(global) && EndsInAllowAll(first) {
      var front := global + first[..|first| - 1];
      MergeAfterLocal(global, first, second);
      DecideConcat(w, front, second + [ALLOW_ALL]);
      DecideConcat(w, front, [ALLOW_ALL] + second);
      DecideConcat(w, second, [ALLOW_ALL]);
    }
  }

  /** Two host lists for which every JID is allowed or denied depending on how they are merged. */
  lemma {:induction false} MergeTwiceDiffers<C>(w: World<C>)
    ensures var deny := [Clause(Everyone, Deny)];
            && Decide(w, Merge(Merge([], [ALLOW_ALL]), deny)) == Deny
            && Decide(w, Merge([], [ALLOW_ALL] + deny)) == Allow
  {
    var once := Merge([], [ALLOW_ALL]);
    assert once == [ALLOW_ALL];
    assert Merge(once, [Clause(Everyone, Deny)])[0] == Clause(Everyone, Deny);
  }
}
