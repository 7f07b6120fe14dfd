/**
Name lookup while scopes die. A scope may hold its parent weakly, so a live closure can outlive the scope it was made
in; a lookup that climbs from it then reads a scope that has been freed.
*/
module Lifetimes {
  import opened Wrappers
  import opened HandleGraph
  import opened HandleSteps
  import Store

  /** Parents are older than their children. Every operation of `RefCount` keeps it. */
  predicate Older(scopes: map<Ref, Scope>) {
    forall r :: r in scopes && scopes[r].parent.Some? ==> scopes[r].parent.value < r
  }

  predicate Bound(scopes: map<Ref, Scope>, r: Ref, name: string)
    requires r in scopes
  {
    NameIndex(scopes[r].vars, name) < |scopes[r].vars|
  }

  datatype Walked = Found(at: Ref) | Missing | Dangling

  /** `snuk_scope_lookup_recursive` on scopes that may be gone: reading a dead one is `Dangling`. */
  function Walk(scopes: map<Ref, Scope>, r: Ref, name: string): Walked
    requires Older(scopes)
    decreases r
  {
    if r !in scopes then Dangling
    else if Bound(scopes, r, name) then Found(r)
    else match scopes[r].parent
      case None => Missing
      case Some(p) => Walk(scopes, p, name)
  }

  /** Every scope on the parent chain of `r` is alive. */
  predicate ChainAlive(scopes: map<Ref, Scope>, r: Ref)
    requires Older(scopes)
    decreases r
  {
    r in scopes && (scopes[r].parent.Some? ==> ChainAlive(scopes, scopes[r].parent.value))
  }

  /** No live scope has a dead parent. */
  predicate ParentsAlive(scopes: map<Ref, Scope>) {
    forall r :: r in scopes && scopes[r].parent.Some? ==> scopes[r].parent.value in scopes
  }

  lemma ParentsAndChains(scopes: map<Ref, Scope>)
    requires Older(scopes)
    ensures ParentsAlive(scopes) <==> forall r :: r in scopes ==> ChainAlive(scopes, r)
  {
    if ParentsAlive(scopes) {
      forall r | r in scopes ensures ChainAlive(scopes, r) {
        LiveChain(scopes, r);
      }
    } else {
      var r :| r in scopes && scopes[r].parent.Some? && scopes[r].parent.value !in scopes;
      assert !ChainAlive(scopes, r);
    }
  }

  lemma {:induction false} LiveChain(scopes: map<Ref, Scope>, r: Ref)
    requires Older(scopes) && ParentsAlive(scopes) && r in scopes
    ensures ChainAlive(scopes, r)
    decreases r
  {
    if scopes[r].parent.Some? {
      LiveChain(scopes, scopes[r].parent.value);
    }
  }

  // ---------------------------------------------------------------------------------------------------
  // When a lookup dangles

  /** `p` climbs from its first scope to a dead one, past live scopes without the name. */
  predicate LeadsToDead(scopes: map<Ref, Scope>, p: seq<Ref>, name: string) {
    && p != [] && p[|p| - 1] !in scopes
    && forall i :: 0 <= i < |p| - 1 ==>
         p[i] in scopes && !Bound(scopes, p[i], name) && scopes[p[i]].parent == Some(p[i + 1])
  }

  lemma {:induction false} DanglingHasCause(scopes: map<Ref, Scope>, r: Ref, name: string) returns (p: seq<Ref>)
    requires Older(scopes) && Walk(scopes, r, name) == Dangling
    ensures LeadsToDead(scopes, p, name) && p[0] == r
    decreases r
  {
    if r !in scopes {
      p := [r];
    } else {
      var q := DanglingHasCause(scopes, scopes[r].parent.value, name);
      p := [r] + q;
    }
  }

  lemma {:induction false} DeadIsReached(scopes: map<Ref, Scope>, p: seq<Ref>, name: string)
    requires Older(scopes) && LeadsToDead(scopes, p, name)
    ensures Walk(scopes, p[0], name) == Dangling
    decreases |p|
  {
    if |p| > 1 {
      var q := p[1..];
      forall i | 0 <= i < |q| - 1
        ensures q[i] in scopes && !Bound(scopes, q[i], name) && scopes[q[i]].parent == Some(q[i + 1])
      {
        assert q[i] == p[i + 1] && q[i + 1] == p[i + 2];
      }
      DeadIsReached(scopes, q, name);
      assert p[0] in scopes && scopes[p[0]].parent == Some(p[1]);
    }
  }

  /** A lookup dangles if and only if the chain comes to a dead scope before it comes to the name. */
  lemma DanglingExactly(scopes: map<Ref, Scope>, r: Ref, name: string)
    requires Older(scopes)
    ensures Walk(scopes, r, name) == Dangling <==> exists p :: LeadsToDead(scopes, p, name) && p[0] == r
  {
    if Walk(scopes, r, name) == Dangling {
      var p := DanglingHasCause(scopes, r, name);
    }
    if p :| LeadsToDead(scopes, p, name) && p[0] == r {
      DeadIsReached(scopes, p, name);
    }
  }

  lemma {:induction false} LiveChainIsSafe(scopes: map<Ref, Scope>, r: Ref, name: string)
    requires Older(scopes) && ChainAlive(scopes, r)
    ensures Walk(scopes, r, name) != Dangling
    decreases r
  {
    if !Bound(scopes, r, name) && scopes[r].parent.Some? {
      LiveChainIsSafe(scopes, scopes[r].parent.value, name);
    }
  }

  lemma {:induction false} DeadChainIsUnsafe(scopes: map<Ref, Scope>, r: Ref, name: string)
    requires Older(scopes) && !ChainAlive(scopes, r)
    requires forall k :: k in scopes ==> !Bound(scopes, k, name)
    ensures Walk(scopes, r, name) == Dangling
    decreases r
  {
    if r in scopes {
      DeadChainIsUnsafe(scopes, scopes[r].parent.value, name);
    }
  }

  /** Some name is bound nowhere. */
  lemma {:induction false} UnusedName(scopes: map<Ref, Scope>) returns (name: string)
    ensures forall k, i :: k in scopes && 0 <= i < |scopes[k].vars| ==> |scopes[k].vars[i].name| < |name|
    decreases |scopes|
  {
    if scopes == map[] {
      name := "x";
    } else {
      var r :| r in scopes;
      var rest := scopes - {r};
      assert |rest| < |scopes| by { FewerKeys(scopes, r); }
      var a := UnusedName(rest);
      var b := LongerName(scopes[r].vars, a);
      name := b;
      forall k, i | k in scopes && 0 <= i < |scopes[k].vars| ensures |scopes[k].vars[i].name| < |name| {
        if k != r {
          assert k in rest && rest[k] == scopes[k];
        }
      }
    }
  }

  lemma FewerKeys(scopes: map<Ref, Scope>, r: Ref)
    requires r in scopes
    ensures |scopes - {r}| < |scopes|
  {
    var rest := scopes - {r};
    assert rest.Keys == scopes.Keys - {r};
    assert |rest| == |rest.Keys| && |scopes| == |scopes.Keys|;
  }

  lemma {:induction false} LongerName(vars: seq<Env>, start: string) returns (name: string)
    ensures |start| <= |name| && forall i :: 0 <= i < |vars| ==> |vars[i].name| < |name|
  {
    if vars == [] {
      name := start;
    } else {
      var rest := LongerName(vars[1..], start);
      name := rest + vars[0].name + "x";
      forall i | 0 <= i < |vars| ensures |vars[i].name| < |name| {
        assert i > 0 ==> vars[i] == vars[1..][i - 1];
      }
    }
  }

  /** The chain of `r` is alive exactly when no lookup from `r` can dangle, whatever the name. */
  lemma AliveMeansSafe(scopes: map<Ref, Scope>, r: Ref)
    requires Older(scopes)
    ensures ChainAlive(scopes, r) <==> forall name :: Walk(scopes, r, name) != Dangling
  {
    if ChainAlive(scopes, r) {
      forall name ensures Walk(scopes, r, name) != Dangling {
        LiveChainIsSafe(scopes, r, name);
      }
    } else {
      var name := UnusedName(scopes);
      forall k | k in scopes ensures !Bound(scopes, k, name) {
        assert forall i :: 0 <= i < |scopes[k].vars| ==> scopes[k].vars[i].name != name;
      }
      DeadChainIsUnsafe(scopes, r, name);
    }
  }

  // ---------------------------------------------------------------------------------------------------
  // Which steps keep parents alive

  lemma OwnedSurvives(scopes: map<Ref, Scope>, base: multiset<Handle>, a: Ref, b: Ref)
    requires a in Survivors(scopes, base) && Owns(scopes, a, b) && b in scopes
    ensures b in Survivors(scopes, base)
  {
    hide Survivors, ScopeHandles;
    SurvivorsSupported(scopes, base);
    var all := Survivors(scopes, base);
    var more := all + {b};
    forall k | k in more ensures HasOwner(scopes, more, base, k) {
      if k in all {
        assert HasOwner(scopes, all, base, k);
      } else {
        assert a in more && Owns(scopes, a, k);
      }
    }
    SurvivorsLargest(scopes, more, base);
  }

  lemma StrongParentOwned(scopes: map<Ref, Scope>, r: Ref)
    requires r in scopes && scopes[r].parent.Some? && !scopes[r].weakRef
    ensures Owns(scopes, r, scopes[r].parent.value)
  {
    assert Strong(scopes[r].parent.value) in Optional(scopes[r].parent, false);
  }

  /** A release keeps all parents alive exactly when no surviving scope has a weak parent that dies. */
  lemma ReleaseKeepsParents(scopes: map<Ref, Scope>, base: multiset<Handle>)
    requires ParentsAlive(scopes)
    ensures ParentsAlive(Pruned(scopes, base)) <==>
            forall r :: r in Survivors(scopes, base) && scopes[r].parent.Some? && scopes[r].weakRef ==>
              scopes[r].parent.value in Survivors(scopes, base)
  {
    hide Survivors, ScopeHandles;
    SurvivorsSupported(scopes, base);
    forall r | r in Survivors(scopes, base) && scopes[r].parent.Some? && !scopes[r].weakRef
      ensures scopes[r].parent.value in Survivors(scopes, base)
    {
      StrongParentOwned(scopes, r);
      OwnedSurvives(scopes, base, r, scopes[r].parent.value);
    }
    assert forall r :: r in Pruned(scopes, base) ==> Pruned(scopes, base)[r] == scopes[r];
  }

  /** In particular a weakly held parent that is held from outside or owned by a survivor stays. */
  lemma WeakParentStays(scopes: map<Ref, Scope>, base: multiset<Handle>, p: Ref)
    requires p in scopes
    ensures p in Survivors(scopes, base) <==> HasOwner(scopes, Survivors(scopes, base), base, p)
  {
    hide Survivors, ScopeHandles;
    SurvivorsSupported(scopes, base);
    if HasOwner(scopes, Survivors(scopes, base), base, p) {
      if Strong(p) in base {
        HeldSurvives(scopes, base, p);
      } else {
        var j :| j in Survivors(scopes, base) && Owns(scopes, j, p);
        OwnedSurvives(scopes, base, j, p);
      }
    }
  }

  lemma OlderPruned(scopes: map<Ref, Scope>, base: multiset<Handle>)
    requires Older(scopes)
    ensures Older(Pruned(scopes, base))
  {
    hide Survivors;
    SurvivorsSupported(scopes, base);
  }

  lemma OlderWith(scopes: map<Ref, Scope>, r: Ref, s: Scope)
    requires Older(scopes) && (s.parent.Some? ==> s.parent.value < r)
    ensures Older(scopes[r := s])
  {
  }

  lemma OlderDowngraded(scopes: map<Ref, Scope>, r: Ref, base: multiset<Handle>)
    requires Older(scopes) && r in scopes
    ensures var mid := Pruned(scopes[r := scopes[r].(parent := None)], base);
            r in mid ==> Older(mid[r := mid[r].(parent := scopes[r].parent, weakRef := true)])
  {
    var mid := Pruned(scopes[r := scopes[r].(parent := None)], base);
    OlderWith(scopes, r, scopes[r].(parent := None));
    OlderPruned(scopes[r := scopes[r].(parent := None)], base);
    if r in mid {
      OlderWith(mid, r, mid[r].(parent := scopes[r].parent, weakRef := true));
    }
  }

  lemma FreshScope(scopes: map<Ref, Scope>, r: Ref, parent: Option<Ref>, weak: bool)
    requires r !in scopes
    ensures var made := scopes[r := Scope([], parent, weak)];
            && (Older(scopes) && (parent.Some? ==> parent.value < r) ==> Older(made))
            && (ParentsAlive(scopes) && (parent.Some? ==> parent.value in scopes) ==> ParentsAlive(made))
  {
  }

  /** Changing the bindings of a scope changes no parent. */
  lemma ContentsChange(scopes: map<Ref, Scope>, r: Ref, s: Scope)
    requires r in scopes && s.parent == scopes[r].parent
    ensures Older(scopes) ==> Older(scopes[r := s])
    ensures ParentsAlive(scopes) ==> ParentsAlive(scopes[r := s])
  {
  }

  lemma OlderOrphan(scopes: map<Ref, Scope>, r: Ref)
    requires r in scopes
    ensures Older(scopes) ==> Older(scopes[r := scopes[r].(parent := None)])
  {
  }

  lemma HeldIsOld(s: State, h: Handle)
    requires Inv(s) && h in s.held
    ensures h.ref < s.next
  {
    Counted(s, h);
  }

  // ---------------------------------------------------------------------------------------------------
  // Closures that outlive the scope they were made in

  /** A scope that is held from outside supports what it holds, as if that were held from outside too. */
  lemma HeldScopeSupports(scopes: map<Ref, Scope>, r: Ref, s: Scope, base: multiset<Handle>)
    requires r !in scopes && Strong(r) in base
    ensures Survivors(scopes[r := s], base) == Survivors(scopes, base + ScopeHandles(s)) + {r}
  {
    hide Survivors, ScopeHandles;
    var more, wide := scopes[r := s], base + ScopeHandles(s);
    var few, all := Survivors(scopes, wide), Survivors(more, base);
    SurvivorsSupported(scopes, wide);
    SurvivorsSupported(more, base);
    forall k | k in few + {r} ensures HasOwner(more, few + {r}, base, k) {
      if k in few {
        assert HasOwner(scopes, few, wide, k);
        if Strong(k) in ScopeHandles(s) {
          assert Owns(more, r, k);
        } else if Strong(k) !in base {
          var j :| j in few && Owns(scopes, j, k);
          assert Owns(more, j, k);
        }
      }
    }
    SurvivorsLargest(more, few + {r}, base);
    forall k | k in all - {r} ensures HasOwner(scopes, all - {r}, wide, k) {
      assert HasOwner(more, all, base, k);
      if Strong(k) !in wide {
        assert Strong(k) !in base && Strong(k) !in ScopeHandles(s);
        var j :| j in all && Owns(more, j, k);
        assert j in all - {r} && Owns(scopes, j, k);
      }
    }
    SurvivorsLargest(scopes, all - {r}, wide);
    HeldSurvives(more, base, r);
  }

  /**
  The closure of an argument or initializer is held on to while everything else that held its scope is released.
  Its parent survives exactly when it was not downgraded, or is kept by something else: a default of the closure, or
  what `base` supports.
  */
  lemma ParentOfKeptClosure(scopes: map<Ref, Scope>, current: Ref, closure: Ref, vars: seq<Env>, weakRef: bool,
                            base: multiset<Handle>)
    requires current in scopes && closure !in scopes && Strong(closure) in base
    ensures current in Survivors(WithClosure(scopes, current, closure, vars, weakRef, ""), base) <==>
            !weakRef || current in Survivors(scopes, base + EnvHandles(vars))
  {
    hide Survivors;
    var s := Scope(vars, Some(current), weakRef);
    HeldScopeSupports(scopes, closure, s, base);
    if weakRef {
      SameStrong(scopes, base + ScopeHandles(s), base + EnvHandles(vars));
    } else {
      HeldSurvives(scopes, base + ScopeHandles(s), current);
    }
  }

  lemma SameStrong(scopes: map<Ref, Scope>, a: multiset<Handle>, b: multiset<Handle>)
    requires forall r :: Strong(r) in a <==> Strong(r) in b
    ensures Survivors(scopes, a) == Survivors(scopes, b)
  {
    hide Survivors;
    WeakSupportsNothing(scopes, a, b);
    assert Pruned(scopes, a).Keys == Survivors(scopes, a);
    assert Pruned(scopes, b).Keys == Survivors(scopes, b);
  }

  /**
  Hence, after the release, a name that the closure does not bind itself means to it what it means to its parent
  while that is alive; every such name dangles exactly when the parent was downgraded and nothing else keeps it.
  */
  lemma KeptClosureLookup(scopes: map<Ref, Scope>, current: Ref, closure: Ref, vars: seq<Env>, weakRef: bool,
                          base: multiset<Handle>, name: string)
    requires Older(scopes) && current in scopes && closure !in scopes && current < closure && Strong(closure) in base
    requires NameIndex(vars, name) == |vars|
    ensures var left := Pruned(WithClosure(scopes, current, closure, vars, weakRef, ""), base);
            && Older(left) && closure in left
            && Walk(left, closure, name) ==
               if !weakRef || current in Survivors(scopes, base + EnvHandles(vars)) then Walk(left, current, name)
               else Dangling
  {
    hide Survivors, ScopeHandles, EnvHandles;
    var made := WithClosure(scopes, current, closure, vars, weakRef, "");
    ParentOfKeptClosure(scopes, current, closure, vars, weakRef, base);
    HeldSurvives(made, base, closure);
    SurvivorsSupported(made, base);
  }

  /** A global scope that binds `y`, and a parameter scope below it that nobody holds any more. */
  lemma OnlyGlobalIsKept(global: Ref, params: Ref, closure: Ref)
    requires global < params < closure
    ensures var only := map[global := Scope([Env("y", Plain)], None, false)];
            var before := only[params := Scope([], Some(global), false)];
            var base := multiset{Strong(global), Strong(closure)};
            && params !in Survivors(before, base)
            && global in Survivors(WithClosure(before, params, closure, [], true, ""), base)
  {
    var g := Env("y", Plain);
    var before := map[global := Scope([g], None, false)][params := Scope([], Some(global), false)];
    var base := multiset{Strong(global), Strong(closure)};
    assert EnvHandles([g]) == multiset{} by {
      assert [g][1..] == [];
      PlainHandles();
    }
    assert ScopeHandles(before[global]) == multiset{};
    assert ScopeHandles(before[params]) == multiset{Strong(global)};
    var all := Survivors(before, base);
    SurvivorsSupported(before, base);
    assert params in all ==> HasOwner(before, all, base, params);
    HeldSurvives(WithClosure(before, params, closure, [], true, ""), base, global);
  }

  lemma ClosureKeepsScope(scopes: map<Ref, Scope>, r: Ref, current: Ref, closure: Ref)
    requires r in scopes && r != current && r != closure
    ensures WithClosure(scopes[current := Scope([], Some(r), false)], current, closure, [], true, "")[r] == scopes[r]
  {
  }

  // ---------------------------------------------------------------------------------------------------
  // Against the store that never frees

  /** The live scopes, as the interpreter's store has them. */
  predicate Mirrors(h: Store.Heap, scopes: map<Ref, Scope>) {
    forall r :: r in scopes ==>
      && r < |h.scopes| && scopes[r].parent == h.scopes[r].parent && |scopes[r].vars| == |h.scopes[r].vars|
      && forall j :: 0 <= j < |scopes[r].vars| ==> scopes[r].vars[j].name == h.scopes[r].vars[j].name
  }

  lemma {:induction false} SameIndex(vars: seq<Env>, envs: seq<Store.Env>, name: string)
    requires |vars| == |envs| && forall j :: 0 <= j < |vars| ==> vars[j].name == envs[j].name
    ensures NameIndex(vars, name) == Store.Find(envs, name)
  {
    if vars != [] && vars[0].name != name {
      SameIndex(vars[1..], envs[1..], name);
    }
  }

  /** A lookup that does not dangle finds what it finds in the store that never frees. */
  lemma {:induction false} WalkIsFindUp(h: Store.Heap, scopes: map<Ref, Scope>, r: Ref, name: string)
    requires Older(scopes) && Mirrors(h, scopes) && Walk(scopes, r, name) != Dangling
    ensures Store.FindUp(h, r, name) == if Walk(scopes, r, name).Found? then Some(Walk(scopes, r, name).at) else None
    decreases r
  {
    SameIndex(scopes[r].vars, h.scopes[r].vars, name);
    if !Bound(scopes, r, name) && scopes[r].parent.Some? {
      WalkIsFindUp(h, scopes, scopes[r].parent.value, name);
    }
  }

  /** It dangles exactly when one of the scopes that the lookup reads there is dead. */
  lemma {:induction false} DanglingIsDeadRead(h: Store.Heap, scopes: map<Ref, Scope>, r: Ref, name: string)
    requires Older(scopes) && Mirrors(h, scopes)
    ensures Walk(scopes, r, name) == Dangling <==> exists q :: q in Store.Visited(h, r, name) && q !in scopes
    decreases r
  {
    if r in scopes {
      SameIndex(scopes[r].vars, h.scopes[r].vars, name);
      if !Bound(scopes, r, name) && scopes[r].parent.Some? {
        var p := scopes[r].parent.value;
        DanglingIsDeadRead(h, scopes, p, name);
        assert Store.Visited(h, r, name) == [r] + Store.Visited(h, p, name);
      }
    }
  }

  /** The flags that say which scopes hold their parent weakly, as the interpreter has them. */
  predicate MirrorsFlags(weak: set<Ref>, scopes: map<Ref, Scope>) {
    forall r :: r in scopes && scopes[r].parent.Some? ==> (r in weak <==> scopes[r].weakRef)
  }

  /** What a scope holds strongly is alive. */
  predicate StrongParentsAlive(scopes: map<Ref, Scope>) {
    forall r :: r in scopes && scopes[r].parent.Some? && !scopes[r].weakRef ==> scopes[r].parent.value in scopes
  }

  lemma StrongParentsLive(s: State)
    requires Inv(s) && s.dying == {}
    ensures StrongParentsAlive(s.scopes)
  {
    hide Inv;
    forall r | r in s.scopes && s.scopes[r].parent.Some? && !s.scopes[r].weakRef
      ensures s.scopes[r].parent.value in s.scopes
    {
      ParentIsUsable(s, r);
    }
  }

  /**
  Reference counting decides the interpreter's questions: in any heap that the counters describe, a lookup from a live
  scope dangles exactly when one of the scopes it reaches through a weak parent handle is dead. So it is enough to ask
  about those.
  */
  lemma {:induction false} WeakReadsDecide(s: State, h: Store.Heap, weak: set<Ref>, r: Ref, name: string)
    requires Inv(s) && s.dying == {} && Older(s.scopes) && Mirrors(h, s.scopes) && MirrorsFlags(weak, s.scopes)
    requires r in s.scopes && 0 in s.scopes
    ensures Walk(s.scopes, r, name) == Dangling <==>
            exists q :: q in Store.WeaklyVisited(h, weak, r, name) && q !in s.scopes
    decreases r
  {
    hide Inv;
    StrongParentsLive(s);
    SameIndex(s.scopes[r].vars, h.scopes[r].vars, name);
    if !Bound(s.scopes, r, name) && s.scopes[r].parent.Some? {
      var p := s.scopes[r].parent.value;
      var rest := Store.WeaklyVisited(h, weak, p, name);
      assert Store.WeaklyVisited(h, weak, r, name) == (if r in weak && p != 0 then [p] else []) + rest;
      if p in s.scopes {
        WeakReadsDecide(s, h, weak, p, name);
      } else {
        assert ([p] + rest)[0] == p;
      }
    }
  }
}
