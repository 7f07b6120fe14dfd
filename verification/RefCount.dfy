/**
The reference-counting operations on scopes (`refcount.h`, `snuk_scope.h`, `snuk_env.h`, `snuk_value.c`) as
methods of one heap object, including the re-entrant destruction cascade.
*/
module RefCount {
  import opened Wrappers
  import opened HandleGraph
  import opened HandleSteps
  import opened Cycles
  import opened Tangles
  import opened ScopeWork
  import opened Lifetimes

  class Heap {
    var counters: map<Ref, Counter>
    var scopes: map<Ref, Scope>
    var next: nat
    ghost var held: multiset<Handle>
    ghost var dying: set<Ref>
    ghost var destroyed: seq<Ref>
    ghost var freed: seq<Ref>

    ghost function St(): State
      reads this
    {
      State(counters, scopes, next, held, dying, destroyed, freed)
    }

    ghost predicate Valid()
      reads this
    {
      Inv(St())
    }

    /** Between operations: no destructor is running. */
    ghost predicate AtRest()
      reads this
    {
      Inv(St()) && dying == {}
    }

    constructor ()
      ensures AtRest() && scopes == map[] && held == multiset{} && next == 0
    {
      counters, scopes, next := map[], map[], 0;
      held, dying, destroyed, freed := multiset{}, {}, [], [];
      new;
      forall h ensures Totals(St())(h) == 0 {
        assert scopes - dying == map[];
        EmptyHeap(h, 0);
      }
    }

    // -------------------------------------------------------------------------------------------------
    // Counter records

    /** A strong handle from any valid record; none once the scope is gone. */
    method Retain(r: Ref) returns (h: Option<Ref>)
      requires AtRest() && r in counters
      modifies this
      ensures AtRest() && scopes == old(scopes) && next == old(next)
      ensures h == if r in scopes then Some(r) else None
      ensures held == old(held) + if r in scopes then multiset{Strong(r)} else multiset{}
    {
      RetainIfAlive(St(), r);
      hide HandleGraph.Inv, Lifetimes.Older, Lifetimes.ParentsAlive;
      if counters[r].strong == 0 {
        return None;
      }
      Acquire(St(), Strong(r));
      counters := counters[r := counters[r].(strong := counters[r].strong + 1)];
      held := held + multiset{Strong(r)};
      h := Some(r);
    }

    method RetainWeak(r: Ref) returns (h: Option<Ref>)
      requires AtRest() && r in counters
      modifies this
      ensures AtRest() && scopes == old(scopes) && next == old(next)
      ensures h == Some(r) && held == old(held) + multiset{Weak(r)}
    {
      hide HandleGraph.Inv, Lifetimes.Older, Lifetimes.ParentsAlive;
      RecordInUse(St(), r);
      if counters[r].weak == 0 && counters[r].strong == 0 {
        return None;
      }
      Acquire(St(), Weak(r));
      counters := counters[r := counters[r].(weak := counters[r].weak + 1)];
      held := held + multiset{Weak(r)};
      h := Some(r);
    }

    method ReleaseWeak(r: Ref)
      requires Valid() && Weak(r) in held
      modifies this
      ensures forall keep: set<Ref> :: keep <= scopes.Keys ==> Cascaded(old(St()), St(), multiset{Weak(r)}, keep)
      ensures scopes == old(scopes)
    {
      GiveUp(St(), Weak(r));
      var c := counters[r].(weak := counters[r].weak - 1);
      counters := counters[r := c];
      if c.strong + c.weak == 0 {
        counters := counters - {r};
        freed := freed + [r];
      }
      held := held - multiset{Weak(r)};
      assert St() == Dropped(old(St()), Weak(r)) by {
        assert old(counters)[r := c] - {r} == old(counters) - {r};
      }
    }

    /**
    The re-entrant release. `keep` is any set of scopes that support each other together with the handles in
    `base`, which no frame of the cascade is going to release: none of them is destroyed.
    */
    method ReleaseWithin(r: Ref, ghost keep: set<Ref>, ghost base: multiset<Handle>)
      requires Ready(St(), multiset{Strong(r)}, keep, base)
      modifies this
      ensures Cascaded(old(St()), St(), multiset{Strong(r)}, keep)
      decreases Live(St()), 1
    {
      hide HandleSteps.Ready, HandleSteps.Cascaded, HandleSteps.Live, HandleSteps.TornDown, HandleSteps.CanDrop;
      ReadyToRelease(St(), r, keep, base);
      if counters[r].strong == 1 {
        DestroyScope(r, keep, base);
        LastOfDying(old(St()), St(), r, keep);
      } else {
        NotLast(St(), r, keep, base);
      }
      LastRelease(r);
    }

    /** The part of the release after the finalizer: decrement, and free the record when nothing is left. */
    method LastRelease(r: Ref)
      requires CanDrop(St(), r)
      modifies this
      ensures St() == Dropped(old(St()), Strong(r))
    {
      hide HandleGraph.Inv, Lifetimes.Older, Lifetimes.ParentsAlive;
      var c := counters[r].(strong := counters[r].strong - 1);
      counters := counters[r := c];
      if c.strong + c.weak == 0 {
        counters := counters - {r};
        freed := freed + [r];
      }
      held, dying := held - multiset{Strong(r)}, dying - {r};
      assert old(counters)[r := c] - {r} == old(counters) - {r};
    }

    /** `snuk_scope_destroy`: give up everything the scope holds, then free its memory. */
    method DestroyScope(r: Ref, ghost keep: set<Ref>, ghost base: multiset<Handle>)
      requires Ready(St(), multiset{Strong(r)}, keep, base) && StrongOf(counters, r) == 1
      modifies this
      ensures TornDown(old(St()), St(), r, keep)
      decreases Live(St()), 0
    {
      hide HandleSteps.Ready, HandleSteps.Cascaded, HandleSteps.TornDown, HandleSteps.Live, HandleSteps.Shrinks,
        HandleGraph.ScopeHandles;
      ghost var start := St();
      OutsideKeep(start, r, keep, base);
      BeginDestroy(start, r, keep, base);
      held := held + ScopeHandles(scopes[r]);
      dying := dying + {r};
      DestroyContents(scopes[r], keep, base);
      ScopeEmptied(start, St(), r, keep, base);
      scopes := scopes - {r};
      destroyed := destroyed + [r];
    }

    /** The bindings first, then the parent by the release its flag asks for. */
    method DestroyContents(scope: Scope, ghost keep: set<Ref>, ghost base: multiset<Handle>)
      requires Ready(St(), ScopeHandles(scope), keep, base)
      modifies this
      ensures Cascaded(old(St()), St(), ScopeHandles(scope), keep)
      decreases Live(St()), 6
    {
      hide HandleSteps.Ready, HandleSteps.Cascaded, HandleSteps.Live, HandleGraph.EnvHandles;
      ghost var start, envs, last := St(), EnvHandles(scope.vars), Optional(scope.parent, scope.weakRef);
      FirstHalf(start, envs, last, keep, base);
      DestroyEnvs(scope.vars, keep, base);
      ghost var half := St();
      HalfDone(start, half, envs, last, keep, base);
      if scope.parent.Some? {
        ReleaseLinkWithin(scope.parent.value, scope.weakRef, keep, base);
      } else {
        NothingDone(St(), keep, base);
      }
      BothDone(start, half, St(), envs, last, keep, base);
    }

    /** `snuk_scope_destroy_envs`. */
    method DestroyEnvs(vars: seq<Env>, ghost keep: set<Ref>, ghost base: multiset<Handle>)
      requires Ready(St(), EnvHandles(vars), keep, base)
      modifies this
      ensures Cascaded(old(St()), St(), EnvHandles(vars), keep)
      decreases Live(St()), 5
    {
      hide HandleSteps.Ready, HandleSteps.Cascaded, HandleSteps.Live, HandleGraph.EnvHandles, HandleGraph.Handles;
      ghost var start, all := St(), EnvHandles(vars);
      EnvHandlesEnds(vars);
      FirstHalf(start, multiset{}, all, keep, base);
      NothingDone(start, keep, base);
      var i := 0;
      while i < |vars|
        invariant 0 <= i <= |vars|
        invariant EnvHandles(vars[..i]) + EnvHandles(vars[i..]) == all
        invariant Cascaded(start, St(), EnvHandles(vars[..i]), keep)
      {
        ghost var half, done, now := St(), EnvHandles(vars[..i]), Handles(vars[i].value);
        EnvHandlesStep(vars, i);
        HalfDone(start, half, done, EnvHandles(vars[i..]), keep, base);
        FirstHalf(half, now, EnvHandles(vars[i + 1..]), keep, base);
        FreeValueWithin(vars[i].value, keep, base);
        FirstHalf(start, done + now, EnvHandles(vars[i + 1..]), keep, base);
        BothDone(start, half, St(), done, now, keep, base);
        i := i + 1;
      }
    }

    /** The weak or the strong release, as the holder's `weak_ref` flag says. */
    method ReleaseLinkWithin(r: Ref, weak: bool, ghost keep: set<Ref>, ghost base: multiset<Handle>)
      requires Ready(St(), multiset{Link(r, weak)}, keep, base)
      modifies this
      ensures Cascaded(old(St()), St(), multiset{Link(r, weak)}, keep)
      decreases Live(St()), 2
    {
      if weak {
        ReleaseWeak(r);
      } else {
        ReleaseWithin(r, keep, base);
      }
    }

    /** `snuk_value_free`: the closure first, then the instance or the type scope. */
    method FreeValueWithin(v: Value, ghost keep: set<Ref>, ghost base: multiset<Handle>)
      requires Ready(St(), Handles(v), keep, base)
      modifies this
      ensures Cascaded(old(St()), St(), Handles(v), keep)
      decreases Live(St()), 4
    {
      hide HandleSteps.Ready, HandleSteps.Cascaded;
      match v {
        case Plain =>
          NothingDone(St(), keep, base);
        case Fn(closure, weakRef, instance) =>
          ReleaseBothWithin(closure, weakRef, instance, true, keep, base);
        case NativeFn(closure, instance) =>
          ReleaseBothWithin(closure, false, instance, true, keep, base);
        case TypeOrInst(closure, weakRef, typeScope) =>
          ReleaseBothWithin(closure, weakRef, typeScope, false, keep, base);
      }
    }

    method ReleaseBothWithin(r: Ref, weak: bool, second: Option<Ref>, secondWeak: bool,
                             ghost keep: set<Ref>, ghost base: multiset<Handle>)
      requires Ready(St(), multiset{Link(r, weak)} + Optional(second, secondWeak), keep, base)
      modifies this
      ensures Cascaded(old(St()), St(), multiset{Link(r, weak)} + Optional(second, secondWeak), keep)
      decreases Live(St()), 3
    {
      hide HandleSteps.Ready, HandleSteps.Cascaded, HandleSteps.Live;
      ghost var first, rest := multiset{Link(r, weak)}, Optional(second, secondWeak);
      FirstHalf(St(), first, rest, keep, base);
      ReleaseLinkWithin(r, weak, keep, base);
      ghost var half := St();
      HalfDone(old(St()), half, first, rest, keep, base);
      if second.Some? {
        ReleaseLinkWithin(second.value, secondWeak, keep, base);
      } else {
        NothingDone(St(), keep, base);
      }
      BothDone(old(St()), half, St(), first, rest, keep, base);
    }

    // -------------------------------------------------------------------------------------------------
    // Operations between cascades

    /** Releasing a strong handle leaves exactly the scopes the remaining handles support, untouched. */
    method Release(r: Ref)
      requires AtRest() && Strong(r) in held
      modifies this
      ensures AtRest() && held == old(held) - multiset{Strong(r)} && next == old(next)
      ensures scopes == Pruned(old(scopes), held)
      ensures Older(old(scopes)) ==> Older(scopes)
    {
      hide Lifetimes.Older, Lifetimes.ParentsAlive, HandleGraph.Inv, HandleGraph.Survivors, HandleSteps.Pruned,
        HandleGraph.Supported, HandleSteps.Ready;
      ghost var start, todo := St(), multiset{Strong(r)};
      RestIsReady(start, todo);
      ReleaseWithin(r, Survivors(scopes, held - todo), held - todo);
      RestAgain(start, St(), todo);
      if Older(old(scopes)) {
        OlderPruned(old(scopes), held);
      }
    }

    /** `snuk_value_free` of a value some C variable owns. */
    method FreeValue(v: Value)
      requires AtRest() && Handles(v) <= held
      modifies this
      ensures AtRest() && held == old(held) - Handles(v) && next == old(next)
      ensures scopes == Pruned(old(scopes), held)
      ensures Older(old(scopes)) ==> Older(scopes)
    {
      hide Lifetimes.Older, Lifetimes.ParentsAlive, HandleGraph.Inv, HandleGraph.Survivors, HandleSteps.Pruned,
        HandleGraph.Supported, HandleSteps.Ready,
        HandleGraph.Handles;
      ghost var start, todo := St(), Handles(v);
      RestIsReady(start, todo);
      FreeValueWithin(v, Survivors(scopes, held - todo), held - todo);
      RestAgain(start, St(), todo);
      if Older(old(scopes)) {
        OlderPruned(old(scopes), held);
      }
    }

    /** Releasing a handle of the kind `weak` says. */
    method ReleaseLink(r: Ref, weak: bool)
      requires AtRest() && Link(r, weak) in held
      modifies this
      ensures AtRest() && held == old(held) - multiset{Link(r, weak)} && next == old(next)
      ensures scopes == Pruned(old(scopes), held)
      ensures Older(old(scopes)) ==> Older(scopes)
    {
      hide Lifetimes.Older, Lifetimes.ParentsAlive, HandleGraph.Inv, HandleGraph.Survivors, HandleSteps.Pruned,
        HandleGraph.Supported, HandleSteps.Ready;
      ghost var start, todo := St(), multiset{Link(r, weak)};
      RestIsReady(start, todo);
      ReleaseLinkWithin(r, weak, Survivors(scopes, held - todo), held - todo);
      RestAgain(start, St(), todo);
      if Older(old(scopes)) {
        OlderPruned(old(scopes), held);
      }
    }

    /** `snuk_value_copy` of a value in a C variable or in a scope: one more handle of each kind it carries. */
    method CopyValue(v: Value) returns (w: Value)
      requires AtRest() && Around(St(), Handles(v))
      modifies this
      ensures AtRest() && w == v && held == old(held) + Handles(v)
      ensures scopes == old(scopes) && next == old(next)
    {
      hide HandleSteps.Around;
      match v {
        case Plain =>
        case Fn(closure, weakRef, instance) =>
          CopyBoth(closure, weakRef, instance, true);
        case NativeFn(closure, instance) =>
          CopyBoth(closure, false, instance, true);
        case TypeOrInst(closure, weakRef, typeScope) =>
          CopyBoth(closure, weakRef, typeScope, false);
      }
      w := v;
    }

    method CopyBoth(r: Ref, weak: bool, second: Option<Ref>, secondWeak: bool)
      requires AtRest() && Around(St(), multiset{Link(r, weak)} + Optional(second, secondWeak))
      modifies this
      ensures AtRest() && held == old(held) + (multiset{Link(r, weak)} + Optional(second, secondWeak))
      ensures scopes == old(scopes) && next == old(next)
    {
      hide Lifetimes.Older, Lifetimes.ParentsAlive, HandleGraph.Inv, HandleGraph.Total;
      assert Link(r, weak) in multiset{Link(r, weak)} + Optional(second, secondWeak);
      CopyLink(r, weak);
      StillAround(old(St()), St(), multiset{Link(r, weak)} + Optional(second, secondWeak));
      if second.Some? {
        assert Link(second.value, secondWeak) in multiset{Link(r, weak)} + Optional(second, secondWeak);
        CopyLink(second.value, secondWeak);
      }
    }

    /** Another handle like one that exists already. */
    method CopyLink(r: Ref, weak: bool)
      requires AtRest() && Total(St(), Link(r, weak)) > 0
      modifies this
      ensures AtRest() && held == old(held) + multiset{Link(r, weak)}
      ensures scopes == old(scopes) && next == old(next)
    {
      hide Lifetimes.Older, Lifetimes.ParentsAlive, HandleGraph.Inv, HandleGraph.Total;
      NoDangling(St(), Link(r, weak));
      if weak {
        var h := RetainWeak(r);
      } else {
        var h := Retain(r);
      }
    }

    /** `snuk_scope_create`: consumes the handle to the parent. */
    method CreateScopeObject(parent: Option<Ref>, weak: bool) returns (r: Ref)
      requires AtRest() && Optional(parent, weak) <= held
      modifies this
      ensures AtRest() && r == old(next) && r !in old(scopes) && next == r + 1
      ensures scopes == old(scopes)[r := Scope([], parent, weak)]
      ensures held == old(held) - Optional(parent, weak) + multiset{Strong(r)}
      ensures Older(old(scopes)) ==> Older(scopes)
    {
      hide HandleGraph.Inv, Lifetimes.Older, Lifetimes.ParentsAlive, HandleGraph.ScopeHandles;
      if parent.Some? {
        HeldIsOld(St(), Link(parent.value, weak));
      }
      hide HandleGraph.Optional, HandleGraph.Link;
      CreateScope(St(), parent, weak);
      FreshScope(scopes, next, parent, weak);
      r := next;
      counters := counters[r := Counter(1, 0)];
      scopes := scopes[r := Scope([], parent, weak)];
      next := next + 1;
      held := held - Optional(parent, weak) + multiset{Strong(r)};
      assert St() == Created(old(St()), parent, weak);
    }

    /** `snuk_scope_set_parent`: the old parent is released, the new handle is consumed. */
    method SetParent(r: Ref, parent: Option<Ref>, weak: bool)
      requires AtRest() && r in scopes && Strong(r) in held - Optional(parent, weak)
      requires Optional(parent, weak) <= held
      modifies this
      ensures AtRest() && held == old(held) - Optional(parent, weak) && next == old(next)
      ensures var mid := Pruned(old(scopes)[r := old(scopes[r]).(parent := None)], old(held));
              r in mid && scopes == mid[r := mid[r].(parent := parent, weakRef := weak)]
      ensures Older(old(scopes)) && (parent.Some? ==> parent.value < r) ==> Older(scopes)
    {
      ReleaseParent(r);
      hide HandleSteps.Pruned;
      AttachParent(r, parent, weak);
    }

    method AttachParent(r: Ref, parent: Option<Ref>, weak: bool)
      requires AtRest() && r in scopes && scopes[r].parent == None && Optional(parent, weak) <= held
      modifies this
      ensures AtRest() && held == old(held) - Optional(parent, weak) && next == old(next)
      ensures scopes == old(scopes)[r := old(scopes[r]).(parent := parent, weakRef := weak)]
      ensures Older(old(scopes)) && (parent.Some? ==> parent.value < r) ==> Older(scopes)
    {
      hide Lifetimes.Older, Lifetimes.ParentsAlive, HandleGraph.Inv, HandleGraph.Survivors, HandleSteps.Pruned,
        HandleGraph.ScopeHandles;
      WithParent(scopes[r], parent, weak);
      PutIn(St(), r, scopes[r].(parent := parent, weakRef := weak), Optional(parent, weak));
      scopes := scopes[r := scopes[r].(parent := parent, weakRef := weak)];
      held := held - Optional(parent, weak);
      if Older(old(scopes)) && (parent.Some? ==> parent.value < r) {
        OlderWith(old(scopes), r, scopes[r]);
      }
    }

    /**
    `snuk_scope_release_parent`. The handle leaves the scope before it is released; the C code clears the field
    afterwards, which no step of the cascade can see because `r` itself is held.
    */
    method ReleaseParent(r: Ref)
      requires AtRest() && r in scopes && Strong(r) in held
      modifies this
      ensures AtRest() && held == old(held) && next == old(next)
      ensures r in scopes && scopes[r] == old(scopes[r]).(parent := None)
      ensures scopes == Pruned(old(scopes)[r := old(scopes[r]).(parent := None)], held)
      ensures Older(old(scopes)) ==> Older(scopes)
    {
      hide Lifetimes.Older, Lifetimes.ParentsAlive, HandleGraph.Inv, HandleGraph.Survivors, HandleGraph.ScopeHandles;
      var scope := DetachParent(r);
      HeldSurvives(scopes, old(held), r);
      if scope.parent.Some? {
        ReleaseLink(scope.parent.value, scope.weakRef);
      } else {
        NothingDies(St(), held);
      }
    }

    method DetachParent(r: Ref) returns (scope: Scope)
      requires AtRest() && r in scopes
      modifies this
      ensures AtRest() && scope == old(scopes[r]) && next == old(next)
      ensures scopes == old(scopes)[r := scope.(parent := None)]
      ensures held == old(held) + Optional(scope.parent, scope.weakRef)
      ensures Older(old(scopes)) ==> Older(scopes)
    {
      scope := scopes[r];
      WithoutParent(scope);
      TakeOut(St(), r, scope.(parent := None), Optional(scope.parent, scope.weakRef));
      hide Lifetimes.Older, Lifetimes.ParentsAlive, HandleGraph.Inv, HandleGraph.ScopeHandles;
      scopes := scopes[r := scope.(parent := None)];
      held := held + Optional(scope.parent, scope.weakRef);
      OlderOrphan(old(scopes), r);
    }

    /** `snuk_scope_downgrade_parent`: the strong handle to the parent becomes a weak one. */
    method DowngradeParent(r: Ref)
      requires AtRest() && r in scopes && Strong(r) in held
      requires scopes[r].parent.Some? && !scopes[r].weakRef
      modifies this
      ensures AtRest() && held == old(held) && next == old(next)
      ensures var mid := Pruned(old(scopes)[r := old(scopes[r]).(parent := None)], old(held));
              r in mid && scopes == mid[r := mid[r].(parent := old(scopes[r]).parent, weakRef := true)]
      ensures Older(old(scopes)) ==> Older(scopes)
    {
      var p := scopes[r].parent.value;
      DowngradeOutside(r, p);
      hide Lifetimes.Older, Lifetimes.ParentsAlive, HandleGraph.Inv, HandleGraph.Survivors, HandleSteps.Pruned,
        HandleGraph.ScopeHandles;
      WithParent(scopes[r], Some(p), true);
      PutIn(St(), r, scopes[r].(parent := Some(p), weakRef := true), multiset{Weak(p)});
      scopes := scopes[r := scopes[r].(parent := Some(p), weakRef := true)];
      held := held - multiset{Weak(p)};
      if Older(old(scopes)) {
        OlderDowngraded(old(scopes), r, old(held));
      }
    }

    /** `snuk_ref_counter_downgrade` of the handle just taken out of scope `r`. */
    method DowngradeOutside(r: Ref, p: Ref)
      requires AtRest() && r in scopes && Strong(r) in held && scopes[r].parent == Some(p) && !scopes[r].weakRef
      modifies this
      ensures AtRest() && held == old(held) + multiset{Weak(p)} && next == old(next)
      ensures r in scopes && scopes[r] == old(scopes[r]).(parent := None)
      ensures scopes == Pruned(old(scopes)[r := old(scopes[r]).(parent := None)], old(held))
    {
      hide Lifetimes.Older, Lifetimes.ParentsAlive, HandleGraph.Inv, HandleGraph.Survivors, HandleGraph.ScopeHandles;
      var scope := scopes[r];
      WithoutParent(scope);
      TakeOut(St(), r, scope.(parent := None), multiset{Strong(p)});
      scopes := scopes[r := scope.(parent := None)];
      held := held + multiset{Strong(p)};
      HeldIsUsable(St(), Strong(p));
      var h := RetainWeak(p);
      HeldSurvives(scopes, held - multiset{Strong(p)}, r);
      Release(p);
      WeakSupportsNothing(old(scopes)[r := scope.(parent := None)], held, old(held));
    }

    /** `snuk_scope_lookup`: the first binding of that name in one scope. */
    method Lookup(r: Ref, name: string) returns (i: nat)
      requires r in scopes
      ensures i == NameIndex(scopes[r].vars, name)
    {
      i := 0;
      while i < |scopes[r].vars|
        invariant i <= |scopes[r].vars| && NameIndex(scopes[r].vars, name) == i + NameIndex(scopes[r].vars[i..], name)
      {
        if scopes[r].vars[i].name == name {
          return;
        }
        i := i + 1;
      }
    }

    /** `snuk_env_create` followed by `snuk_scope_add_env`: the binding copies the value, or nothing changes. */
    method AddEnv(r: Ref, name: string, value: Value) returns (ok: bool)
      requires AtRest() && r in scopes && Handles(value) <= held
      modifies this
      ensures AtRest() && held == old(held) && next == old(next)
      ensures ok <==> NameIndex(old(scopes)[r].vars, name) == |old(scopes)[r].vars|
      ensures scopes == if ok then old(scopes)[r := AddVar(old(scopes)[r], Env(name, value))] else old(scopes)
      ensures Older(old(scopes)) ==> Older(scopes)
      ensures ParentsAlive(old(scopes)) ==> ParentsAlive(scopes)
    {
      hide Lifetimes.Older, Lifetimes.ParentsAlive, HandleGraph.Inv, HandleGraph.Survivors, HandleSteps.Pruned,
        HandleGraph.ScopeHandles, HandleGraph.Handles;
      ghost var start := St();
      HeldIsAround(start, Handles(value));
      var copy := CopyValue(value);
      var i := Lookup(r, name);
      if i < |scopes[r].vars| {
        NothingDies(St(), start.held);
        FreeValue(copy);
        ok := false;
      } else {
        AddVarHandles(scopes[r], Env(name, copy));
        PutIn(St(), r, AddVar(scopes[r], Env(name, copy)), Handles(copy));
        ContentsChange(scopes, r, AddVar(scopes[r], Env(name, copy)));
        scopes := scopes[r := AddVar(scopes[r], Env(name, copy))];
        held := held - Handles(copy);
        ok := true;
      }
    }

    /** `snuk_scope_remove_env`: the first binding of that name goes and its value is freed. */
    method RemoveEnv(r: Ref, name: string)
      requires AtRest() && r in scopes
      modifies this
      ensures AtRest() && held == old(held) && next == old(next)
      ensures var i := NameIndex(old(scopes)[r].vars, name);
              scopes == if i < |old(scopes)[r].vars|
                        then Pruned(old(scopes)[r := RemoveVar(old(scopes)[r], i)], held) else old(scopes)
      ensures Older(old(scopes)) ==> Older(scopes)
    {
      hide Lifetimes.Older, Lifetimes.ParentsAlive, HandleGraph.Inv, HandleGraph.Survivors, HandleSteps.Pruned,
        HandleGraph.ScopeHandles, HandleGraph.Handles;
      var i := Lookup(r, name);
      if i < |scopes[r].vars| {
        var value := scopes[r].vars[i].value;
        RemoveVarHandles(scopes[r], i);
        TakeOut(St(), r, RemoveVar(scopes[r], i), Handles(value));
        ContentsChange(scopes, r, RemoveVar(scopes[r], i));
        scopes := scopes[r := RemoveVar(scopes[r], i)];
        held := held + Handles(value);
        FreeValue(value);
      }
    }

    /**
    `snuk_env_assign_value`: the old value is freed, then the new one, which the caller owns, is copied in. Freeing the
    old value may take the scope along with its binding: then its finalizer frees the old value a second time and the
    copy is written to freed memory. That is the answer `false`, after which the heap is what one freeing leaves.
    `Cycles.AssignmentIsSafe` says when it happens.
    */
    method AssignValue(r: Ref, i: nat, value: Value) returns (safe: bool)
      requires AtRest() && r in scopes && i < |scopes[r].vars| && Handles(value) <= held
      modifies this
      ensures AtRest() && held == old(held) && next == old(next)
      ensures safe <==> r in Survivors(Cleared(old(scopes), r, i), held)
      ensures var mid := Pruned(Cleared(old(scopes), r, i), held);
              if safe then r in mid && i < |mid[r].vars| && scopes == mid[r := SetVar(mid[r], i, value)]
              else scopes == mid && r !in scopes
      ensures Older(old(scopes)) ==> Older(scopes)
    {
      hide Lifetimes.Older, Lifetimes.ParentsAlive, HandleGraph.Inv, HandleGraph.Survivors, HandleSteps.Pruned,
        HandleGraph.Handles;
      safe := TakeValue(r, i);
      if safe {
        PutValue(r, i, value);
      }
    }

    /** The second half: the binding gets its own copy. */
    method PutValue(r: Ref, i: nat, value: Value)
      requires AtRest() && r in scopes && i < |scopes[r].vars| && scopes[r].vars[i].value == Plain
      requires Handles(value) <= held
      modifies this
      ensures AtRest() && held == old(held) && next == old(next)
      ensures scopes == old(scopes)[r := SetVar(old(scopes)[r], i, value)]
      ensures Older(old(scopes)) ==> Older(scopes)
      ensures ParentsAlive(old(scopes)) ==> ParentsAlive(scopes)
    {
      hide Lifetimes.Older, Lifetimes.ParentsAlive, HandleGraph.Inv, HandleGraph.ScopeHandles, HandleGraph.Handles;
      HeldIsAround(St(), Handles(value));
      var copy := CopyValue(value);
      SetVarHandles(scopes[r], i, copy);
      PlainHandles();
      PutIn(St(), r, SetVar(scopes[r], i, copy), Handles(copy));
      ContentsChange(scopes, r, SetVar(scopes[r], i, copy));
      scopes := scopes[r := SetVar(scopes[r], i, copy)];
      held := held - Handles(copy);
    }

    /** The first half of the assignment: the old value leaves its binding and is freed. */
    method TakeValue(r: Ref, i: nat) returns (safe: bool)
      requires AtRest() && r in scopes && i < |scopes[r].vars|
      modifies this
      ensures AtRest() && held == old(held) && next == old(next)
      ensures scopes == Pruned(Cleared(old(scopes), r, i), held)
      ensures safe <==> r in Survivors(Cleared(old(scopes), r, i), held)
      ensures if safe then r in scopes && scopes[r] == SetVar(old(scopes)[r], i, Plain) else r !in scopes
      ensures Older(old(scopes)) ==> Older(scopes)
    {
      hide Lifetimes.Older, Lifetimes.ParentsAlive, HandleGraph.Inv, HandleGraph.Survivors, HandleGraph.ScopeHandles,
        HandleGraph.Handles;
      var value := scopes[r].vars[i].value;
      SetVarHandles(scopes[r], i, Plain);
      PlainHandles();
      TakeOut(St(), r, SetVar(scopes[r], i, Plain), Handles(value));
      ContentsChange(scopes, r, SetVar(scopes[r], i, Plain));
      scopes := scopes[r := SetVar(scopes[r], i, Plain)];
      held := held + Handles(value);
      FreeValue(value);
      safe := r in scopes;
    }

    // -------------------------------------------------------------------------------------------------
    // The interpreter's use of scopes

    /** `interpreter_push_scope`: the handle to `current` moves into the new scope. */
    method PushScope(current: Ref) returns (inner: Ref)
      requires AtRest() && Strong(current) in held
      modifies this
      ensures AtRest() && inner == old(next) && inner !in old(scopes) && next == inner + 1
      ensures scopes == old(scopes)[inner := Scope([], Some(current), false)]
      ensures held == old(held) - multiset{Strong(current)} + multiset{Strong(inner)}
      ensures Older(old(scopes)) ==> Older(scopes)
      ensures ParentsAlive(old(scopes)) ==> ParentsAlive(scopes)
    {
      HeldIsUsable(St(), Strong(current));
      FreshIsUncounted(St(), Strong(next));
      FreshScope(scopes, next, Some(current), false);
      hide HandleGraph.Inv, Lifetimes.Older, Lifetimes.ParentsAlive;
      inner := CreateScopeObject(Some(current), false);
    }

    /** `interpreter_pop_scope`: the parent is retained before the scope is released. */
    method PopScope(inner: Ref) returns (current: Ref)
      requires AtRest() && Strong(inner) in held && inner in scopes
      requires scopes[inner].parent.Some? && !scopes[inner].weakRef
      modifies this
      ensures AtRest() && current == old(scopes)[inner].parent.value && next == old(next)
      ensures held == old(held) - multiset{Strong(inner)} + multiset{Strong(current)}
      ensures scopes == Pruned(old(scopes), held)
      ensures Older(old(scopes)) ==> Older(scopes)
    {
      hide Lifetimes.Older, Lifetimes.ParentsAlive, HandleGraph.Inv, HandleGraph.Survivors, HandleSteps.Pruned,
        HandleGraph.ScopeHandles;
      current := scopes[inner].parent.value;
      ParentIsUsable(St(), inner);
      var h := Retain(current);
      Release(inner);
    }

    /** `snuk_scope_lookup_recursive`: `Dangling` where the C code would read a scope that has been freed. */
    method LookupRecursive(r: Ref, name: string) returns (w: Walked)
      requires Older(scopes)
      ensures w == Walk(scopes, r, name)
    {
      var scope := r;
      while true
        invariant Walk(scopes, r, name) == Walk(scopes, scope, name)
        decreases scope
      {
        if scope !in scopes {
          return Dangling;
        }
        var i := Lookup(scope, name);
        if i < |scopes[scope].vars| {
          return Found(scope);
        }
        if scopes[scope].parent.None? {
          return Missing;
        }
        scope := scopes[scope].parent.value;
      }
    }

    /**
    Evaluating an expression in the scope `current`, for its work on scopes. `n` is at most the name of the first scope
    made here, and `open` are the scopes made from `n` on in which work is going on.
    */
    method Evaluate(current: Ref, e: Expr, weakRef: bool, ghost n: nat, ghost open: set<Ref>) returns (v: Value)
      requires AtRest() && Strong(current) in held && current in scopes && WellNamed(e)
      requires n <= next && forall x :: x in open ==> x < next
      modifies this
      ensures Worked(old(St()), St(), current, [], Handles(v))
      ensures Judged(old(scopes), scopes, Leaks(e), n, open)
      ensures Reaching(e) && !weakRef && current >= n ==> Leads(scopes, v, current, n)
      ensures Fine(old(scopes), n, open) && !Leaks(e) ==> Valued(scopes, v, current, Reaching(e) && !weakRef, open)
      ensures Simple(e) ==> scopes == old(scopes) && next == old(next) && v == DefaultOf(old(scopes), e)
      decreases e, 1
    {
      hide Lifetimes.Older, Lifetimes.ParentsAlive, HandleGraph.Inv, Tangles.Fine, Tangles.Tangled,
        HandleGraph.Handles, Tangles.Clear, Tangles.OnlyThrough;
      match e {
        case Literal =>
          PlainIsClear(scopes, open);
          NothingWorked(St(), current);
          JudgedSame(scopes, n, open);
          v := Plain;
        case Copy(at, i) =>
          v := CopyBinding(current, at, i, n, open);
        case FnExpr(_, params) =>
          v := RunObject(current, params, true, weakRef, n, open);
        case TypeExpr(_, members) =>
          v := RunObject(current, members, false, weakRef, n, open);
        case InstExpr(_, at, i, inits) =>
          v := RunInstance(current, at, i, inits, weakRef, n, open);
        case BlockExpr(items) =>
          v := RunBlock(current, items, weakRef, n, open);
      }
    }

    /** A name that lookup has found: a copy of the value that is bound there. */
    method CopyBinding(current: Ref, at: Ref, i: nat, ghost n: nat, ghost open: set<Ref>) returns (v: Value)
      requires AtRest() && current in scopes
      modifies this
      ensures Worked(old(St()), St(), current, [], Handles(v))
      ensures scopes == old(scopes) && next == old(next) && v == DefaultOf(scopes, Copy(at, i))
      ensures Judged(old(scopes), scopes, false, n, open)
      ensures Fine(old(scopes), n, open) ==> Clear(scopes, Handles(v), open)
    {
      hide Lifetimes.Older, Lifetimes.ParentsAlive, HandleGraph.Inv, HandleGraph.Handles, HandleGraph.EnvHandles,
        Tangles.Clear, Tangles.Tangled, Tangles.Loose;
      NothingWorked(St(), current);
      JudgedSame(scopes, n, open);
      PlainIsClear(scopes, open);
      v := Plain;
      if at in scopes && i < |scopes[at].vars| {
        OwnedIsAround(St(), at);
        BoundHandles(scopes[at], i);
        v := CopyValue(scopes[at].vars[i].value);
        if Fine(scopes, n, open) {
          BoundIsClear(scopes, at, i, open);
        }
      }
    }

    /**
    `execute_fn_expr` and `execute_type_declaration` up to the binding of the expression's own name: push, declare the
    parameters or members, keep, pop, downgrade when asked to.
    */
    method RunObject(current: Ref, slots: seq<Slot>, isFn: bool, weakRef: bool, ghost n: nat, ghost open: set<Ref>)
      returns (v: Value)
      requires AtRest() && Strong(current) in held && current in scopes && SlotsNamed(slots)
      requires n <= next && forall x :: x in open ==> x < next
      modifies this
      ensures Worked(old(St()), St(), current, [], Handles(v)) && v == ObjectValue(old(next), isFn)
      ensures Judged(old(scopes), scopes, TiesAny(slots, !isFn), n, open)
      ensures !weakRef && current >= n ==> Leads(scopes, v, current, n)
      ensures Fine(old(scopes), n, open) && !TiesAny(slots, !isFn) ==> Valued(scopes, v, current, !weakRef, open)
      ensures ClosureMade(old(scopes), scopes, next, current, old(next), slots, weakRef)
      decreases slots, 1
    {
      hide Lifetimes.Older, Lifetimes.ParentsAlive, HandleGraph.Inv, Tangles.Fine, Tangles.Tangled,
        ScopeWork.SlotsNamed, ScopeWork.ClosureMade, Tangles.Valued,
        HandleGraph.Handles, ScopeWork.Grown, Tangles.Judged, ScopeWork.TiesAny, Tangles.Leads,
        ScopeWork.AllSimple, ScopeWork.DefaultsOf, ScopeWork.Names, ScopeWork.SlotNames;
      ghost var start := St();
      LiveIsOlder(start, current);
      var r := PushScope(current);
      ghost var pushed := St();
      ghost var added := BindSlots(r, slots, !isFn, n, open + {r});
      ghost var filled := St();
      GrownAt(pushed.scopes, filled.scopes, r, added, pushed.next);
      LeaveScope(current, r, weakRef);
      v := if isFn then Fn(r, false, None) else TypeOrInst(r, false, None);
      ObjectDone(start, pushed, filled, St(), current, slots, isFn, added, weakRef, n, open);
    }

    /** The loop over parameters or members: each value is evaluated in the new scope, bound and freed. */
    method BindSlots(r: Ref, slots: seq<Slot>, weak: bool, ghost n: nat, ghost open: set<Ref>)
      returns (ghost added: seq<Env>)
      requires AtRest() && Strong(r) in held && r in scopes && scopes[r].vars == [] && SlotsNamed(slots)
      requires n <= r && n <= next && r in open && forall x :: x in open ==> x < next
      modifies this
      ensures Worked(old(St()), St(), r, added, multiset{}) && Names(added) == SlotNames(slots)
      ensures Judged(old(scopes), scopes, TiesAny(slots, weak), n, open)
      ensures AllSimple(slots) ==> next == old(next) && scopes == WithDefaults(old(scopes), r, slots)
      decreases slots, 0
    {
      hide Lifetimes.Older, Lifetimes.ParentsAlive, HandleGraph.Inv, Tangles.Judged, HandleGraph.Handles,
        ScopeWork.Names, ScopeWork.SlotNames, ScopeWork.Ties,
        ScopeWork.TiesAny, ScopeWork.Grown, ScopeWork.WellNamed, ScopeWork.DefaultsOf, ScopeWork.SlotsNamed;
      ghost var start := St();
      NothingWorked(start, r);
      JudgedSame(scopes, n, open);
      NoSlots(slots, weak, scopes, r);
      added := [];
      var i := 0;
      while i < |slots|
        invariant 0 <= i <= |slots|
        invariant Worked(start, St(), r, added, multiset{}) && Names(added) == SlotNames(slots[..i])
        invariant Judged(start.scopes, scopes, TiesAny(slots[..i], weak), n, open)
        invariant AllSimple(slots) ==> next == start.next && scopes == WithDefaults(start.scopes, r, slots[..i])
      {
        ghost var before := St();
        GrownAt(start.scopes, scopes, r, added, start.next);
        SlotNamed(slots, i);
        NextSlotUnused(slots, i, added);
        var v := BindSlot(r, slots[i], weak, n, open);
        SlotBound(slots, i, added, v);
        TiesMore(slots, i, weak);
        JudgedBoth(start.scopes, before.scopes, scopes, TiesAny(slots[..i], weak), Ties(slots[i], weak), n, open);
        WorkedBoth(start, before, St(), r, added, SlotEnvs(slots[i], v), multiset{}, multiset{});
        MoreDefaults(start.scopes, r, slots, i);
        added := added + SlotEnvs(slots[i], v);
        i := i + 1;
      }
      assert slots[..|slots|] == slots;
    }

    /** One of them; a binding keeps alive what the value owns, so that freeing the value destroys nothing. */
    method BindSlot(r: Ref, slot: Slot, weak: bool, ghost n: nat, ghost open: set<Ref>) returns (v: Value)
      requires AtRest() && Strong(r) in held && r in scopes && n <= r && n <= next
      requires r in open && forall x :: x in open ==> x < next
      requires WellNamed(slot.e) && Unused(scopes[r].vars, slot)
      modifies this
      ensures Worked(old(St()), St(), r, SlotEnvs(slot, v), multiset{})
      ensures Judged(old(scopes), scopes, Ties(slot, weak), n, open)
      ensures Simple(slot.e) && slot.name != "" ==>
                next == old(next) && v == DefaultOf(old(scopes), slot.e)
                && scopes == old(scopes)[r := AddVar(old(scopes)[r], Env(slot.name, v))]
      decreases slot, 1
    {
      hide Lifetimes.Older, Lifetimes.ParentsAlive, HandleGraph.Inv, Tangles.Judged, HandleGraph.Handles,
        ScopeWork.Grown, ScopeWork.WellNamed, ScopeWork.Ties,
        HandleGraph.Survivors, HandleSteps.Pruned;
      ghost var start := St();
      v := EvalSlot(r, slot, weak, n, open);
      ghost var bound := St();
      if slot.name != "" {
        GrownAt(start.scopes, scopes, r, SlotEnvs(slot, v), start.next);
        BoundElsewhere(St(), r, v, held - Handles(v));
        NothingDies(St(), held - Handles(v));
      }
      FreeValue(v);
      FreedOnTheWay(start, bound, St(), r, SlotEnvs(slot, v), Handles(v), multiset{});
      PrunedJudged(bound.scopes, held, n, open);
      JudgedBoth(start.scopes, bound.scopes, scopes, Ties(slot, weak), false, n, open);
    }

    /** A parameter, member or block item: evaluate it, and bind the names it declares. */
    method EvalSlot(r: Ref, slot: Slot, weak: bool, ghost n: nat, ghost open: set<Ref>) returns (v: Value)
      requires AtRest() && Strong(r) in held && r in scopes && n <= r && n <= next
      requires r in open && forall x :: x in open ==> x < next
      requires WellNamed(slot.e) && Unused(scopes[r].vars, slot)
      modifies this
      ensures Worked(old(St()), St(), r, SlotEnvs(slot, v), Handles(v))
      ensures Judged(old(scopes), scopes, Ties(slot, weak), n, open)
      ensures Reaching(slot.e) && !weak ==> Leads(scopes, v, r, n)
      ensures Fine(old(scopes), n, open) && !Ties(slot, weak) ==> Valued(scopes, v, r, Reaching(slot.e) && !weak, open)
      ensures Simple(slot.e) && slot.name != "" ==>
                next == old(next) && v == DefaultOf(old(scopes), slot.e)
                && scopes == old(scopes)[r := AddVar(old(scopes)[r], Env(slot.name, v))]
      decreases slot, 0
    {
      hide Lifetimes.Older, Lifetimes.ParentsAlive, HandleGraph.Inv, Tangles.Fine, HandleGraph.Handles,
        ScopeWork.Grown, Tangles.Judged, ScopeWork.WellNamed,
        Tangles.Leads, ScopeWork.Leaks, Tangles.Valued, ScopeWork.Names, ScopeWork.Reaching;
      ghost var start := St();
      v := Evaluate(r, slot.e, weak, n, open);
      GrownAt(start.scopes, scopes, r, [], start.next);
      SugarReaches(slot.e);
      ghost var reaching, bad, added: seq<Env> := Reaching(slot.e) && !weak, Leaks(slot.e), [];
      if Sugar(slot.e) != "" {
        bad := BindName(start, r, Sugar(slot.e), v, added, reaching, bad, n, open);
        added := added + [Env(Sugar(slot.e), v)];
      }
      if slot.name != "" {
        GrownAt(start.scopes, scopes, r, added, start.next);
        OtherName(start.scopes[r].vars, added, slot, v);
        bad := BindName(start, r, slot.name, v, added, reaching, bad, n, open);
        added := added + [Env(slot.name, v)];
      }
      assert added == SlotEnvs(slot, v);
    }

    /** `snuk_interpreter_create_env` with a value that stays in a C variable. */
    method BindName(ghost start: State, r: Ref, name: string, v: Value, ghost added: seq<Env>, ghost reaching: bool,
                    ghost wasBad: bool, ghost n: nat, ghost open: set<Ref>)
      returns (ghost bad: bool)
      requires AtRest() && r in scopes && n <= r && r in start.scopes && r in open
      requires Worked(start, St(), r, added, Handles(v)) && name !in Names(scopes[r].vars)
      requires Judged(start.scopes, scopes, wasBad, n, open) && (reaching ==> Leads(scopes, v, r, n))
      requires Fine(start.scopes, n, open) && !wasBad ==> Valued(scopes, v, r, reaching, open)
      modifies this
      ensures Worked(start, St(), r, added + [Env(name, v)], Handles(v))
      ensures bad == (wasBad || reaching) && Judged(start.scopes, scopes, bad, n, open)
      ensures reaching ==> Leads(scopes, v, r, n)
      ensures Fine(start.scopes, n, open) && !bad ==> Valued(scopes, v, r, reaching, open)
      ensures next == old(next) && scopes == old(scopes)[r := AddVar(old(scopes)[r], Env(name, v))]
    {
      hide Lifetimes.Older, Lifetimes.ParentsAlive, HandleGraph.Inv, HandleGraph.Handles, ScopeWork.Grown,
        Tangles.Judged, ScopeWork.Names, Tangles.Leads,
        HandleSteps.NameIndex, HandleSteps.AddVar, Tangles.Fine, Tangles.Clear, Tangles.OnlyThrough;
      ghost var before := St();
      NewNames(scopes[r].vars, name);
      var ok := AddEnv(r, name, v);
      BindJudged(start.scopes, before.scopes, r, Env(name, v), reaching, wasBad, n, open);
      AddedWorks(start, before, St(), r, added, Env(name, v), Handles(v));
      bad := wasBad || reaching;
    }

    /**
    `execute_inst_creation`: keep the type, push, set the initial members, bind a weak `self`, keep, pop, downgrade when
    asked to. Where the name is no type the code stops with an error, and the instance here has no type.
    */
    method RunInstance(current: Ref, at: Ref, i: nat, inits: seq<Slot>, weakRef: bool, ghost n: nat,
                       ghost open: set<Ref>)
      returns (v: Value)
      requires AtRest() && Strong(current) in held && current in scopes
      requires SlotsNamed(inits) && "self" !in SlotNames(inits)
      requires n <= next && forall x :: x in open ==> x < next
      modifies this
      ensures Worked(old(St()), St(), current, [], Handles(v))
      ensures v == TypeOrInst(old(next), false, TypeAt(old(scopes), at, i))
      ensures Judged(old(scopes), scopes, TiesAny(inits, true), n, open)
      ensures !weakRef && current >= n ==> Leads(scopes, v, current, n)
      ensures Fine(old(scopes), n, open) && !TiesAny(inits, true) ==> Valued(scopes, v, current, !weakRef, open)
      decreases inits, 2
    {
      hide Lifetimes.Older, Lifetimes.ParentsAlive, HandleGraph.Inv, Tangles.Fine, Tangles.Tangled,
        ScopeWork.SlotsNamed, Tangles.Valued, HandleGraph.ScopeHandles,
        HandleGraph.Handles, ScopeWork.Grown, Tangles.Judged, ScopeWork.TiesAny, Tangles.Leads, ScopeWork.TypeAt,
        ScopeWork.Names, ScopeWork.SlotNames, HandleGraph.Optional;
      ghost var start := St();
      LiveIsOlder(start, current);
      var typeScope := KeepType(at, i);
      ghost var kept := St();
      var inst := PushScope(current);
      ghost var pushed := St();
      TypePushed(start.scopes, inst, Scope([], Some(current), false), at, i);
      ghost var added := FillInstance(inst, at, i, typeScope, inits, n, open + {inst});
      ghost var filled := St();
      GrownAt(pushed.scopes, filled.scopes, inst, added, pushed.next);
      LeaveScope(current, inst, weakRef);
      v := TypeOrInst(inst, false, typeScope);
      InstanceDone(start, kept, pushed, filled, St(), current, inits, at, i, added, weakRef, n, open);
    }

    /** One more handle to the type that the name stands for. */
    method KeepType(at: Ref, i: nat) returns (typeScope: Option<Ref>)
      requires AtRest()
      modifies this
      ensures AtRest() && scopes == old(scopes) && next == old(next) && typeScope == TypeAt(scopes, at, i)
      ensures held == old(held) + Optional(typeScope, false)
    {
      hide Lifetimes.Older, Lifetimes.ParentsAlive, HandleGraph.Inv, HandleGraph.ScopeHandles;
      typeScope := None;
      if at in scopes && i < |scopes[at].vars| {
        var value := scopes[at].vars[i].value;
        if value.TypeOrInst? && !value.weakRef {
          typeScope := Some(value.closure);
          TypeIsOwned(scopes, at, i);
          OwnedIsAround(St(), at);
          CopyLink(typeScope.value, false);
        }
      }
    }

    method FillInstance(inst: Ref, at: Ref, i: nat, typeScope: Option<Ref>, inits: seq<Slot>, ghost n: nat,
                        ghost open: set<Ref>)
      returns (ghost added: seq<Env>)
      requires AtRest() && Strong(inst) in held && inst in scopes && scopes[inst].vars == []
      requires SlotsNamed(inits) && "self" !in SlotNames(inits)
      requires Optional(typeScope, false) <= held
      requires typeScope.Some? ==> at != inst && typeScope == TypeAt(scopes, at, i)
      requires n <= inst && n <= next && inst in open && forall x :: x in open ==> x < next
      modifies this
      ensures Worked(old(St()), St(), inst, added, multiset{})
      ensures Judged(old(scopes), scopes, TiesAny(inits, true), n, open)
      decreases inits, 1
    {
      hide Lifetimes.Older, Lifetimes.ParentsAlive, HandleGraph.Inv, HandleGraph.Handles, ScopeWork.Grown,
        Tangles.Judged, ScopeWork.Names, Tangles.Fine,
        ScopeWork.TiesAny, ScopeWork.SlotsNamed, ScopeWork.TypeAt, Tangles.Loose, Tangles.Clear;
      ghost var start := St();
      added := BindSlots(inst, inits, true, n, open);
      ghost var middle := St();
      GrownAt(start.scopes, middle.scopes, inst, added, start.next);
      if typeScope.Some? {
        OtherScope(start.scopes, middle.scopes, inst, added, start.next, at, i);
      }
      FineType(middle.scopes, at, i, n, open);
      ghost var self := BindSelf(inst, typeScope, n, open);
      WorkedBoth(start, middle, St(), inst, added, [Env("self", self)], multiset{}, multiset{});
      JudgedBoth(start.scopes, middle.scopes, scopes, TiesAny(inits, true), false, n, open);
      added := added + [Env("self", self)];
    }

    /** The binding `self`: a copy of the instance whose own handle is downgraded. */
    method BindSelf(inst: Ref, typeScope: Option<Ref>, ghost n: nat, ghost open: set<Ref>) returns (self: Value)
      requires AtRest() && Strong(inst) in held && inst in scopes && "self" !in Names(scopes[inst].vars)
      requires Optional(typeScope, false) <= held && inst in open && n <= inst
      requires Fine(scopes, n, open) ==> Clear(scopes, Optional(typeScope, false), open)
      modifies this
      ensures Worked(old(St()), St(), inst, [Env("self", self)], multiset{})
      ensures Judged(old(scopes), scopes, false, n, open)
    {
      hide Lifetimes.Older, Lifetimes.ParentsAlive, HandleGraph.Inv, HandleGraph.Handles, ScopeWork.Grown,
        Tangles.Judged, ScopeWork.Names, Tangles.Fine,
        Tangles.Clear, HandleGraph.Survivors, HandleSteps.Pruned, Tangles.Leads;
      ghost var start := St();
      self := MakeSelf(inst, typeScope);
      JudgedSame(scopes, n, open);
      if Fine(scopes, n, open) {
        SelfIsClear(scopes, inst, typeScope, open);
      }
      ghost var bad := BindName(start, inst, "self", self, [], false, false, n, open);
      assert [] + [Env("self", self)] == [Env("self", self)];
      FreeBound(start, inst, Env("self", self));
    }

    method MakeSelf(inst: Ref, typeScope: Option<Ref>) returns (self: Value)
      requires AtRest() && Strong(inst) in held && inst in scopes && Optional(typeScope, false) <= held
      modifies this
      ensures Worked(old(St()), St(), inst, [], Handles(self)) && self == TypeOrInst(inst, true, typeScope)
      ensures scopes == old(scopes) && next == old(next)
    {
      hide Lifetimes.Older, Lifetimes.ParentsAlive, HandleGraph.Inv, ScopeWork.Grown;
      self := TypeOrInst(inst, true, typeScope);
      SelfHandles(inst, typeScope);
      HeldIsUsable(St(), Strong(inst));
      var h := RetainWeak(inst);
      if typeScope.Some? {
        HeldIsAround(St(), multiset{Strong(typeScope.value)});
        CopyLink(typeScope.value, false);
      }
      HeldBesides(old(St()), St(), inst, Handles(self));
    }

    /** Freeing a value that has just been bound destroys nothing. */
    method FreeBound(ghost start: State, r: Ref, e: Env)
      requires AtRest() && r in start.scopes && Inv(start) && start.dying == {}
      requires Worked(start, St(), r, [e], Handles(e.value))
      modifies this
      ensures Worked(start, St(), r, [e], multiset{}) && scopes == old(scopes)
    {
      hide Lifetimes.Older, Lifetimes.ParentsAlive, HandleGraph.Inv, HandleGraph.Handles, ScopeWork.Grown,
        HandleGraph.Survivors, HandleSteps.Pruned;
      ghost var bound := St();
      GrownAt(start.scopes, scopes, r, [e], start.next);
      BoundElsewhere(St(), r, e.value, held - Handles(e.value));
      NothingDies(St(), held - Handles(e.value));
      FreeValue(e.value);
      FreedOnTheWay(start, bound, St(), r, [e], Handles(e.value), multiset{});
    }

    /** `execute_block_expr`: push, run the items, keep, pop, downgrade when asked to, release. */
    method RunBlock(current: Ref, items: seq<Slot>, weakRef: bool, ghost n: nat, ghost open: set<Ref>)
      returns (v: Value)
      requires AtRest() && Strong(current) in held && current in scopes && SlotsNamed(items)
      requires n <= next && forall x :: x in open ==> x < next
      modifies this
      ensures Worked(old(St()), St(), current, [], Handles(v))
      ensures Judged(old(scopes), scopes, TiesAny(items, false), n, open)
      ensures Reaching(BlockExpr(items)) && !weakRef && current >= n ==> Leads(scopes, v, current, n)
      ensures Fine(old(scopes), n, open) && !TiesAny(items, false) ==>
                Valued(scopes, v, current, Reaching(BlockExpr(items)) && !weakRef, open)
      decreases items, 1
    {
      hide Lifetimes.Older, Lifetimes.ParentsAlive, HandleGraph.Inv, Tangles.Fine, Tangles.Valued,
        ScopeWork.SlotsNamed, ScopeWork.Reaching, HandleGraph.Handles,
        ScopeWork.Grown, Tangles.Judged, ScopeWork.TiesAny, Tangles.Leads, HandleGraph.Survivors, HandleSteps.Pruned;
      ghost var start := St();
      LiveIsOlder(start, current);
      var block := PushScope(current);
      ghost var pushed := St();
      ghost var added;
      v, added := RunItems(block, items, n, open + {block});
      ghost var filled := St();
      GrownAt(pushed.scopes, filled.scopes, block, added, pushed.next);
      LeaveScope(current, block, weakRef);
      ghost var left := St();
      Release(block);
      BlockDone(start, pushed, filled, left, St(), current, items, added, v, weakRef, n, open);
    }

    /** The loop over the items: each value is freed before the next item is run. */
    method RunItems(block: Ref, items: seq<Slot>, ghost n: nat, ghost open: set<Ref>)
      returns (v: Value, ghost added: seq<Env>)
      requires AtRest() && Strong(block) in held && block in scopes && scopes[block].vars == []
      requires SlotsNamed(items) && n <= block && n <= next && block in open && forall x :: x in open ==> x < next
      modifies this
      ensures Worked(old(St()), St(), block, added, Handles(v))
      ensures Judged(old(scopes), scopes, TiesAny(items, false), n, open)
      ensures Reaching(BlockExpr(items)) ==> Leads(scopes, v, block, n)
      ensures Fine(old(scopes), n, open) && !TiesAny(items, false) ==>
                Valued(scopes, v, block, Reaching(BlockExpr(items)), open)
      decreases items, 0
    {
      hide Lifetimes.Older, Lifetimes.ParentsAlive, HandleGraph.Inv, Tangles.Judged, HandleGraph.Handles,
        ScopeWork.Names, ScopeWork.SlotNames, ScopeWork.Ties,
        ScopeWork.TiesAny, ScopeWork.Grown, Tangles.Fine, Tangles.Leads, Tangles.Valued, ScopeWork.Leaks,
        HandleGraph.Survivors, HandleSteps.Pruned, ScopeWork.WellNamed, ScopeWork.SlotsNamed, ScopeWork.Reaching;
      ghost var start := St();
      NothingWorked(start, block);
      JudgedSame(scopes, n, open);
      NoSlots(items, false, scopes, block);
      PlainIsValued(scopes, block, open);
      v, added := Plain, [];
      var i := 0;
      while i < |items|
        invariant 0 <= i <= |items|
        invariant Worked(start, St(), block, added, Handles(v)) && Names(added) == SlotNames(items[..i])
        invariant Judged(start.scopes, scopes, TiesAny(items[..i], false), n, open)
        invariant ReachingLast(items, i) ==> Leads(scopes, v, block, n)
        invariant Fine(start.scopes, n, open) && !TiesAny(items[..i], false) ==>
                    Valued(scopes, v, block, ReachingLast(items, i), open)
      {
        ghost var before := St();
        FreeValue(v);
        ghost var middle := St();
        ItemsFreed(start, before, middle, block, added, v, TiesAny(items[..i], false), n, open);
        GrownAt(start.scopes, scopes, block, added, start.next);
        SlotNamed(items, i);
        NextSlotUnused(items, i, added);
        v := EvalSlot(block, items[i], false, n, open);
        SlotBound(items, i, added, v);
        TiesMore(items, i, false);
        JudgedBoth(start.scopes, middle.scopes, scopes, TiesAny(items[..i], false), Ties(items[i], false), n, open);
        WorkedBoth(start, middle, St(), block, added, SlotEnvs(items[i], v), multiset{}, Handles(v));
        added := added + SlotEnvs(items[i], v);
        i := i + 1;
      }
      assert items[..|items|] == items;
      LastReaching(items);
    }

    /** Keep the inner scope for a moment, pop it, and downgrade its parent when asked to. */
    method LeaveScope(current: Ref, inner: Ref, weakRef: bool)
      requires AtRest() && Strong(inner) in held && inner in scopes
      requires scopes[inner].parent == Some(current) && !scopes[inner].weakRef
      modifies this
      ensures AtRest() && held == old(held) + multiset{Strong(current)} && next == old(next)
      ensures scopes == old(scopes)[inner := old(scopes)[inner].(weakRef := weakRef)]
    {
      hide Lifetimes.Older, Lifetimes.ParentsAlive, HandleGraph.Inv, HandleGraph.Survivors, HandleSteps.Pruned,
        HandleGraph.ScopeHandles;
      HeldIsUsable(St(), Strong(inner));
      var h := Retain(inner);
      NothingDies(St(), held - multiset{Strong(inner)} + multiset{Strong(current)});
      var back := PopScope(inner);
      if weakRef {
        SpareParent(St(), inner, current);
        DowngradeParent(inner);
      }
    }

    /**
    An expression that binds its value to a name where it is evaluated. It keeps ownership free of cycles exactly when
    nothing leaks and, if there is a name, the value does not lead back to the scope in which the name is bound.
    */
    method EvaluateNamed(current: Ref, e: Expr, weakRef: bool) returns (v: Value)
      requires AtRest() && Strong(current) in held && current in scopes && WellNamed(e)
      requires Sugar(e) != "" ==> NameIndex(scopes[current].vars, Sugar(e)) == |scopes[current].vars|
      modifies this
      ensures AtRest() && held == old(held) + Handles(v)
      ensures var added := if Sugar(e) == "" then [] else [Env(Sugar(e), v)];
              Grown(old(scopes), scopes, current, added, old(next))
      ensures Acyclic(scopes) <==>
              && Acyclic(old(scopes)) && !Leaks(e)
              && (Sugar(e) == "" || !Back(scopes[current := old(scopes)[current]], current, Handles(v)))
    {
      hide Lifetimes.Older, Lifetimes.ParentsAlive, HandleGraph.Inv, HandleSteps.NameIndex, Tangles.Judged,
        HandleGraph.Acyclic, Cycles.Back, HandleGraph.Handles,
        ScopeWork.Leaks, ScopeWork.WellNamed, ScopeWork.Grown;
      ghost var start := St();
      v := Evaluate(current, e, weakRef, next, {});
      ghost var made := St();
      NamedCycle(start, made, current, v, Leaks(e), Sugar(e));
      assert made.scopes[current := start.scopes[current]] == made.scopes;
      if Sugar(e) != "" {
        var ok := AddEnv(current, Sugar(e), v);
        assert scopes[current := start.scopes[current]] == made.scopes;
        AddedWorks(start, made, St(), current, [], Env(Sugar(e), v), Handles(v));
        assert [] + [Env(Sugar(e), v)] == [Env(Sugar(e), v)];
      }
    }

    /**
    A function expression. It keeps ownership free of cycles exactly when no default stores a function in the closure
    scope and, if it has a name, its parent is downgraded and nothing bound in the closure leads back.
    */
    method MakeFunction(current: Ref, params: seq<Slot>, weakRef: bool, name: string) returns (fn: Value)
      requires AtRest() && Strong(current) in held && current in scopes && SlotsNamed(params)
      requires name != "" ==> NameIndex(scopes[current].vars, name) == |scopes[current].vars|
      modifies this
      ensures AtRest() && fn == Fn(old(next), false, None) && old(next) !in old(scopes)
      ensures held == old(held) + multiset{Strong(old(next))}
      ensures old(next) in scopes && Names(scopes[old(next)].vars) == SlotNames(params)
      ensures AllSimple(params) ==>
                var vars := DefaultsOf(old(scopes)[old(next) := Scope([], Some(current), false)], old(next), params);
                next == old(next) + 1 && scopes == WithClosure(old(scopes), current, old(next), vars, weakRef, name)
      ensures var made := scopes[current := old(scopes)[current]];
              Acyclic(scopes) <==>
              && Acyclic(old(scopes)) && !TiesAny(params, false)
              && (name == "" || (weakRef && !Back(made, current, EnvHandles(made[old(next)].vars))))
    {
      hide Lifetimes.Older, Lifetimes.ParentsAlive, HandleGraph.Inv, HandleSteps.NameIndex, HandleGraph.EnvHandles,
        ScopeWork.TiesAny, ScopeWork.SlotsNamed,
        HandleGraph.Acyclic, Cycles.Back, Tangles.Judged, ScopeWork.AllSimple, ScopeWork.DefaultsOf, ScopeWork.Names,
        ScopeWork.SlotNames;
      ghost var start := St();
      LiveIsOlder(start, current);
      FreshIsUncounted(start, Strong(next));
      fn := RunObject(current, params, true, weakRef, next, {});
      FunctionHandles(start.next);
      ghost var made := St();
      NamedCycle(start, made, current, fn, TiesAny(params, false), name);
      ObjectBack(made.scopes, current, start.next);
      assert made.scopes[current := start.scopes[current]] == made.scopes;
      if name != "" {
        var ok := AddEnv(current, name, fn);
        assert scopes[current := start.scopes[current]] == made.scopes;
      }
    }

    /**
    An expression evaluated for its effect, its value freed: the heap is what it was exactly when nothing leaks. Leaving
    scopes behind and leaving a cycle are the same.
    */
    method EvaluateAndFree(current: Ref, e: Expr, weakRef: bool)
      requires AtRest() && Strong(current) in held && current in scopes && WellNamed(e) && Sugar(e) == ""
      modifies this
      ensures AtRest() && held == old(held)
      ensures scopes == old(scopes) <==> !Leaks(e)
      ensures Acyclic(scopes) <==> Acyclic(old(scopes)) && !Leaks(e)
    {
      hide Lifetimes.Older, Lifetimes.ParentsAlive, HandleGraph.Inv, HandleGraph.Survivors, HandleSteps.Pruned,
        Tangles.Loose, Tangles.Tangled, HandleGraph.Acyclic,
        HandleGraph.Handles, ScopeWork.Leaks, ScopeWork.WellNamed, ScopeWork.Grown;
      ghost var start := St();
      FineAtStart(start);
      var v := Evaluate(current, e, weakRef, next, {});
      ghost var before := St();
      FreeValue(v);
      FreedOnTheWay(start, before, St(), current, [], Handles(v), multiset{});
      PrunedJudged(before.scopes, held, start.next, {});
      if Leaks(e) {
        TangledRemains(start, scopes);
      } else {
        NothingLeft(start, St(), current);
      }
    }

    /** A block around a bare function, type or instance leaks exactly when that has a name. */
    method BlockDeclaring(current: Ref, weakRef: bool, e: Expr)
      requires AtRest() && Strong(current) in held && current in scopes && Bare(e)
      modifies this
      ensures AtRest() && held == old(held)
      ensures scopes == old(scopes) <==> Sugar(e) == ""
    {
      BlockExamples(e);
      EvaluateAndFree(current, BlockExpr([Slot("", e)]), weakRef);
    }

    /** `fn(f = fn() {}) {}`: two scopes are left behind, whether or not the closure's parent is downgraded. */
    method DefaultFunctionLeaks(current: Ref, weakRef: bool)
      requires AtRest() && Strong(current) in held && current in scopes
      modifies this
      ensures AtRest() && held == old(held)
      ensures scopes != old(scopes) && !Acyclic(scopes)
    {
      FunctionExamples();
      EvaluateAndFree(current, FnExpr("", [Slot("f", FnExpr("", []))]), weakRef);
    }

    /**
    An argument's closure, and the end of the parameter scope it was made in: the closure's parent is the scope `params`
    that is given up here. From then on a name means to the closure what it means to `params` as long as something else
    keeps `params`, and dangles otherwise.
    */
    method ArgumentScopeEnds(params: Ref, name: string) returns (fn: Value, back: Ref, w: Walked)
      requires AtRest() && Strong(params) in held && params in scopes && Older(scopes)
      requires scopes[params].parent.Some? && !scopes[params].weakRef
      modifies this
      ensures AtRest() && fn == Fn(old(next), false, None) && fn.closure in scopes
      ensures back == old(scopes)[params].parent.value
      ensures held == old(held) - multiset{Strong(params)} + multiset{Strong(back)} + multiset{Strong(fn.closure)}
      ensures scopes == Pruned(WithClosure(old(scopes), params, fn.closure, [], true, ""), held)
      ensures params in scopes <==> params in Survivors(old(scopes), held)
      ensures Older(scopes) && w == Walk(scopes, fn.closure, name)
      ensures w == if params in scopes then Walk(scopes, params, name) else Dangling
    {
      hide Lifetimes.Older, Lifetimes.ParentsAlive, HandleGraph.Inv, HandleGraph.Survivors, HandleGraph.ScopeHandles;
      LiveIsOlder(St(), params);
      fn := MakeFunction(params, [], true, "");
      ghost var made := scopes;
      back := PopScope(params);
      ParentOfKeptClosure(old(scopes), params, fn.closure, [], true, held);
      KeptClosureLookup(old(scopes), params, fn.closure, [], true, held, name);
      assert held + EnvHandles([]) == held;
      w := LookupRecursive(fn.closure, name);
    }

    /**
    The smallest such program, `g(fn() { return y })` where `g` returns its argument: `y` is bound in the global scope,
    which is alive, and yet looking it up from the closure that came back reads the freed parameter scope.
    */
    method ReturnedArgumentDangles() returns (fn: Value, global: Ref)
      requires AtRest() && scopes == map[] && held == multiset{}
      modifies this
      ensures AtRest() && fn.Fn? && fn.closure in scopes && Older(scopes)
      ensures Walk(scopes, global, "y") == Found(global) && Walk(scopes, fn.closure, "y") == Dangling
    {
      hide Lifetimes.ParentsAlive, HandleGraph.Inv, HandleGraph.Survivors, HandleGraph.ScopeHandles,
        HandleSteps.WithClosure;
      var params;
      global, params := CallWithGlobal();
      OnlyGlobalIsKept(global, params, next);
      var back, w;
      fn, back, w := ArgumentScopeEnds(params, "y");
      assert held == multiset{Strong(global), Strong(fn.closure)};
      ClosureKeepsScope(map[global := Scope([Env("y", Plain)], None, false)], global, params, fn.closure);
      assert scopes[global].vars == [Env("y", Plain)];
      assert NameIndex([Env("y", Plain)], "y") == 0;
    }

    /** A global scope with `y` in it, and the parameter scope of a call below it. */
    method CallWithGlobal() returns (global: Ref, params: Ref)
      requires AtRest() && scopes == map[] && held == multiset{}
      modifies this
      ensures AtRest() && global < params < next && held == multiset{Strong(params)}
      ensures scopes == map[global := Scope([Env("y", Plain)], None, false)][params := Scope([], Some(global), false)]
    {
      hide Lifetimes.Older, Lifetimes.ParentsAlive, HandleGraph.Inv, HandleGraph.Survivors, HandleGraph.ScopeHandles;
      global := CreateScopeObject(None, false);
      PlainHandles();
      var ok := AddEnv(global, "y", Plain);
      assert [] + [Env("y", Plain)] == [Env("y", Plain)];
      params := PushScope(global);
    }


  }
}
