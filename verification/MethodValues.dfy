/**
What function and instance values keep alive, and a program in which a method outlives its instance:

    type T { var x; fn m() { x = null } }
    var o = T {}
    var f = o.m
    o = null

The method read from `o` carries the instance weakly, so `o = null` destroys the instance while `f` and its closure
stay.
*/
module MethodValues {
  import opened Wrappers
  import opened HandleGraph
  import opened HandleSteps
  import opened Cycles
  import opened ScopeWork
  import opened Lifetimes
  import opened RefCount
  import opened SelfOwnedType

  // ---------------------------------------------------------------------------------------------------
  // Every heap

  /** A function supports its closure, unless it holds that weakly, and never its instance. */
  lemma FunctionSupports(scopes: map<Ref, Scope>, base: multiset<Handle>, c: Ref, i: Option<Ref>)
    ensures Survivors(scopes, base + Handles(Fn(c, false, i))) == Survivors(scopes, base + multiset{Strong(c)})
    ensures Survivors(scopes, base + Handles(NativeFn(c, i))) == Survivors(scopes, base + multiset{Strong(c)})
    ensures Survivors(scopes, base + Handles(Fn(c, true, i))) == Survivors(scopes, base)
  {
    hide Survivors;
    SameStrong(scopes, base + Handles(Fn(c, false, i)), base + multiset{Strong(c)});
    SameStrong(scopes, base + Handles(NativeFn(c, i)), base + multiset{Strong(c)});
    SameStrong(scopes, base + Handles(Fn(c, true, i)), base);
  }

  /** A type or instance supports the type's scope, and its own scope exactly when it is not weak. */
  lemma InstanceSupports(scopes: map<Ref, Scope>, base: multiset<Handle>, i: Ref, t: Option<Ref>)
    ensures var wide := base + if t.Some? then multiset{Strong(t.value)} else multiset{};
            && Survivors(scopes, base + Handles(TypeOrInst(i, true, t))) == Survivors(scopes, wide)
            && Survivors(scopes, base + Handles(TypeOrInst(i, false, t))) ==
               Survivors(scopes, wide + multiset{Strong(i)})
            && (i in scopes ==> i in Survivors(scopes, base + Handles(TypeOrInst(i, false, t))))
  {
    hide Survivors;
    var wide := base + if t.Some? then multiset{Strong(t.value)} else multiset{};
    SameStrong(scopes, base + Handles(TypeOrInst(i, true, t)), wide);
    SameStrong(scopes, base + Handles(TypeOrInst(i, false, t)), wide + multiset{Strong(i)});
    if i in scopes {
      HeldSurvives(scopes, base + Handles(TypeOrInst(i, false, t)), i);
    }
  }

  function WithoutInstance(v: Value): Value {
    match v
    case Fn(c, w, _) => Fn(c, w, None)
    case NativeFn(c, _) => NativeFn(c, None)
    case _ => v
  }

  function WithoutInstances(vars: seq<Env>): (bare: seq<Env>)
    ensures |bare| == |vars|
  {
    seq(|vars|, i requires 0 <= i < |vars| => Env(vars[i].name, WithoutInstance(vars[i].value)))
  }

  function HeapWithout(scopes: map<Ref, Scope>): map<Ref, Scope> {
    map r | r in scopes :: scopes[r].(vars := WithoutInstances(scopes[r].vars))
  }

  lemma {:induction false} SameOwned(vars: seq<Env>, h: Handle)
    requires h.Strong?
    ensures h in EnvHandles(vars) <==> h in EnvHandles(WithoutInstances(vars))
  {
    if vars != [] {
      assert WithoutInstances(vars)[1..] == WithoutInstances(vars[1..]);
      assert WithoutInstances(vars)[0].value == WithoutInstance(vars[0].value);
      SameOwnedByValue(vars[0].value, h);
      hide WithoutInstances, WithoutInstance, Handles;
      SameOwned(vars[1..], h);
    }
  }

  lemma SameOwnedByValue(v: Value, h: Handle)
    requires h.Strong?
    ensures h in Handles(v) <==> h in Handles(WithoutInstance(v))
  {
  }

  /** The instances that functions carry keep nothing alive, wherever the functions are bound. */
  lemma InstancesKeepNothing(scopes: map<Ref, Scope>, base: multiset<Handle>)
    ensures Survivors(HeapWithout(scopes), base) == Survivors(scopes, base)
  {
    var bare := HeapWithout(scopes);
    forall a, b ensures Owns(bare, a, b) <==> Owns(scopes, a, b) {
      if a in scopes {
        SameOwned(scopes[a].vars, Strong(b));
      }
    }
    hide HeapWithout, Owns;
    SameOwners(bare, scopes, base);
    SameOwners(scopes, bare, base);
  }

  lemma SameOwners(a: map<Ref, Scope>, b: map<Ref, Scope>, base: multiset<Handle>)
    requires a.Keys == b.Keys && forall j, k :: Owns(a, j, k) <==> Owns(b, j, k)
    ensures Survivors(a, base) <= Survivors(b, base)
  {
    hide Survivors, Owns;
    SurvivorsSupported(a, base);
    forall k | k in Survivors(a, base) ensures HasOwner(b, Survivors(a, base), base, k) {
      assert HasOwner(a, Survivors(a, base), base, k);
    }
    SurvivorsLargest(b, Survivors(a, base), base);
  }

  // ---------------------------------------------------------------------------------------------------
  // The program

  function Instance(i: Ref, t: Ref): Value {
    TypeOrInst(i, false, Some(t))
  }

  function BoundMethod(c: Ref, i: Ref): Value {
    Fn(c, false, Some(i))
  }

  function InstanceScope(g: Ref, t: Ref, i: Ref): Scope {
    Scope([Env("self", TypeOrInst(i, true, Some(t)))], Some(g), true)
  }

  function Heap1(g: Ref, t: Ref, c: Ref, i: Ref, more: seq<Env>): map<Ref, Scope> {
    Heap0(g, t, c, [Env("T", Type(t))] + more, Plain)[i := InstanceScope(g, t, i)]
  }

  lemma HeapScopes(g: Ref, t: Ref, c: Ref, i: Ref, more: seq<Env>)
    requires g < t < c < i
    ensures var h := Heap1(g, t, c, i, more);
            && h.Keys == {g, t, c, i} && h[g] == Scope([Env("T", Type(t))] + more, None, false)
            && h[t] == TypeScope(g, c, Plain) && h[c] == Scope([], Some(t), true) && h[i] == InstanceScope(g, t, i)
  {
  }

  /** The heap with other bindings in the global scope. */
  lemma Rebound(g: Ref, t: Ref, c: Ref, i: Ref, before: seq<Env>, after: seq<Env>)
    requires g < t < c < i
    ensures Heap1(g, t, c, i, before)[g := Scope([Env("T", Type(t))] + after, None, false)] == Heap1(g, t, c, i, after)
  {
    HeapScopes(g, t, c, i, before);
    HeapScopes(g, t, c, i, after);
    hide Heap1, TypeScope, InstanceScope;
  }

  lemma OneMore(g: Ref, t: Ref, c: Ref, i: Ref, before: seq<Env>, e: Env)
    requires g < t < c < i
    ensures Heap1(g, t, c, i, before)[g := AddVar(Heap1(g, t, c, i, before)[g], e)] == Heap1(g, t, c, i, before + [e])
  {
    HeapScopes(g, t, c, i, before);
    Rebound(g, t, c, i, before, before + [e]);
    assert [Env("T", Type(t))] + (before + [e]) == [Env("T", Type(t))] + before + [e];
    hide Heap1, TypeScope, InstanceScope;
  }

  /** The scope of a new instance, with its weak `self`, left behind; the instance is in a C variable. */
  method MakeInstance(h: Heap, g: Ref, t: Ref, c: Ref) returns (i: Ref)
    requires h.AtRest() && g < t < c < h.next && h.held == multiset{Strong(g), Strong(g)}
    requires h.scopes == Heap0(g, t, c, [Env("T", Type(t))], Plain)
    modifies h
    ensures h.AtRest() && i == old(h.next) && h.next == i + 1
    ensures h.held == multiset{Strong(g), Strong(g)} + Handles(Instance(i, t))
    ensures h.scopes == Heap1(g, t, c, i, [])
  {
    hide Lifetimes.Older, Lifetimes.ParentsAlive, HandleGraph.Inv, HandleGraph.Survivors, HandleSteps.Pruned,
      HandleGraph.ScopeHandles, HandleGraph.EnvHandles, HandleGraph.Handles;
    var typeScope := h.KeepType(g, 0);
    i := OpenInstance(h, g, t);
    h.LeaveScope(g, i, true);
    SelfHandles(i, Some(t));
    assert h.scopes == old(h.scopes)[i := InstanceScope(g, t, i)];
    NewInstance(old(h.scopes), h.scopes, g, t, c, i);
  }

  method OpenInstance(h: Heap, g: Ref, t: Ref) returns (i: Ref)
    requires h.AtRest() && g in h.scopes && Strong(g) in h.held && Strong(t) in h.held && g != t
    modifies h
    ensures h.AtRest() && i == old(h.next) && i !in old(h.scopes) && h.next == i + 1
    ensures h.held == old(h.held) - multiset{Strong(g)} + multiset{Strong(i)}
    ensures h.scopes == old(h.scopes)[i := InstanceScope(g, t, i).(weakRef := false)]
  {
    hide Lifetimes.Older, Lifetimes.ParentsAlive, HandleGraph.Inv, HandleGraph.Survivors, HandleSteps.Pruned,
      HandleGraph.ScopeHandles, HandleGraph.EnvHandles, HandleGraph.Handles;
    i := h.PushScope(g);
    BindWeakSelf(h, i, t);
    assert [] + [Env("self", TypeOrInst(i, true, Some(t)))] == [Env("self", TypeOrInst(i, true, Some(t)))];
    assert h.scopes[i] == InstanceScope(g, t, i).(weakRef := false);
  }

  lemma NewInstance(before: map<Ref, Scope>, after: map<Ref, Scope>, g: Ref, t: Ref, c: Ref, i: Ref)
    requires g < t < c < i && before == Heap0(g, t, c, [Env("T", Type(t))], Plain)
    requires after == before[i := InstanceScope(g, t, i)]
    ensures after == Heap1(g, t, c, i, [])
  {
    assert [Env("T", Type(t))] + [] == [Env("T", Type(t))];
  }

  method BindWeakSelf(h: Heap, i: Ref, t: Ref)
    requires h.AtRest() && i in h.scopes && h.scopes[i].vars == [] && Strong(i) in h.held && Strong(t) in h.held
    modifies h
    ensures h.AtRest() && h.next == old(h.next) && h.held == old(h.held)
    ensures h.scopes == old(h.scopes)[i := AddVar(old(h.scopes)[i], Env("self", TypeOrInst(i, true, Some(t))))]
  {
    hide Lifetimes.Older, Lifetimes.ParentsAlive, HandleGraph.Inv, HandleGraph.Survivors, HandleSteps.Pruned,
      HandleGraph.ScopeHandles, HandleGraph.EnvHandles, HandleGraph.Handles;
    var self := h.MakeSelf(i, Some(t));
    var ok := h.AddEnv(i, "self", self);
    BoundElsewhere(h.St(), i, self, h.held - Handles(self));
    NothingDies(h.St(), h.held - Handles(self));
    h.FreeValue(self);
  }

  /** `var o = T {}`. */
  method DeclareInstance(h: Heap, g: Ref, t: Ref, c: Ref) returns (i: Ref)
    requires h.AtRest() && g < t < c < h.next && h.held == multiset{Strong(g), Strong(g)}
    requires h.scopes == Heap0(g, t, c, [Env("T", Type(t))], Plain)
    modifies h
    ensures h.AtRest() && c < i < h.next && h.held == multiset{Strong(g), Strong(g)}
    ensures h.scopes == Heap1(g, t, c, i, [Env("o", Instance(i, t))])
  {
    hide Lifetimes.Older, Lifetimes.ParentsAlive, HandleGraph.Inv, HandleGraph.Survivors, HandleSteps.Pruned,
      HandleGraph.ScopeHandles, HandleGraph.EnvHandles, HandleGraph.Handles;
    i := MakeInstance(h, g, t, c);
    HeapScopes(g, t, c, i, []);
    NameValue(h, g, "o", Instance(i, t));
    OneMore(g, t, c, i, [], Env("o", Instance(i, t)));
    assert [] + [Env("o", Instance(i, t))] == [Env("o", Instance(i, t))];
  }

  /** The value of a declaration is bound, and then freed. */
  method NameValue(h: Heap, g: Ref, name: string, v: Value)
    requires h.AtRest() && g in h.scopes && Handles(v) <= h.held
    requires NameIndex(h.scopes[g].vars, name) == |h.scopes[g].vars|
    modifies h
    ensures h.AtRest() && h.next == old(h.next) && h.held == old(h.held) - Handles(v)
    ensures h.scopes == old(h.scopes)[g := AddVar(old(h.scopes)[g], Env(name, v))]
  {
    hide Lifetimes.Older, Lifetimes.ParentsAlive, HandleGraph.Inv, HandleGraph.Survivors, HandleSteps.Pruned,
      HandleGraph.ScopeHandles, HandleGraph.EnvHandles, HandleGraph.Handles;
    var ok := h.AddEnv(g, name, v);
    BoundElsewhere(h.St(), g, v, h.held - Handles(v));
    NothingDies(h.St(), h.held - Handles(v));
    h.FreeValue(v);
  }

  /** `var f = o.m`: the method is copied from the type and given a weak handle to the instance. */
  method TakeBoundMethod(h: Heap, g: Ref, t: Ref, c: Ref, i: Ref)
    requires h.AtRest() && g < t < c < i < h.next && h.held == multiset{Strong(g), Strong(g)}
    requires h.scopes == Heap1(g, t, c, i, [Env("o", Instance(i, t))])
    modifies h
    ensures h.AtRest() && h.next == old(h.next) && h.held == old(h.held)
    ensures h.scopes == Heap1(g, t, c, i, [Env("o", Instance(i, t)), Env("f", BoundMethod(c, i))])
  {
    hide Lifetimes.Older, Lifetimes.ParentsAlive, HandleGraph.Inv, HandleGraph.Survivors, HandleSteps.Pruned,
      HandleGraph.ScopeHandles, HandleGraph.EnvHandles, HandleGraph.Handles;
    ghost var o := Env("o", Instance(i, t));
    HeapScopes(g, t, c, i, [o]);
    OneMore(g, t, c, i, [o], Env("f", BoundMethod(c, i)));
    assert [o] + [Env("f", BoundMethod(c, i))] == [o, Env("f", BoundMethod(c, i))];
    hide Heap1;
    OwnedIsAround(h.St(), g);
    BoundHandles(h.scopes[g], 1);
    var owner := h.CopyValue(Instance(i, t));
    SelfHandles(i, Some(t));
    ReadMethod(h, t, c, i);
    NameValue(h, g, "f", BoundMethod(c, i));
    BoundAgain(h.St(), g, 1, owner);
    h.FreeValue(owner);
  }

  method ReadMethod(h: Heap, t: Ref, c: Ref, i: Ref)
    requires h.AtRest() && t in h.scopes && |h.scopes[t].vars| == 2 && h.scopes[t].vars[1].value == Method(c)
    requires Strong(i) in h.held
    modifies h
    ensures h.AtRest() && h.next == old(h.next) && h.scopes == old(h.scopes)
    ensures h.held == old(h.held) + Handles(BoundMethod(c, i))
  {
    hide Lifetimes.Older, Lifetimes.ParentsAlive, HandleGraph.Inv, HandleGraph.ScopeHandles, HandleGraph.EnvHandles,
      HandleGraph.Handles;
    OwnedIsAround(h.St(), t);
    BoundHandles(h.scopes[t], 1);
    var m := h.CopyValue(Method(c));
    HeldIsUsable(h.St(), Strong(i));
    var instance := h.RetainWeak(i);
    BoundMethodHandles(c, i);
  }

  lemma BoundMethodHandles(c: Ref, i: Ref)
    ensures Handles(BoundMethod(c, i)) == Handles(Method(c)) + multiset{Weak(i)}
    ensures Handles(BoundMethod(c, i)) == multiset{Strong(c), Weak(i)}
  {
  }

  /** What a binding owns has an owner. */
  lemma BoundAgain(s: State, r: Ref, j: nat, v: Value)
    requires Inv(s) && s.dying == {} && r in s.scopes && j < |s.scopes[r].vars| && s.scopes[r].vars[j].value == v
    ensures Pruned(s.scopes, s.held - Handles(v)) == s.scopes
  {
    BoundHandles(s.scopes[r], j);
    var base := s.held - Handles(v);
    forall k | Strong(k) in s.held ensures HasOwner(s.scopes, s.scopes.Keys, base, k) {
      GivenUp(s.held, Handles(v), Strong(k));
      if Strong(k) in Handles(v) {
        InAndOut(Handles(v), ScopeHandles(s.scopes[r]), Strong(k));
        assert Owns(s.scopes, r, k);
      }
    }
    NothingDies(s, base);
  }

  /** `o = null`. */
  method ForgetInstance(h: Heap, g: Ref, t: Ref, c: Ref, i: Ref)
    requires h.AtRest() && g < t < c < i < h.next && h.held == multiset{Strong(g), Strong(g)}
    requires h.scopes == Heap1(g, t, c, i, [Env("o", Instance(i, t)), Env("f", BoundMethod(c, i))])
    modifies h
    ensures h.AtRest() && h.held == old(h.held)
    ensures h.scopes == Heap0(g, t, c, [Env("T", Type(t)), Env("o", Plain), Env("f", BoundMethod(c, i))], Plain)
  {
    hide Lifetimes.Older, Lifetimes.ParentsAlive, HandleGraph.Inv, HandleGraph.Survivors, HandleSteps.Pruned,
      HandleGraph.ScopeHandles, HandleGraph.EnvHandles, HandleGraph.Handles;
    ghost var left := Heap1(g, t, c, i, [Env("o", Plain), Env("f", BoundMethod(c, i))]);
    ghost var now := Heap0(g, t, c, [Env("T", Type(t)), Env("o", Plain), Env("f", BoundMethod(c, i))], Plain);
    Forgotten(h.scopes, g, t, c, i);
    InstanceGoes(g, t, c, i, h.held);
    PlainHandles();
    var safe := h.AssignValue(g, 1, Plain);
    assert now[g].vars[1 := Env("o", Plain)] == now[g].vars;
  }

  lemma Forgotten(scopes: map<Ref, Scope>, g: Ref, t: Ref, c: Ref, i: Ref)
    requires g < t < c < i
    requires scopes == Heap1(g, t, c, i, [Env("o", Instance(i, t)), Env("f", BoundMethod(c, i))])
    ensures Cleared(scopes, g, 1) == Heap1(g, t, c, i, [Env("o", Plain), Env("f", BoundMethod(c, i))])
  {
    var f := Env("f", BoundMethod(c, i));
    var before, after := [Env("o", Instance(i, t)), f], [Env("o", Plain), f];
    HeapScopes(g, t, c, i, before);
    Rebound(g, t, c, i, before, after);
    assert ([Env("T", Type(t))] + before)[1 := Env("o", Plain)] == [Env("T", Type(t))] + after;
    hide Heap1;
  }

  lemma GlobalHandles(t: Ref, c: Ref, i: Ref)
    ensures ScopeHandles(Scope([Env("T", Type(t)), Env("o", Plain), Env("f", BoundMethod(c, i))], None, false)) ==
            multiset{Strong(t), Strong(c), Weak(i)}
  {
    var vars := [Env("T", Type(t)), Env("o", Plain), Env("f", BoundMethod(c, i))];
    assert vars[1..] == [Env("o", Plain), Env("f", BoundMethod(c, i))];
    TwoHandles(vars[1], vars[2]);
    PlainHandles();
    BoundMethodHandles(c, i);
  }

  lemma InstanceScopeHandles(g: Ref, t: Ref, i: Ref)
    ensures ScopeHandles(InstanceScope(g, t, i)) == multiset{Weak(i), Strong(t), Weak(g)}
  {
    OneHandle(TypeOrInst(i, true, Some(t)), "self");
    SelfHandles(i, Some(t));
  }

  /** What each scope of the four owns. */
  predicate FourOwners(h: map<Ref, Scope>, g: Ref, t: Ref, c: Ref, i: Ref) {
    && h.Keys == {g, t, c, i}
    && ScopeHandles(h[g]) == multiset{Strong(t), Strong(c), Weak(i)}
    && ScopeHandles(h[t]) == multiset{Strong(c), Weak(g)}
    && ScopeHandles(h[c]) == multiset{Weak(t)}
    && ScopeHandles(h[i]) == multiset{Weak(i), Strong(t), Weak(g)}
  }

  lemma FourScopes(g: Ref, t: Ref, c: Ref, i: Ref)
    requires g < t < c < i
    ensures FourOwners(Heap1(g, t, c, i, [Env("o", Plain), Env("f", BoundMethod(c, i))]), g, t, c, i)
  {
    var after := [Env("o", Plain), Env("f", BoundMethod(c, i))];
    assert [Env("T", Type(t))] + after == [Env("T", Type(t)), Env("o", Plain), Env("f", BoundMethod(c, i))];
    HeapScopes(g, t, c, i, after);
    hide HandleGraph.ScopeHandles, HandleGraph.Handles, Heap1, TypeScope, InstanceScope;
    GlobalHandles(t, c, i);
    InstanceScopeHandles(g, t, i);
    TypeOwns(g, c, Plain);
    PlainHandles();
    EmptyOwns(t, true);
  }

  /** Everything but the instance survives. */
  lemma OnlyInstanceGoes(h: map<Ref, Scope>, g: Ref, t: Ref, c: Ref, i: Ref, base: multiset<Handle>)
    requires g < t < c < i && FourOwners(h, g, t, c, i) && base == multiset{Strong(g), Strong(g)}
    ensures Survivors(h, base) == {g, t, c}
  {
    hide HandleGraph.ScopeHandles, HandleGraph.Survivors;
    assert Owns(h, g, t) && Owns(h, g, c);
    SurvivorsLargest(h, {g, t, c}, base) by {
      forall k | k in {g, t, c} ensures HasOwner(h, {g, t, c}, base, k) {
      }
    }
    SurvivorsSupported(h, base);
    assert i !in Survivors(h, base) by {
      assert forall a :: a in Survivors(h, base) ==> !Owns(h, a, i);
      assert i in Survivors(h, base) ==> HasOwner(h, Survivors(h, base), base, i);
    }
  }

  lemma InstanceGoes(g: Ref, t: Ref, c: Ref, i: Ref, base: multiset<Handle>)
    requires g < t < c < i && base == multiset{Strong(g), Strong(g)}
    ensures Pruned(Heap1(g, t, c, i, [Env("o", Plain), Env("f", BoundMethod(c, i))]), base) ==
            Heap0(g, t, c, [Env("T", Type(t)), Env("o", Plain), Env("f", BoundMethod(c, i))], Plain)
    ensures g in Survivors(Heap1(g, t, c, i, [Env("o", Plain), Env("f", BoundMethod(c, i))]), base)
  {
    var after := [Env("o", Plain), Env("f", BoundMethod(c, i))];
    FourScopes(g, t, c, i);
    OnlyInstanceGoes(Heap1(g, t, c, i, after), g, t, c, i, base);
    assert [Env("T", Type(t))] + after == [Env("T", Type(t)), Env("o", Plain), Env("f", BoundMethod(c, i))];
    hide HandleGraph.Survivors, FourOwners;
    HeapScopes(g, t, c, i, after);
  }

  /** The callee of `f()`, and what becomes of its instance. */
  method ReadCallee(h: Heap, g: Ref, c: Ref, i: Ref) returns (callee: Value, instance: Option<Ref>)
    requires h.AtRest() && g in h.scopes && |h.scopes[g].vars| == 3 && h.scopes[g].vars[2].value == BoundMethod(c, i)
    requires i !in h.scopes
    modifies h
    ensures h.AtRest() && h.scopes == old(h.scopes) && callee == BoundMethod(c, i) && instance == None
    ensures h.held == old(h.held) + Handles(callee)
  {
    hide Lifetimes.Older, Lifetimes.ParentsAlive, HandleGraph.Inv, HandleGraph.ScopeHandles, HandleGraph.EnvHandles,
      HandleGraph.Handles;
    OwnedIsAround(h.St(), g);
    BoundHandles(h.scopes[g], 2);
    callee := h.CopyValue(BoundMethod(c, i));
    BoundMethodHandles(c, i);
    HeldIsUsable(h.St(), Weak(i));
    instance := h.Retain(i);
  }

  /**
  The whole program, and the callee of a call `f()` afterwards: the method and its closure are there, the instance is
  not, and it cannot be retained any more.
  */
  method MethodOutlives(h: Heap) returns (g: Ref, c: Ref, i: Ref, callee: Value, instance: Option<Ref>)
    requires h.AtRest() && h.scopes == map[] && h.held == multiset{}
    modifies h
    ensures h.AtRest() && h.held == multiset{Strong(g), Strong(g)} + Handles(callee)
    ensures callee == Fn(c, false, Some(i)) && c in h.scopes && i !in h.scopes && instance == None
    ensures g in h.scopes && |h.scopes[g].vars| == 3 && h.scopes[g].vars[2] == Env("f", callee)
  {
    hide Lifetimes.Older, Lifetimes.ParentsAlive, HandleGraph.Inv, HandleGraph.Survivors, HandleSteps.Pruned,
      HandleGraph.ScopeHandles, HandleGraph.EnvHandles, HandleGraph.Handles;
    var t;
    g, t, c := DeclareType(h);
    i := DeclareInstance(h, g, t, c);
    TakeBoundMethod(h, g, t, c, i);
    ForgetInstance(h, g, t, c, i);
    callee, instance := ReadCallee(h, g, c, i);
  }
}
