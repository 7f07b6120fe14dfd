/**
A program whose last assignment writes to a freed binding:

    type T {
      var x
      fn m() { x = null }
    }
    T.x = T
    var f = T.m
    T = null
    f()

After `T = null` the type lives only through its own member. The method does not own it, because members are downgraded,
but looks `x` up through its weak parent, which is still alive. Assigning `x` frees the old value, which destroys the
type; its finalizer frees the same value again, and then the new value is written.
*/
module SelfOwnedType {
  import opened Wrappers
  import opened HandleGraph
  import opened HandleSteps
  import opened Cycles
  import opened ScopeWork
  import opened Lifetimes
  import opened RefCount

  function Method(c: Ref): Value {
    Fn(c, false, None)
  }

  function Type(t: Ref): Value {
    TypeOrInst(t, false, None)
  }

  function TypeScope(g: Ref, c: Ref, x: Value): Scope {
    Scope([Env("x", x), Env("m", Method(c))], Some(g), true)
  }

  function Heap0(g: Ref, t: Ref, c: Ref, globals: seq<Env>, x: Value): map<Ref, Scope> {
    map[g := Scope(globals, None, false), t := TypeScope(g, c, x), c := Scope([], Some(t), true)]
  }

  lemma OneHandle(v: Value, name: string)
    ensures EnvHandles([Env(name, v)]) == Handles(v)
  {
    assert [Env(name, v)][1..] == [];
  }

  lemma TwoHandles(a: Env, b: Env)
    ensures EnvHandles([a, b]) == Handles(a.value) + Handles(b.value)
  {
    assert [a, b][1..] == [b];
    OneHandle(b.value, b.name);
  }

  /** What the type's scope owns. */
  lemma TypeOwns(g: Ref, c: Ref, x: Value)
    ensures ScopeHandles(TypeScope(g, c, x)) == Handles(x) + multiset{Strong(c)} + multiset{Weak(g)}
  {
    TwoHandles(Env("x", x), Env("m", Method(c)));
    FunctionHandles(c);
  }

  /** `type T { ... }` at top level: members and the type itself are evaluated with `weak_ref` on. */
  method DeclareType(h: Heap) returns (g: Ref, t: Ref, c: Ref)
    requires h.AtRest() && h.scopes == map[] && h.held == multiset{}
    modifies h
    ensures h.AtRest() && g < t < c < h.next && h.held == multiset{Strong(g), Strong(g)}
    ensures h.scopes == Heap0(g, t, c, [Env("T", Type(t))], Plain)
  {
    hide Lifetimes.Older, Lifetimes.ParentsAlive, HandleGraph.Inv, HandleGraph.Survivors, HandleSteps.Pruned,
      HandleGraph.ScopeHandles, HandleGraph.EnvHandles;
    g, t := OpenType(h);
    c := DeclareMethod(h, g, t);
    h.LeaveScope(g, t, true);
    assert h.scopes == Heap0(g, t, c, [], Plain);
    NameType(h, g, t, c);
  }

  /** The global scope, and the scope of the type with its first member. */
  method OpenType(h: Heap) returns (g: Ref, t: Ref)
    requires h.AtRest() && h.scopes == map[] && h.held == multiset{}
    modifies h
    ensures h.AtRest() && g < t < h.next && h.held == multiset{Strong(g), Strong(t)}
    ensures h.scopes == map[g := Scope([], None, false), t := Scope([Env("x", Plain)], Some(g), false)]
  {
    hide Lifetimes.Older, Lifetimes.ParentsAlive, HandleGraph.Inv, HandleGraph.Survivors, HandleSteps.Pruned,
      HandleGraph.ScopeHandles, HandleGraph.EnvHandles;
    g := h.CreateScopeObject(None, false);
    HeldIsUsable(h.St(), Strong(g));
    var global := h.Retain(g);
    t := h.PushScope(g);
    PlainHandles();
    var ok := h.AddEnv(t, "x", Plain);
    assert [] + [Env("x", Plain)] == [Env("x", Plain)];
  }

  /** The name of the type is bound, and its value freed. */
  method NameType(h: Heap, g: Ref, t: Ref, c: Ref)
    requires h.AtRest() && g < t < c < h.next && h.held == multiset{Strong(g), Strong(t)} + multiset{Strong(g)}
    requires h.scopes == Heap0(g, t, c, [], Plain)
    modifies h
    ensures h.AtRest() && h.next == old(h.next) && h.held == multiset{Strong(g), Strong(g)}
    ensures h.scopes == Heap0(g, t, c, [Env("T", Type(t))], Plain)
  {
    hide Lifetimes.Older, Lifetimes.ParentsAlive, HandleGraph.Inv, HandleGraph.Survivors, HandleSteps.Pruned,
      HandleGraph.ScopeHandles, HandleGraph.EnvHandles;
    assert Handles(Type(t)) == multiset{Strong(t)};
    var ok := h.AddEnv(g, "T", Type(t));
    assert [] + [Env("T", Type(t))] == [Env("T", Type(t))];
    assert h.scopes == Heap0(g, t, c, [Env("T", Type(t))], Plain);
    TypeStaysBound(h.St(), g, t, c);
    h.FreeValue(Type(t));
  }

  /** `fn m() { ... }` as a member. */
  method DeclareMethod(h: Heap, g: Ref, t: Ref) returns (c: Ref)
    requires h.AtRest() && g < t < h.next && h.held == multiset{Strong(g), Strong(t)}
    requires h.scopes == map[g := Scope([], None, false), t := Scope([Env("x", Plain)], Some(g), false)]
    modifies h
    ensures h.AtRest() && c == old(h.next) && h.next == c + 1 && h.held == multiset{Strong(g), Strong(t)}
    ensures h.scopes == map[g := Scope([], None, false),
                            t := Scope([Env("x", Plain), Env("m", Method(c))], Some(g), false),
                            c := Scope([], Some(t), true)]
  {
    hide Lifetimes.Older, Lifetimes.ParentsAlive, HandleGraph.Inv, HandleGraph.Survivors, HandleSteps.Pruned,
      HandleGraph.ScopeHandles, HandleGraph.EnvHandles,
      HandleGraph.Acyclic, Cycles.Back;
    assert "x" != "m";
    assert SlotNames([]) == [];
    ghost var start := h.St();
    var m := h.MakeFunction(t, [], true, "m");
    c := m.closure;
    FunctionHandles(c);
    assert [Env("x", Plain)] + [Env("m", m)] == [Env("x", Plain), Env("m", m)];
    ghost var made := h.St();
    BoundElsewhere(made, t, m, start.held);
    NothingDies(made, start.held);
    h.FreeValue(m);
  }

  lemma TypeStaysBound(s: State, g: Ref, t: Ref, c: Ref)
    requires Inv(s) && s.dying == {} && s.scopes == Heap0(g, t, c, [Env("T", Type(t))], Plain) && g < t < c
    ensures Pruned(s.scopes, s.held - Handles(Type(t))) == s.scopes
  {
    hide Lifetimes.Older, Lifetimes.ParentsAlive, HandleGraph.Inv, HandleGraph.Survivors, HandleSteps.Pruned;
    BoundElsewhere(s, g, Type(t), s.held - Handles(Type(t)));
    NothingDies(s, s.held - Handles(Type(t)));
  }

  /** `T.x = T`. */
  method StoreItself(h: Heap, g: Ref, t: Ref, c: Ref)
    requires h.AtRest() && g < t < c < h.next && h.held == multiset{Strong(g), Strong(g)}
    requires h.scopes == Heap0(g, t, c, [Env("T", Type(t))], Plain)
    modifies h
    ensures h.AtRest() && h.next == old(h.next) && h.held == old(h.held)
    ensures h.scopes == Heap0(g, t, c, [Env("T", Type(t))], Type(t))
  {
    hide Lifetimes.Older, Lifetimes.ParentsAlive, HandleGraph.Inv, HandleGraph.Survivors, HandleSteps.Pruned,
      HandleGraph.ScopeHandles, HandleGraph.EnvHandles;
    OwnedIsAround(h.St(), g);
    BoundHandles(h.scopes[g], 0);
    var v := h.CopyValue(Type(t));
    SetMember(h, g, t, c);
    BoundElsewhere(h.St(), g, Type(t), old(h.held));
    NothingDies(h.St(), old(h.held));
    h.FreeValue(v);
  }

  /** The old value, null, owns nothing. */
  method SetMember(h: Heap, g: Ref, t: Ref, c: Ref)
    requires h.AtRest() && g < t < c < h.next && Handles(Type(t)) <= h.held
    requires h.scopes == Heap0(g, t, c, [Env("T", Type(t))], Plain)
    modifies h
    ensures h.AtRest() && h.next == old(h.next) && h.held == old(h.held)
    ensures h.scopes == Heap0(g, t, c, [Env("T", Type(t))], Type(t))
  {
    hide Lifetimes.Older, Lifetimes.ParentsAlive, HandleGraph.Inv, HandleGraph.Survivors, HandleSteps.Pruned,
      HandleGraph.ScopeHandles, HandleGraph.EnvHandles,
      HandleGraph.Handles;
    ghost var before := h.scopes;
    assert before[t].vars == [Env("x", Plain), Env("m", Method(c))];
    assert before[t].vars[0 := Env("x", Plain)] == before[t].vars;
    assert Cleared(before, t, 0) == before;
    NothingDies(h.St(), h.held);
    PrunedIsSurvivors(before, h.held, t);
    var safe := h.AssignValue(t, 0, Type(t));
    assert before[t].vars[0 := Env("x", Type(t))] == [Env("x", Type(t)), Env("m", Method(c))];
    assert h.scopes[t] == TypeScope(g, c, Type(t));
  }

  lemma PrunedIsSurvivors(scopes: map<Ref, Scope>, base: multiset<Handle>, r: Ref)
    requires Pruned(scopes, base) == scopes && r in scopes
    ensures r in Survivors(scopes, base)
  {
  }

  /** `var f = T.m`: a method taken from a type carries no instance. */
  method TakeMethod(h: Heap, g: Ref, t: Ref, c: Ref)
    requires h.AtRest() && g < t < c < h.next && h.held == multiset{Strong(g), Strong(g)}
    requires h.scopes == Heap0(g, t, c, [Env("T", Type(t))], Type(t))
    modifies h
    ensures h.AtRest() && h.next == old(h.next) && h.held == old(h.held)
    ensures h.scopes == Heap0(g, t, c, [Env("T", Type(t)), Env("f", Method(c))], Type(t))
  {
    hide Lifetimes.Older, Lifetimes.ParentsAlive, HandleGraph.Inv, HandleGraph.Survivors, HandleSteps.Pruned,
      HandleGraph.ScopeHandles, HandleGraph.EnvHandles;
    ghost var start := h.St();
    OwnedIsAround(h.St(), t);
    BoundHandles(h.scopes[t], 1);
    var v := h.CopyValue(Method(c));
    assert "T" != "f";
    var ok := h.AddEnv(g, "f", Method(c));
    assert [Env("T", Type(t))] + [Env("f", Method(c))] == [Env("T", Type(t)), Env("f", Method(c))];
    assert h.scopes == Heap0(g, t, c, [Env("T", Type(t)), Env("f", Method(c))], Type(t));
    BoundElsewhere(h.St(), g, Method(c), start.held);
    NothingDies(h.St(), start.held);
    h.FreeValue(v);
  }

  /** `T = null`: from now on the type has no owner but itself. */
  method ForgetType(h: Heap, g: Ref, t: Ref, c: Ref)
    requires h.AtRest() && g < t < c < h.next && h.held == multiset{Strong(g), Strong(g)}
    requires h.scopes == Heap0(g, t, c, [Env("T", Type(t)), Env("f", Method(c))], Type(t))
    modifies h
    ensures h.AtRest() && h.next == old(h.next) && h.held == old(h.held)
    ensures h.scopes == Heap0(g, t, c, [Env("T", Plain), Env("f", Method(c))], Type(t))
  {
    hide Lifetimes.Older, Lifetimes.ParentsAlive, HandleGraph.Inv, HandleGraph.Survivors, HandleSteps.Pruned,
      HandleGraph.ScopeHandles, HandleGraph.EnvHandles;
    PlainHandles();
    ghost var left := Heap0(g, t, c, [Env("T", Plain), Env("f", Method(c))], Type(t));
    assert Cleared(h.scopes, g, 0) == left by {
      assert h.scopes[g].vars[0 := Env("T", Plain)] == left[g].vars;
    }
    AllSupported(g, t, c, h.held);
    PrunedIsSurvivors(left, h.held, g);
    var safe := h.AssignValue(g, 0, Plain);
    assert left[g].vars[0 := Env("T", Plain)] == left[g].vars;
  }

  lemma AllSupported(g: Ref, t: Ref, c: Ref, base: multiset<Handle>)
    requires g < t < c && Strong(g) in base
    ensures var left := Heap0(g, t, c, [Env("T", Plain), Env("f", Method(c))], Type(t));
            Pruned(left, base) == left
  {
    var left := Heap0(g, t, c, [Env("T", Plain), Env("f", Method(c))], Type(t));
    TypeOwns(g, c, Type(t));
    assert Handles(Type(t)) == multiset{Strong(t)};
    hide HandleGraph.ScopeHandles, HandleGraph.Survivors, HandleGraph.Handles;
    assert Owns(left, t, t) && Owns(left, t, c);
    forall k | k in left.Keys ensures HasOwner(left, left.Keys, base, k) {
      assert k == g || k == t || k == c;
    }
    SurvivorsLargest(left, left.Keys, base);
  }

  /** `f()` up to the assignment in its body: the parameter scope below the closure, the block's scope below that. */
  method CallMethod(h: Heap, g: Ref, t: Ref, c: Ref) returns (p: Ref, b: Ref)
    requires h.AtRest() && g < t < c < h.next && h.held == multiset{Strong(g), Strong(g)}
    requires h.scopes == Heap0(g, t, c, [Env("T", Plain), Env("f", Method(c))], Type(t))
    modifies h
    ensures h.AtRest() && c < p < b && h.held == multiset{Strong(g), Strong(g), Strong(c), Strong(b)}
    ensures h.scopes == Heap0(g, t, c, [Env("T", Plain), Env("f", Method(c))], Type(t))
                        [p := Scope([], Some(c), false)][b := Scope([], Some(p), false)]
  {
    hide Lifetimes.Older, Lifetimes.ParentsAlive, HandleGraph.Inv, HandleGraph.Survivors, HandleSteps.Pruned,
      HandleGraph.ScopeHandles, HandleGraph.EnvHandles;
    OwnedIsAround(h.St(), g);
    BoundHandles(h.scopes[g], 1);
    FunctionHandles(c);
    var fn := h.CopyValue(Method(c));
    p := OpenParams(h, g, c);
    b := h.PushScope(p);
  }

  /** The parameter scope: pushed below the caller's, then moved below the closure. */
  method OpenParams(h: Heap, g: Ref, c: Ref) returns (p: Ref)
    requires h.AtRest() && g in h.scopes && c in h.scopes && g < h.next && c < h.next
    requires Strong(c) in h.held && h.held[Strong(g)] >= 2
    modifies h
    ensures h.AtRest() && p == old(h.next) && h.next == p + 1 && h.held == old(h.held) + multiset{Strong(p)}
    ensures h.scopes == old(h.scopes)[p := Scope([], Some(c), false)]
  {
    hide Lifetimes.Older, Lifetimes.ParentsAlive, HandleGraph.Inv, HandleGraph.Survivors, HandleSteps.Pruned,
      HandleGraph.ScopeHandles, HandleGraph.EnvHandles;
    p := h.PushScope(g);
    h.LeaveScope(g, p, false);
    assert h.scopes == old(h.scopes)[p := Scope([], Some(g), false)];
    MoveParams(h, p, g, c);
  }

  method MoveParams(h: Heap, p: Ref, g: Ref, c: Ref)
    requires h.AtRest() && p in h.scopes && h.scopes[p] == Scope([], Some(g), false)
    requires Strong(c) in h.held && Strong(g) in h.held && Strong(p) in h.held && p != c
    modifies h
    ensures h.AtRest() && h.next == old(h.next) && h.held == old(h.held)
    ensures h.scopes == old(h.scopes)[p := Scope([], Some(c), false)]
  {
    hide Lifetimes.Older, Lifetimes.ParentsAlive, HandleGraph.Inv, HandleGraph.Survivors, HandleSteps.Pruned,
      HandleGraph.ScopeHandles, HandleGraph.EnvHandles;
    HeldIsUsable(h.St(), Strong(c));
    var closure := h.Retain(c);
    SpareParent(h.St(), p, g);
    h.SetParent(p, Some(c), false);
  }

  /** The whole program: the lookup of `x` finds a live scope, and assigning to it is not safe. */
  method LastAssignment(h: Heap) returns (t: Ref, at: Walked, safe: bool)
    requires h.AtRest() && h.scopes == map[] && h.held == multiset{}
    modifies h
    ensures h.AtRest() && at == Found(t) && !safe && t !in h.scopes
  {
    hide Lifetimes.Older, Lifetimes.ParentsAlive, HandleGraph.Inv, HandleGraph.Survivors, HandleSteps.Pruned;
    var g, c, p, b;
    g, t, c := DeclareType(h);
    StoreItself(h, g, t, c);
    TakeMethod(h, g, t, c);
    ForgetType(h, g, t, c);
    p, b := CallMethod(h, g, t, c);
    CallScopes(g, t, c, p, b);
    FindsType(h.scopes, g, t, c, p, b);
    at := h.LookupRecursive(b, "x");
    NobodyOwns(g, t, c, p, b);
    PlainHandles();
    safe := h.AssignValue(t, 0, Plain);
  }

  function CallHeap(g: Ref, t: Ref, c: Ref, p: Ref, b: Ref): map<Ref, Scope> {
    Heap0(g, t, c, [Env("T", Plain), Env("f", Method(c))], Type(t))
    [p := Scope([], Some(c), false)][b := Scope([], Some(p), false)]
  }

  /** The heap of the running call, scope by scope. */
  ghost predicate Running(scopes: map<Ref, Scope>, g: Ref, t: Ref, c: Ref, p: Ref, b: Ref, x: Value) {
    && scopes.Keys == {g, t, c, p, b} && scopes[t] == TypeScope(g, c, x)
    && scopes[g] == Scope([Env("T", Plain), Env("f", Method(c))], None, false)
    && scopes[c] == Scope([], Some(t), true) && scopes[p] == Scope([], Some(c), false)
    && scopes[b] == Scope([], Some(p), false)
  }

  lemma CallScopes(g: Ref, t: Ref, c: Ref, p: Ref, b: Ref)
    requires g < t < c < p < b
    ensures Running(CallHeap(g, t, c, p, b), g, t, c, p, b, Type(t))
    ensures Running(Cleared(CallHeap(g, t, c, p, b), t, 0), g, t, c, p, b, Plain)
  {
    var vars := [Env("x", Type(t)), Env("m", Method(c))];
    assert vars[0 := Env("x", Plain)] == [Env("x", Plain), Env("m", Method(c))];
  }

  /** The lookup of `x` from the running call climbs to the type. */
  lemma FindsType(scopes: map<Ref, Scope>, g: Ref, t: Ref, c: Ref, p: Ref, b: Ref)
    requires g < t < c < p < b && Running(scopes, g, t, c, p, b, Type(t))
    ensures Older(scopes) && Walk(scopes, b, "x") == Found(t)
  {
    assert NameIndex([], "x") == 0;
    assert Bound(scopes, t, "x");
    assert Walk(scopes, c, "x") == Found(t);
    assert Walk(scopes, p, "x") == Found(t);
  }

  lemma NobodyOwns(g: Ref, t: Ref, c: Ref, p: Ref, b: Ref)
    requires g < t < c < p < b
    ensures var base := multiset{Strong(g), Strong(g), Strong(c), Strong(b)};
            t !in Survivors(Cleared(CallHeap(g, t, c, p, b), t, 0), base)
  {
    var left := Cleared(CallHeap(g, t, c, p, b), t, 0);
    var base := multiset{Strong(g), Strong(g), Strong(c), Strong(b)};
    forall a ensures !Owns(left, a, t) {
      OwnsNot(g, t, c, p, b, a);
    }
    hide HandleGraph.Survivors, HandleGraph.ScopeHandles;
    SurvivorsSupported(left, base);
    assert t in Survivors(left, base) ==> HasOwner(left, Survivors(left, base), base, t);
  }

  lemma GlobalOwns(c: Ref)
    ensures ScopeHandles(Scope([Env("T", Plain), Env("f", Method(c))], None, false)) == multiset{Strong(c)}
  {
    TwoHandles(Env("T", Plain), Env("f", Method(c)));
    FunctionHandles(c);
    PlainHandles();
  }

  lemma EmptyOwns(x: Ref, weak: bool)
    ensures ScopeHandles(Scope([], Some(x), weak)) == multiset{Link(x, weak)}
  {
  }

  lemma OwnsNot(g: Ref, t: Ref, c: Ref, p: Ref, b: Ref, a: Ref)
    requires g < t < c < p < b
    ensures !Owns(Cleared(CallHeap(g, t, c, p, b), t, 0), a, t)
  {
    CallScopes(g, t, c, p, b);
    hide CallHeap, HandleGraph.ScopeHandles, HandleGraph.Handles;
    GlobalOwns(c);
    TypeOwns(g, c, Plain);
    PlainHandles();
    EmptyOwns(t, true);
    EmptyOwns(c, false);
    EmptyOwns(p, false);
  }
}
