/**
What every step of a program keeps in the store: the scope graph only grows, bindings keep their names and
annotations, values respect the annotations of their bindings, and names are only added to the current scope or
to scopes of types and instances.
*/
module StoreFacts {
  import opened Wrappers
  import opened Types
  import opened Syntax
  import opened Store

  // ---------------------------------------------------------------------------------------------------
  // Growth

  predicate ScopeGrows(s: Scope, t: Scope) {
    && t.parent == s.parent && t.ofObject == s.ofObject && |s.vars| <= |t.vars|
    && forall j :: 0 <= j < |s.vars| ==> t.vars[j].name == s.vars[j].name && t.vars[j].ty == s.vars[j].ty
  }

  /** No scope is lost, changes its parent, or loses or renames a binding. */
  predicate Keeps(h: Heap, k: Heap) {
    && |h.scopes| <= |k.scopes|
    && forall i :: 0 <= i < |h.scopes| ==> ScopeGrows(h.scopes[i], k.scopes[i])
  }

  /** No scope gains a name, except `at` and the scopes of types and instances. */
  predicate SameNames(h: Heap, k: Heap, at: Option<Ref>)
    requires |h.scopes| <= |k.scopes|
  {
    forall i :: 0 <= i < |h.scopes| ==>
      h.scopes[i].ofObject || at == Some(i) || |k.scopes[i].vars| == |h.scopes[i].vars|
  }

  // ---------------------------------------------------------------------------------------------------
  // Good stores

  predicate ValueGood(h: Heap, v: Value) {
    match v
    case FnV(c, _, _, i) => c < |h.scopes| && (i.Some? ==> i.value < |h.scopes|)
    case TypeV(c) => c < |h.scopes| && h.scopes[c].ofObject
    case InstV(c, t, _, _) => c < |h.scopes| && h.scopes[c].ofObject && t < |h.scopes| && h.scopes[t].ofObject
    case _ => true
  }

  /**
  The part of an annotation that no later step can break: a builtin name excludes primitives of other kinds,
  functions and interfaces, and a function type admits only functions of that very type.
  */
  predicate Annotated(ty: Ty, v: Value) {
    v == P(Unknown) || v == P(Null) ||
    match ty
    case TNamed(name) =>
      IsBuiltin(name) ==> (v.P? && BuiltinName(v.p) == Some(name)) || v.TypeV? || v.InstV?
    case TFn(_, _) => v.FnV? && v.ty == ty
    case TType => v.TypeV?
    case _ => true
  }

  predicate EnvGood(h: Heap, e: Env) {
    ValueGood(h, e.value) && Annotated(e.ty, e.value)
  }

  /** Every binding respects its annotation. */
  predicate AllAnnotated(h: Heap) {
    forall i, j :: 0 <= i < |h.scopes| && 0 <= j < |h.scopes[i].vars| ==>
      Annotated(h.scopes[i].vars[j].ty, h.scopes[i].vars[j].value)
  }

  predicate Distinct(vars: seq<Env>) {
    forall i, j :: 0 <= i < j < |vars| ==> vars[i].name != vars[j].name
  }

  predicate ScopeGood(h: Heap, i: nat)
    requires i < |h.scopes|
  {
    var s := h.scopes[i];
    && (s.parent.Some? ==> s.parent.value < i)
    && Distinct(s.vars)
    && forall j :: 0 <= j < |s.vars| ==> EnvGood(h, s.vars[j])
  }

  predicate Good(h: Heap) {
    forall i :: 0 <= i < |h.scopes| ==> ScopeGood(h, i)
  }

  predicate CtxGood(c: Ctx, h: Heap) {
    c.env < |h.scopes| && (c.inst.Some? ==> c.inst.value < |h.scopes|)
  }

  /** What evaluating something in `c` from `h` to `k` with value `v` guarantees. */
  predicate Step(c: Ctx, h: Heap, k: Heap, v: Value) {
    && Keeps(h, k)
    && (Good(h) && CtxGood(c, h) ==> Good(k) && ValueGood(k, v) && SameNames(h, k, Some(c.env)))
  }

  // ---------------------------------------------------------------------------------------------------
  // Composition

  lemma KeepsTransitive(h: Heap, k: Heap, l: Heap)
    requires Keeps(h, k) && Keeps(k, l)
    ensures Keeps(h, l)
  {
    forall i | 0 <= i < |h.scopes| ensures ScopeGrows(h.scopes[i], l.scopes[i]) {
      assert ScopeGrows(h.scopes[i], k.scopes[i]) && ScopeGrows(k.scopes[i], l.scopes[i]);
    }
  }

  lemma SameNamesTransitive(h: Heap, k: Heap, l: Heap, at: Option<Ref>)
    requires Keeps(h, k) && Keeps(k, l) && SameNames(h, k, at) && SameNames(k, l, at)
    ensures |h.scopes| <= |l.scopes| && SameNames(h, l, at)
  {
    forall i | 0 <= i < |h.scopes|
      ensures h.scopes[i].ofObject || at == Some(i) || |l.scopes[i].vars| == |h.scopes[i].vars|
    {
      assert ScopeGrows(h.scopes[i], k.scopes[i]);
    }
  }

  lemma ValueGoodKept(h: Heap, k: Heap, v: Value)
    requires Keeps(h, k) && ValueGood(h, v)
    ensures ValueGood(k, v)
  {
    match v
    case TypeV(c) => assert ScopeGrows(h.scopes[c], k.scopes[c]);
    case InstV(c, t, _, _) => assert ScopeGrows(h.scopes[c], k.scopes[c]) && ScopeGrows(h.scopes[t], k.scopes[t]);
    case _ =>
  }

  lemma StepTransitive(c: Ctx, h: Heap, k: Heap, l: Heap, v: Value, w: Value)
    requires Step(c, h, k, v) && Step(c, k, l, w)
    ensures Step(c, h, l, w)
  {
    KeepsTransitive(h, k, l);
    if Good(h) && CtxGood(c, h) {
      SameNamesTransitive(h, k, l, Some(c.env));
    }
  }

  /** The value of an earlier step is still good after a later one. */
  lemma StepValue(c: Ctx, h: Heap, k: Heap, l: Heap, v: Value, w: Value)
    requires Step(c, h, k, v) && Step(c, k, l, w)
    ensures Step(c, h, l, v)
  {
    StepTransitive(c, h, k, l, v, w);
    if Good(h) && CtxGood(c, h) {
      ValueGoodKept(k, l, v);
    }
  }

  lemma StepRefl(c: Ctx, h: Heap, v: Value)
    requires Good(h) && CtxGood(c, h) ==> ValueGood(h, v)
    ensures Step(c, h, h, v)
  {
    assert Keeps(h, h);
  }

  // ---------------------------------------------------------------------------------------------------
  // Reads

  lemma FindIsGood(h: Heap, r: Ref, name: string)
    requires Good(h) && Has(h, r, name)
    ensures ValueGood(h, Binding(h, r, name).value)
  {
    assert ScopeGood(h, r);
    assert EnvGood(h, h.scopes[r].vars[Find(h.scopes[r].vars, name)]);
  }

  lemma GetIsGood(c: Ctx, h: Heap, name: string)
    requires Good(h)
    ensures ValueGood(h, Get(c, h, name))
  {
    var at := Lookup(c, h, name);
    if at.Some? {
      FindIsGood(h, at.value, name);
    }
  }

  lemma GetMemberIsGood(h: Heap, owner: Value, name: string)
    requires Good(h)
    ensures ValueGood(h, GetMember(h, owner, name))
  {
    var at := MemberAt(h, owner, name);
    if at.Some? {
      FindIsGood(h, at.value, name);
    }
  }

  // ---------------------------------------------------------------------------------------------------
  // Writes

  lemma CheckedIsAnnotated(c: Ctx, h: Heap, v: Value, ty: Ty, n: nat)
    requires IsOfType(c, h, v, ty, n) == Yes
    ensures Annotated(ty, v)
  {
  }

  lemma FindAbsent(vars: seq<Env>, name: string)
    requires Find(vars, name) == |vars|
    ensures forall j :: 0 <= j < |vars| ==> vars[j].name != name
  {
  }

  lemma AddVarGood(h: Heap, r: Ref, e: Env)
    requires r < |h.scopes|
    ensures Keeps(h, AddVar(h, r, e))
    ensures SameNames(h, AddVar(h, r, e), Some(r))
    ensures Good(h) && EnvGood(h, e) && !Has(h, r, e.name) ==> Good(AddVar(h, r, e))
  {
    var k := AddVar(h, r, e);
    if Good(h) && EnvGood(h, e) && !Has(h, r, e.name) {
      forall i | 0 <= i < |k.scopes| ensures ScopeGood(k, i) {
        assert ScopeGood(h, i);
        forall j | 0 <= j < |k.scopes[i].vars| ensures EnvGood(k, k.scopes[i].vars[j]) {
          var old_ := if i == r && j == |h.scopes[r].vars| then e else h.scopes[i].vars[j];
          assert EnvGood(h, old_);
          ValueGoodKept(h, k, old_.value);
        }
        if i == r {
          FindAbsent(h.scopes[r].vars, e.name);
        }
      }
    }
  }

  lemma SetVarGood(h: Heap, r: Ref, i: nat, v: Value)
    requires r < |h.scopes| && i < |h.scopes[r].vars|
    ensures Keeps(h, SetVar(h, r, i, v))
    ensures SameNames(h, SetVar(h, r, i, v), None)
    ensures Good(h) && ValueGood(h, v) && Annotated(h.scopes[r].vars[i].ty, v) ==> Good(SetVar(h, r, i, v))
  {
    var k := SetVar(h, r, i, v);
    if Good(h) && ValueGood(h, v) && Annotated(h.scopes[r].vars[i].ty, v) {
      forall m | 0 <= m < |k.scopes| ensures ScopeGood(k, m) {
        assert ScopeGood(h, m);
        forall j | 0 <= j < |k.scopes[m].vars| ensures EnvGood(k, k.scopes[m].vars[j]) {
          assert EnvGood(h, h.scopes[m].vars[j]);
          ValueGoodKept(h, k, k.scopes[m].vars[j].value);
        }
      }
    }
  }

  /** A checked write of a good value keeps the store good, and names appear only where they may. */
  ghost predicate WriteOk(c: Ctx, h: Heap, v: Value, u: Update) {
    u.Written? ==>
      && Keeps(h, u.h)
      && (Good(h) && CtxGood(c, h) && ValueGood(h, v) ==> Good(u.h) && SameNames(h, u.h, Some(c.env)))
  }

  lemma CreateOk(c: Ctx, h: Heap, name: string, ty: Ty, v: Value, n: nat)
    ensures WriteOk(c, h, v, Create(c, h, name, ty, v, n))
  {
    if Create(c, h, name, ty, v, n).Written? {
      CheckedIsAnnotated(c, h, v, ty, n);
      AddVarGood(h, c.env, Env(name, ty, v));
    }
  }

  lemma OverwriteOk(c: Ctx, h: Heap, r: Ref, name: string, v: Value, n: nat)
    requires Has(h, r, name)
    ensures WriteOk(c, h, v, Overwrite(c, h, r, name, v, n))
  {
    if Overwrite(c, h, r, name, v, n).Written? {
      CheckedIsAnnotated(c, h, v, Binding(h, r, name).ty, n);
      SetVarGood(h, r, Find(h.scopes[r].vars, name), v);
    }
  }

  lemma SetOk(c: Ctx, h: Heap, name: string, v: Value, n: nat)
    ensures WriteOk(c, h, v, Set(c, h, name, v, n))
  {
    var at := Lookup(c, h, name);
    if at.Some? {
      OverwriteOk(c, h, at.value, name, v, n);
    }
  }

  /** Members are only ever added to scopes of instances. */
  lemma SetMemberOk(c: Ctx, h: Heap, owner: Value, name: string, v: Value, n: nat)
    requires Good(h) ==> ValueGood(h, owner)
    ensures WriteOk(c, h, v, SetMember(c, h, owner, name, v, n))
  {
    var at := MemberAt(h, owner, name);
    if SetMember(c, h, owner, name, v, n).Written? {
      if at.value == owner.closure {
        OverwriteOk(c, h, at.value, name, v, n);
      } else {
        var e := Binding(h, at.value, name);
        CheckedIsAnnotated(c, h, v, e.ty, n);
        AddVarGood(h, owner.closure, Env(e.name, e.ty, v));
      }
    }
  }

  lemma SetMemberKeeps(c: Ctx, h: Heap, owner: Value, name: string, v: Value, n: nat)
    ensures var u := SetMember(c, h, owner, name, v, n); u.Written? ==> Keeps(h, u.h)
  {
    var at := MemberAt(h, owner, name);
    if SetMember(c, h, owner, name, v, n).Written? {
      if at.value == owner.closure {
        SetVarGood(h, at.value, Find(h.scopes[at.value].vars, name), v);
      } else {
        var e := Binding(h, at.value, name);
        AddVarGood(h, owner.closure, Env(e.name, e.ty, v));
      }
    }
  }

  lemma WriteStep(c: Ctx, h: Heap, k: Heap, u: Update, v: Value)
    requires Step(c, h, k, v) && u.Written? && WriteOk(c, k, v, u)
    ensures Step(c, h, u.h, v)
  {
    KeepsTransitive(h, k, u.h);
    if Good(h) && CtxGood(c, h) {
      SameNamesTransitive(h, k, u.h, Some(c.env));
      ValueGoodKept(k, u.h, v);
    }
  }

  // ---------------------------------------------------------------------------------------------------
  // Annotations alone, which hold even where an error has left the store in disorder

  lemma GoodIsAnnotated(h: Heap)
    requires Good(h)
    ensures AllAnnotated(h)
  {
    forall i, j | 0 <= i < |h.scopes| && 0 <= j < |h.scopes[i].vars|
      ensures Annotated(h.scopes[i].vars[j].ty, h.scopes[i].vars[j].value)
    {
      assert ScopeGood(h, i);
      assert EnvGood(h, h.scopes[i].vars[j]);
    }
  }

  lemma BuiltinsGood()
    ensures Good(BUILTINS) && AllAnnotated(BUILTINS)
  {
    forall i | 0 <= i < |BUILTINS.scopes| ensures ScopeGood(BUILTINS, i) {
      forall j | 0 <= j < |BUILTINS.scopes[i].vars| ensures EnvGood(BUILTINS, BUILTINS.scopes[i].vars[j]) {
        assert BUILTINS.scopes[i].vars[j].value == P(Null) || BUILTINS.scopes[i].vars[j].value == TypeV(j + 1);
      }
    }
    GoodIsAnnotated(BUILTINS);
  }

  lemma AddVarAnnotated(h: Heap, r: Ref, e: Env)
    requires r < |h.scopes| && Annotated(e.ty, e.value)
    ensures AllAnnotated(h) ==> AllAnnotated(AddVar(h, r, e))
  {
    hide Annotated;
  }

  lemma SetVarAnnotated(h: Heap, r: Ref, i: nat, v: Value)
    requires r < |h.scopes| && i < |h.scopes[r].vars| && Annotated(h.scopes[r].vars[i].ty, v)
    ensures AllAnnotated(h) ==> AllAnnotated(SetVar(h, r, i, v))
  {
    hide Annotated;
  }

  lemma CountCallAnnotated(h: Heap, instance: Option<Ref>)
    ensures AllAnnotated(h) ==> AllAnnotated(CountCall(h, instance))
  {
    hide Annotated;
  }

  lemma SetParentAnnotated(h: Heap, r: Ref, parent: Ref)
    requires r < |h.scopes|
    ensures AllAnnotated(h) ==> AllAnnotated(SetParent(h, r, parent))
  {
    hide Annotated;
  }

  // ---------------------------------------------------------------------------------------------------
  // Inner scopes

  lemma PushGood(c: Ctx, h: Heap, ofObject: bool)
    ensures Keeps(h, Push(h, c.env, ofObject)) && SameNames(h, Push(h, c.env, ofObject), None)
    ensures Good(h) && CtxGood(c, h) ==> Good(Push(h, c.env, ofObject))
  {
    var k := Push(h, c.env, ofObject);
    if Good(h) && CtxGood(c, h) {
      forall i | 0 <= i < |k.scopes| ensures ScopeGood(k, i) {
        if i < |h.scopes| {
          assert ScopeGood(h, i);
          forall j | 0 <= j < |k.scopes[i].vars| ensures EnvGood(k, k.scopes[i].vars[j]) {
            assert EnvGood(h, h.scopes[i].vars[j]);
            ValueGoodKept(h, k, h.scopes[i].vars[j].value);
          }
        }
      }
    }
  }

  /** Work done in a scope that `h` does not have yet leaves the names of all old plain scopes alone. */
  lemma InnerStep(c: Ctx, d: Ctx, h: Heap, k: Heap, l: Heap, v: Value)
    requires Keeps(h, k) && SameNames(h, k, None) && d.env >= |h.scopes|
    requires Good(h) && CtxGood(c, h) ==> Good(k) && CtxGood(d, k)
    requires Step(d, k, l, v)
    ensures Step(c, h, l, v)
    ensures Good(h) && CtxGood(c, h) ==> SameNames(h, l, None)
  {
    KeepsTransitive(h, k, l);
    if Good(h) && CtxGood(c, h) {
      forall i | 0 <= i < |h.scopes|
        ensures h.scopes[i].ofObject || |l.scopes[i].vars| == |h.scopes[i].vars|
      {
        assert ScopeGrows(h.scopes[i], k.scopes[i]);
      }
    }
  }
}
