/**
When a step of the interpreter closes a cycle of strong handles, and when an assignment outlives the freeing of the old
value. Each step changes what one scope owns; it closes a cycle exactly when something newly owned leads back.
*/
module Cycles {
  import opened Wrappers
  import opened HandleGraph
  import opened HandleSteps

  ghost predicate Reaches(scopes: map<Ref, Scope>, a: Ref, b: Ref) {
    exists p :: p != [] && p[0] == a && p[|p| - 1] == b && Path(scopes, p)
  }

  /** The scope `r` comes to own what `gained` holds, and nothing else changes. */
  ghost predicate Gains(a: map<Ref, Scope>, b: map<Ref, Scope>, r: Ref, gained: multiset<Handle>) {
    forall x, y :: Owns(b, x, y) <==> Owns(a, x, y) || (x == r && Strong(y) in gained)
  }

  /** Something in `gained` leads back to `r`. */
  ghost predicate Back(a: map<Ref, Scope>, r: Ref, gained: multiset<Handle>) {
    exists y :: Strong(y) in gained && Reaches(a, y, r)
  }

  /** The general step: ownership stays free of cycles exactly when nothing newly owned leads back to the owner. */
  lemma GainCycle(a: map<Ref, Scope>, b: map<Ref, Scope>, r: Ref, gained: multiset<Handle>)
    requires Gains(a, b, r, gained)
    ensures Acyclic(b) <==> Acyclic(a) && !Back(a, r, gained)
  {
    hide Owns;
    if c :| Cycle(a, c) {
      PathKept(a, b, c);
      assert Cycle(b, c);
    }
    if Back(a, r, gained) {
      BackIsCycle(a, b, r, gained);
    }
    if c :| Cycle(b, c) {
      if r !in c {
        OutsidePath(a, b, r, c);
        assert Cycle(a, c);
      } else {
        var q := Return(b, c, r);
        OutsidePath(a, b, r, q[..|q| - 1]);
        LastStep(a, b, q, r);
        if Owns(a, r, q[0]) {
          PathGrows(a, r, q);
          assert Cycle(a, [r] + q);
        } else {
          assert Reaches(a, q[0], r);
        }
      }
    }
  }

  lemma PathKept(a: map<Ref, Scope>, b: map<Ref, Scope>, p: seq<Ref>)
    requires Path(a, p) && forall x, y :: Owns(a, x, y) ==> Owns(b, x, y)
    ensures Path(b, p)
  {
    hide Owns;
  }

  lemma BackIsCycle(a: map<Ref, Scope>, b: map<Ref, Scope>, r: Ref, gained: multiset<Handle>)
    requires Gains(a, b, r, gained) && Back(a, r, gained)
    ensures !Acyclic(b)
  {
    hide Owns;
    var y :| Strong(y) in gained && Reaches(a, y, r);
    var p :| p != [] && p[0] == y && p[|p| - 1] == r && Path(a, p);
    PathKept(a, b, p);
    PathGrows(b, r, p);
    assert Cycle(b, [r] + p);
  }

  /** A path that does not leave from `r` uses nothing new. */
  lemma OutsidePath(a: map<Ref, Scope>, b: map<Ref, Scope>, r: Ref, p: seq<Ref>)
    requires Path(b, p) && r !in p
    requires forall x, y :: Owns(b, x, y) && x != r ==> Owns(a, x, y)
    ensures Path(a, p)
  {
    hide Owns;
  }

  lemma LastStep(a: map<Ref, Scope>, b: map<Ref, Scope>, q: seq<Ref>, r: Ref)
    requires q != [] && Path(b, q) && Path(a, q[..|q| - 1]) && r !in q[..|q| - 1]
    requires forall x, y :: Owns(b, x, y) && x != r ==> Owns(a, x, y)
    ensures Path(a, q)
  {
    hide Owns;
    forall i | 0 < i < |q| ensures Owns(a, q[i - 1], q[i]) {
      assert q[i - 1] in q[..|q| - 1];
    }
  }

  /** A cycle through `x` contains a way from something `x` owns back to `x` that does not pass `x` before. */
  lemma Return(scopes: map<Ref, Scope>, c: seq<Ref>, x: Ref) returns (q: seq<Ref>)
    requires Cycle(scopes, c) && x in c
    ensures q != [] && q[|q| - 1] == x && x !in q[..|q| - 1] && Path(scopes, q) && Owns(scopes, x, q[0])
    ensures forall k :: k in q ==> k in c
  {
    hide Owns;
    var d := Rotate(scopes, c, x);
    q := FirstReturn(scopes, d, x);
  }

  lemma Rotate(scopes: map<Ref, Scope>, c: seq<Ref>, x: Ref) returns (d: seq<Ref>)
    requires Cycle(scopes, c) && x in c
    ensures Cycle(scopes, d) && d[0] == x && forall k :: k in d ==> k in c
  {
    hide Owns;
    var i :| 0 <= i < |c| && c[i] == x;
    if i == |c| - 1 {
      d := c;
    } else {
      d := c[i..] + c[1..i + 1];
      forall k | 0 < k < |d| ensures Owns(scopes, d[k - 1], d[k]) {
        if k < |c| - i {
          assert d[k - 1] == c[i + k - 1] && d[k] == c[i + k];
        } else {
          var m := k - (|c| - i);
          assert d[k] == c[m + 1] && d[k - 1] == c[m];
        }
      }
      forall k | k in d ensures k in c {
        var m :| 0 <= m < |d| && d[m] == k;
        assert d[m] == if m < |c| - i then c[i + m] else c[m - (|c| - i) + 1];
      }
    }
  }

  lemma {:induction false} FirstReturn(scopes: map<Ref, Scope>, d: seq<Ref>, x: Ref) returns (q: seq<Ref>)
    requires Cycle(scopes, d) && d[0] == x
    ensures q != [] && q[|q| - 1] == x && x !in q[..|q| - 1] && Path(scopes, q) && Owns(scopes, x, q[0])
    ensures forall k :: k in q ==> k in d
    decreases |d|
  {
    hide Owns;
    assert Owns(scopes, d[0], d[1]);
    var inner := d[1..|d| - 1];
    if x in inner {
      var i :| 0 <= i < |inner| && inner[i] == x;
      SubPath(scopes, d, 0, i + 2);
      assert Cycle(scopes, d[..i + 2]);
      q := FirstReturn(scopes, d[..i + 2], x);
    } else {
      SubPath(scopes, d, 1, |d|);
      q := d[1..];
      assert q[..|q| - 1] == inner;
    }
  }

  // ---------------------------------------------------------------------------------------------------
  // The steps

  /** A new binding. */
  lemma BindingCycle(scopes: map<Ref, Scope>, r: Ref, e: Env)
    requires r in scopes
    ensures Acyclic(scopes[r := AddVar(scopes[r], e)]) <==>
            Acyclic(scopes) && !Back(scopes, r, Handles(e.value))
  {
    AddVarHandles(scopes[r], e);
    hide ScopeHandles, Handles, AddVar;
    GainCycle(scopes, scopes[r := AddVar(scopes[r], e)], r, Handles(e.value));
  }

  /** The heap while the old value of a binding is freed. */
  function Cleared(scopes: map<Ref, Scope>, r: Ref, i: nat): map<Ref, Scope>
    requires r in scopes && i < |scopes[r].vars|
  {
    scopes[r := SetVar(scopes[r], i, Plain)]
  }

  /** What the scope owns with `v` in the binding, against what it owns with nothing in it. */
  lemma FilledHandles(s: Scope, i: nat, v: Value, h: Handle)
    requires i < |s.vars|
    ensures ScopeHandles(SetVar(s, i, v))[h] == ScopeHandles(SetVar(s, i, Plain))[h] + Handles(v)[h]
  {
    SetVarHandles(s, i, v);
    SetVarHandles(s, i, Plain);
    PlainHandles();
    hide ScopeHandles, Handles, SetVar;
    var a, b, old_ := SetVar(s, i, v), SetVar(s, i, Plain), Handles(s.vars[i].value);
    assert (ScopeHandles(a) + old_)[h] == (ScopeHandles(s) + Handles(v))[h];
    assert (ScopeHandles(b) + old_)[h] == (ScopeHandles(s) + Handles(Plain))[h];
  }

  /** A new value for a binding, compared with the heap in which the old one has been taken out. */
  lemma OverwriteCycle(scopes: map<Ref, Scope>, r: Ref, i: nat, v: Value)
    requires r in scopes && i < |scopes[r].vars|
    ensures Acyclic(scopes[r := SetVar(scopes[r], i, v)]) <==>
            Acyclic(Cleared(scopes, r, i)) && !Back(Cleared(scopes, r, i), r, Handles(v))
  {
    var made := scopes[r := SetVar(scopes[r], i, v)];
    hide ScopeHandles, Handles, SetVar;
    forall x, y ensures Owns(made, x, y) <==> Owns(Cleared(scopes, r, i), x, y) || (x == r && Strong(y) in Handles(v)) {
      if x == r {
        FilledHandles(scopes[r], i, v, Strong(y));
      }
    }
    GainCycle(Cleared(scopes, r, i), made, r, Handles(v));
  }

  /** A parent for a scope that has none; a weak handle closes no cycle. */
  lemma ParentCycle(scopes: map<Ref, Scope>, r: Ref, p: Ref, weak: bool)
    requires r in scopes && scopes[r].parent == None
    ensures Acyclic(scopes[r := scopes[r].(parent := Some(p), weakRef := weak)]) <==>
            Acyclic(scopes) && (weak || !Reaches(scopes, p, r))
  {
    WithParent(scopes[r], Some(p), weak);
    hide ScopeHandles;
    GainCycle(scopes, scopes[r := scopes[r].(parent := Some(p), weakRef := weak)], r, Optional(Some(p), weak));
    assert Strong(p) in Optional(Some(p), weak) <==> !weak;
  }

  /** A release leaves a cycle exactly when all of its scopes survive. */
  lemma PrunedCycle(scopes: map<Ref, Scope>, base: multiset<Handle>)
    ensures Acyclic(Pruned(scopes, base)) <==>
            forall c :: Cycle(scopes, c) ==> exists i :: 0 <= i < |c| && c[i] !in Survivors(scopes, base)
  {
    hide Survivors, ScopeHandles;
    var left := Pruned(scopes, base);
    SurvivorsSupported(scopes, base);
    PrunedOwns(scopes, base);
    hide Owns, Pruned;
    if c :| Cycle(left, c) {
      forall i | 0 <= i < |c| ensures c[i] in Survivors(scopes, base) {
        var m := if i == |c| - 1 then 0 else i;
        assert Owns(left, c[m], c[m + 1]);
      }
      PathKept(left, scopes, c);
      assert Cycle(scopes, c);
    }
    if c :| Cycle(scopes, c) && forall i :: 0 <= i < |c| ==> c[i] in Survivors(scopes, base) {
      forall i | 0 < i < |c| ensures Owns(left, c[i - 1], c[i]) {
        assert Owns(scopes, c[i - 1], c[i]);
      }
      assert Cycle(left, c);
    }
  }

  lemma PrunedOwns(scopes: map<Ref, Scope>, base: multiset<Handle>)
    ensures forall x, y ::
              Owns(Pruned(scopes, base), x, y) <==> x in Survivors(scopes, base) && Owns(scopes, x, y)
  {
    hide Survivors, ScopeHandles;
    SurvivorsSupported(scopes, base);
  }

  /** The instance binding `self`: a strong handle would be a cycle by itself. */
  lemma SelfMustBeWeak(scopes: map<Ref, Scope>, inst: Ref, typeScope: Ref, weakSelf: bool)
    requires inst in scopes && inst != typeScope
    ensures Acyclic(scopes[inst := AddVar(scopes[inst], Env("self", TypeOrInst(inst, weakSelf, Some(typeScope))))]) <==>
            Acyclic(scopes) && weakSelf && !Reaches(scopes, typeScope, inst)
  {
    var self := Env("self", TypeOrInst(inst, weakSelf, Some(typeScope)));
    BindingCycle(scopes, inst, self);
    assert Strong(typeScope) in Handles(self.value) && (Strong(inst) in Handles(self.value) <==> !weakSelf);
    assert forall y :: Strong(y) in Handles(self.value) ==> y == typeScope || y == inst;
    hide Handles;
    SelfReach(scopes, inst);
  }

  lemma SelfReach(scopes: map<Ref, Scope>, r: Ref)
    ensures Reaches(scopes, r, r)
  {
    assert [r][0] == r && Path(scopes, [r]);
  }

  // ---------------------------------------------------------------------------------------------------
  // Assignments

  lemma ClearedOwns(scopes: map<Ref, Scope>, r: Ref, i: nat, a: Ref, b: Ref)
    requires r in scopes && i < |scopes[r].vars|
    ensures Owns(Cleared(scopes, r, i), a, b) ==> Owns(scopes, a, b)
    ensures a != r && Owns(scopes, a, b) ==> Owns(Cleared(scopes, r, i), a, b)
  {
    var v := scopes[r].vars[i].value;
    FilledHandles(scopes[r], i, v, Strong(b));
    assert SetVar(scopes[r], i, v) == scopes[r];
    hide ScopeHandles, Handles, SetVar;
  }

  /** Strong handles lead from the outside to `r`. */
  ghost predicate Anchored(scopes: map<Ref, Scope>, base: multiset<Handle>, r: Ref) {
    exists a :: Strong(a) in base && Reaches(scopes, a, r)
  }

  /** Strong handles lead from a cycle of strong handles to `r`. */
  ghost predicate HangsOnCycle(scopes: map<Ref, Scope>, r: Ref) {
    exists c :: Cycle(scopes, c) && Reaches(scopes, c[0], r)
  }

  /** Stopping a path at its first visit to `r` leaves one that does not use what `r` owns. */
  lemma {:induction false} FirstVisit(a: map<Ref, Scope>, b: map<Ref, Scope>, p: seq<Ref>, r: Ref)
    requires p != [] && p[|p| - 1] == r && Path(a, p)
    requires forall x, y :: x != r && Owns(a, x, y) ==> Owns(b, x, y)
    ensures Reaches(b, p[0], r)
    decreases |p|
  {
    hide Owns;
    if r in p[..|p| - 1] {
      var i :| 0 <= i < |p| - 1 && p[..|p| - 1][i] == r;
      SubPath(a, p, 0, i + 1);
      FirstVisit(a, b, p[..i + 1], r);
    } else {
      forall i | 0 < i < |p| ensures Owns(b, p[i - 1], p[i]) {
        assert p[i - 1] in p[..|p| - 1];
      }
      assert Path(b, p);
    }
  }

  /**
  An assignment to a binding of `r` is safe, that is `r` outlives the freeing of the old value, exactly when strong
  handles lead to `r` from the outside, whether or not the old value is one of them, or from a cycle without it.
  */
  lemma AssignmentIsSafe(s: State, r: Ref, i: nat)
    requires Inv(s) && s.dying == {} && r in s.scopes && i < |s.scopes[r].vars|
    ensures r in Survivors(Cleared(s.scopes, r, i), s.held) <==>
            Anchored(s.scopes, s.held, r) || HangsOnCycle(Cleared(s.scopes, r, i), r)
  {
    hide Inv, Survivors, Owns, SetVar;
    var left := Cleared(s.scopes, r, i);
    forall a, b
      ensures Owns(left, a, b) ==> Owns(s.scopes, a, b)
      ensures a != r && Owns(s.scopes, a, b) ==> Owns(left, a, b)
    {
      ClearedOwns(s.scopes, r, i, a, b);
    }
    if r in Survivors(left, s.held) {
      SafeHasCause(s.scopes, left, s.held, r);
    }
    if Anchored(s.scopes, s.held, r) {
      var a :| Strong(a) in s.held && Reaches(s.scopes, a, r);
      var p :| p != [] && p[0] == a && p[|p| - 1] == r && Path(s.scopes, p);
      FirstVisit(s.scopes, left, p, r);
      AnchoredSurvives(s, left, r, a);
    }
    if HangsOnCycle(left, r) {
      var c :| Cycle(left, c) && Reaches(left, c[0], r);
      CycleSupports(left, s.held, c, r);
    }
  }

  lemma SafeHasCause(scopes: map<Ref, Scope>, left: map<Ref, Scope>, base: multiset<Handle>, r: Ref)
    requires r in Survivors(left, base) && forall a, b :: Owns(left, a, b) ==> Owns(scopes, a, b)
    ensures Anchored(scopes, base, r) || HangsOnCycle(left, r)
  {
    hide Survivors, Owns;
    SurvivorsSupported(left, base);
    var p, c := SupportCause(left, Survivors(left, base), base, r);
    if Strong(p[0]) in base {
      PathKept(left, scopes, p);
      assert Reaches(scopes, p[0], r);
    } else {
      assert Reaches(left, c[0], r);
    }
  }

  lemma AnchoredSurvives(s: State, left: map<Ref, Scope>, r: Ref, a: Ref)
    requires Inv(s) && s.dying == {} && r in left && left.Keys == s.scopes.Keys
    requires Strong(a) in s.held && Reaches(left, a, r)
    ensures r in Survivors(left, s.held)
  {
    hide Inv, Survivors;
    var p :| p != [] && p[0] == a && p[|p| - 1] == r && Path(left, p);
    forall k | 0 <= k < |p| ensures p[k] in left {
      if k < |p| - 1 {
        assert Owns(left, p[k], p[k + 1]);
      }
    }
    ReachableSurvives(left, s.held, p);
  }

  /** Whatever hangs on a cycle survives anything. */
  lemma CycleSupports(scopes: map<Ref, Scope>, base: multiset<Handle>, c: seq<Ref>, r: Ref)
    requires Cycle(scopes, c) && Reaches(scopes, c[0], r) && r in scopes
    ensures r in Survivors(scopes, base)
  {
    hide Survivors;
    var p :| p != [] && p[0] == c[0] && p[|p| - 1] == r && Path(scopes, p);
    var keep := (set k | k in c) + (set k | k in p);
    forall k | k in keep ensures k in scopes {
      if k in c {
        var i :| 0 <= i < |c| && c[i] == k;
        var m := if i == |c| - 1 then 0 else i;
        assert Owns(scopes, c[m], c[m + 1]);
      } else {
        var i :| 0 <= i < |p| && p[i] == k;
        if i < |p| - 1 {
          assert Owns(scopes, p[i], p[i + 1]);
        }
      }
    }
    forall k | k in keep ensures HasOwner(scopes, keep, base, k) {
      if k in c {
        var i :| 0 <= i < |c| && c[i] == k;
        var m := if i == 0 then |c| - 1 else i;
        assert c[m - 1] in keep && Owns(scopes, c[m - 1], c[m]);
      } else {
        var i :| 0 <= i < |p| && p[i] == k;
        assert i > 0;
        assert p[i - 1] in keep && Owns(scopes, p[i - 1], p[i]);
      }
    }
    SurvivorsLargest(scopes, keep, base);
  }

  /** While ownership has no cycles every assignment is safe. */
  lemma AcyclicAssignments(s: State, r: Ref, i: nat)
    requires Inv(s) && s.dying == {} && r in s.scopes && i < |s.scopes[r].vars| && Acyclic(s.scopes)
    ensures r in Survivors(Cleared(s.scopes, r, i), s.held)
  {
    hide Inv, Survivors;
    LiveScopesSupported(s);
    var p, c := SupportCause(s.scopes, s.scopes.Keys, s.held, r);
    assert Reaches(s.scopes, p[0], r);
    AssignmentIsSafe(s, r, i);
  }
}
