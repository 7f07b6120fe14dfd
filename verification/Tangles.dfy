/**
When the scopes made by some piece of work can all fall away again: as long as none of them own each other round a
cycle.
`n` is the name of the first scope made by the work, and `open` are the scopes made by it in which work is going on.
*/
module Tangles {
  import opened Wrappers
  import opened HandleGraph
  import opened HandleSteps
  import opened Cycles

  /** Some new scopes own each other round a cycle. */
  ghost predicate Tangled(scopes: map<Ref, Scope>, n: nat) {
    exists c :: Cycle(scopes, c) && forall i :: 0 <= i < |c| ==> c[i] >= n
  }

  /** None of the handles leads to an open scope. */
  ghost predicate Clear(scopes: map<Ref, Scope>, hs: multiset<Handle>, open: set<Ref>) {
    forall b, x :: Strong(b) in hs && x in open ==> !Reaches(scopes, b, x)
  }

  /** No binding leads to an open scope, though scopes may lead to their parents. */
  ghost predicate Loose(scopes: map<Ref, Scope>, open: set<Ref>) {
    forall k :: k in scopes ==> Clear(scopes, EnvHandles(scopes[k].vars), open)
  }

  ghost predicate Fine(scopes: map<Ref, Scope>, n: nat, open: set<Ref>) {
    !Tangled(scopes, n) && Loose(scopes, open)
  }

  /** Cycles stay, `bad` work makes one, and other work leaves things fine. */
  ghost predicate Judged(a: map<Ref, Scope>, b: map<Ref, Scope>, bad: bool, n: nat, open: set<Ref>) {
    && (Tangled(a, n) ==> Tangled(b, n))
    && (bad ==> Tangled(b, n))
    && (Fine(a, n, open) && !bad ==> Fine(b, n, open))
  }

  lemma JudgedBoth(a: map<Ref, Scope>, b: map<Ref, Scope>, c: map<Ref, Scope>, x: bool, y: bool, n: nat, open: set<Ref>)
    requires Judged(a, b, x, n, open) && Judged(b, c, y, n, open)
    ensures Judged(a, c, x || y, n, open)
  {
  }

  lemma JudgedSame(a: map<Ref, Scope>, n: nat, open: set<Ref>)
    ensures Judged(a, a, false, n, open)
  {
  }

  /** Strong handles lead from the value to `r`, through new scopes. */
  ghost predicate Leads(scopes: map<Ref, Scope>, v: Value, r: Ref, n: nat) {
    exists p :: LeadsBy(scopes, v, r, n, p)
  }

  ghost predicate LeadsBy(scopes: map<Ref, Scope>, v: Value, r: Ref, n: nat, p: seq<Ref>) {
    && p != [] && Strong(p[0]) in Handles(v) && p[|p| - 1] == r && Path(scopes, p)
    && forall i :: 0 <= i < |p| ==> n <= p[i] && p[i] in scopes
  }

  /** The value leads to an open scope by way of `r` alone. */
  ghost predicate OnlyThrough(scopes: map<Ref, Scope>, v: Value, r: Ref, open: set<Ref>) {
    forall p :: p != [] && Path(scopes, p) && Strong(p[0]) in Handles(v) && p[|p| - 1] in open && p[|p| - 1] != r ==>
      r in p
  }

  /** What is known of a value made in `r`: it leads to the open scopes by way of `r`, or not at all. */
  ghost predicate Valued(scopes: map<Ref, Scope>, v: Value, r: Ref, reaching: bool, open: set<Ref>) {
    if reaching then OnlyThrough(scopes, v, r, open) else Clear(scopes, Handles(v), open)
  }

  // ---------------------------------------------------------------------------------------------------
  // Paths

  /** Whatever leads to `x` after `r` came to own more led there before, or leads to `r`. */
  lemma GainReach(a: map<Ref, Scope>, b: map<Ref, Scope>, r: Ref, gained: multiset<Handle>, y: Ref, x: Ref)
    requires Gains(a, b, r, gained) && Reaches(b, y, x)
    ensures Reaches(a, y, x) || Reaches(a, y, r)
  {
    hide Owns;
    var p :| p != [] && p[0] == y && p[|p| - 1] == x && Path(b, p);
    if r in p {
      var i :| 0 <= i < |p| && p[i] == r;
      SubPath(b, p, 0, i + 1);
      FirstVisit(b, a, p[..i + 1], r);
    } else {
      OutsidePath(a, b, r, p);
    }
  }

  lemma FewerOwnersReach(a: map<Ref, Scope>, b: map<Ref, Scope>, y: Ref, x: Ref)
    requires Reaches(b, y, x) && forall k, l :: Owns(b, k, l) ==> Owns(a, k, l)
    ensures Reaches(a, y, x)
  {
    hide Owns;
    var p :| p != [] && p[0] == y && p[|p| - 1] == x && Path(b, p);
    PathKept(b, a, p);
  }

  lemma ReachesOn(scopes: map<Ref, Scope>, p: seq<Ref>, i: nat, j: nat)
    requires Path(scopes, p) && i <= j < |p|
    ensures Reaches(scopes, p[i], p[j])
  {
    SubPath(scopes, p, i, j + 1);
    assert p[i..j + 1][0] == p[i];
  }

  /** In a loose heap only the steps to parents lead on to an open scope. */
  lemma StepToParent(scopes: map<Ref, Scope>, open: set<Ref>, p: seq<Ref>, i: nat)
    requires Loose(scopes, open) && Path(scopes, p) && i < |p| - 1 && p[|p| - 1] in open
    ensures p[i] in scopes && scopes[p[i]].parent == Some(p[i + 1]) && !scopes[p[i]].weakRef
  {
    assert Owns(scopes, p[i], p[i + 1]);
    ReachesOn(scopes, p, i + 1, |p| - 1);
    var s := scopes[p[i]];
    assert Clear(scopes, EnvHandles(s.vars), open);
    assert Strong(p[i + 1]) in EnvHandles(s.vars) || Strong(p[i + 1]) in Optional(s.parent, s.weakRef);
  }

  // ---------------------------------------------------------------------------------------------------
  // What keeps cycles

  lemma TangledKept(a: map<Ref, Scope>, b: map<Ref, Scope>, n: nat)
    requires forall x, y :: Owns(a, x, y) ==> Owns(b, x, y)
    ensures Tangled(a, n) ==> Tangled(b, n)
  {
    hide Owns;
    if Tangled(a, n) {
      var c :| Cycle(a, c) && forall i :: 0 <= i < |c| ==> c[i] >= n;
      assert Cycle(b, c);
    }
  }

  lemma TangledPruned(scopes: map<Ref, Scope>, base: multiset<Handle>, n: nat)
    ensures Tangled(scopes, n) ==> Tangled(Pruned(scopes, base), n)
  {
    hide Survivors;
    if Tangled(scopes, n) {
      var c :| Cycle(scopes, c) && forall i :: 0 <= i < |c| ==> c[i] >= n;
      PrunedOwns(scopes, base);
      forall i | 0 < i < |c| ensures Owns(Pruned(scopes, base), c[i - 1], c[i]) {
        assert Owns(scopes, c[i - 1], c[i]);
        ReachesOn(scopes, c, 0, i - 1);
        CycleSupports(scopes, base, c, c[i - 1]);
      }
      assert Cycle(Pruned(scopes, base), c);
    }
  }

  /** Giving up a step that no cycle uses. */
  lemma TangledWithout(a: map<Ref, Scope>, b: map<Ref, Scope>, r: Ref, q: Ref, n: nat)
    requires forall x, y :: Owns(a, x, y) && !(x == r && y == q) ==> Owns(b, x, y)
    requires !Reaches(a, q, r)
    ensures Tangled(a, n) ==> Tangled(b, n)
  {
    hide Owns;
    if Tangled(a, n) {
      var c :| Cycle(a, c) && forall i :: 0 <= i < |c| ==> c[i] >= n;
      forall i | 0 < i < |c| ensures Owns(b, c[i - 1], c[i]) {
        assert Owns(a, c[i - 1], c[i]);
        if c[i - 1] == r && c[i] == q {
          BackRound(a, c, i);
        }
      }
      assert Cycle(b, c);
    }
  }

  lemma BackRound(scopes: map<Ref, Scope>, c: seq<Ref>, i: nat)
    requires Cycle(scopes, c) && 0 < i < |c|
    ensures Reaches(scopes, c[i], c[i - 1])
  {
    hide Owns;
    SubPath(scopes, c, i, |c|);
    SubPath(scopes, c, 0, i);
    var p := c[i..] + c[1..i];
    forall k | 0 < k < |p| ensures Owns(scopes, p[k - 1], p[k]) {
      if k < |c| - i {
        assert p[k - 1] == c[i + k - 1] && p[k] == c[i + k];
      } else {
        var m := k - (|c| - i) + 1;
        assert p[k] == c[m] && p[k - 1] == c[m - 1];
      }
    }
    assert Path(scopes, p);
  }

  // ---------------------------------------------------------------------------------------------------
  // Bindings

  lemma LeadsTangles(a: map<Ref, Scope>, b: map<Ref, Scope>, v: Value, r: Ref, n: nat)
    requires r >= n && Leads(a, v, r, n) && r in b && Handles(v) <= ScopeHandles(b[r])
    requires forall x, y :: Owns(a, x, y) ==> Owns(b, x, y)
    ensures Tangled(b, n)
  {
    hide ScopeHandles, Handles;
    var p :| LeadsBy(a, v, r, n, p);
    PathKept(a, b, p);
    PathGrows(b, r, p);
    assert Cycle(b, [r] + p);
  }

  /** A value that does not lead to an open scope may be bound in one. */
  lemma ClearBinding(a: map<Ref, Scope>, r: Ref, e: Env, n: nat, open: set<Ref>)
    requires r in a && r in open && Fine(a, n, open) && Clear(a, Handles(e.value), open)
    ensures var b := a[r := AddVar(a[r], e)]; Fine(b, n, open) && Clear(b, Handles(e.value), open)
  {
    var b, hs := a[r := AddVar(a[r], e)], Handles(e.value);
    AddVarHandles(a[r], e);
    BoundToo(a[r], e);
    hide ScopeHandles, EnvHandles, Handles, Reaches, Tangled, AddVar;
    assert Gains(a, b, r, hs);
    hide Owns, Gains;
    ClearGained(a, b, r, hs, hs, open);
    forall k | k in b ensures Clear(b, EnvHandles(b[k].vars), open) {
      assert Clear(a, EnvHandles(a[k].vars), open);
      ClearGained(a, b, r, hs, EnvHandles(a[k].vars), open);
      ClearBoth(b, EnvHandles(a[r].vars), hs, open);
    }
    TangledGained(a, b, r, hs, n);
    assert Back(a, r, hs) ==> !Clear(a, hs, open);
  }

  lemma BoundToo(s: Scope, e: Env)
    ensures EnvHandles(AddVar(s, e).vars) == EnvHandles(s.vars) + Handles(e.value)
  {
    EnvHandlesAppend(s.vars, [e]);
    assert EnvHandles([e]) == Handles(e.value);
  }

  lemma ClearBoth(scopes: map<Ref, Scope>, hs: multiset<Handle>, gs: multiset<Handle>, open: set<Ref>)
    ensures Clear(scopes, hs, open) && Clear(scopes, gs, open) <==> Clear(scopes, hs + gs, open)
  {
    hide Reaches;
    if Clear(scopes, hs + gs, open) {
      assert forall h :: h in hs || h in gs ==> h in hs + gs;
    }
  }

  lemma ClearGained(a: map<Ref, Scope>, b: map<Ref, Scope>, r: Ref, gained: multiset<Handle>, hs: multiset<Handle>,
                    open: set<Ref>)
    requires Gains(a, b, r, gained) && r in open && Clear(a, hs, open)
    ensures Clear(b, hs, open)
  {
    hide Reaches, Gains;
    forall y, x | Strong(y) in hs && x in open ensures !Reaches(b, y, x) {
      if Reaches(b, y, x) {
        GainReach(a, b, r, gained, y, x);
      }
    }
  }

  /** A new cycle uses something newly owned. */
  lemma TangledGained(a: map<Ref, Scope>, b: map<Ref, Scope>, r: Ref, gained: multiset<Handle>, n: nat)
    requires Gains(a, b, r, gained)
    ensures Tangled(b, n) ==> Tangled(a, n) || Back(a, r, gained)
  {
    hide Owns;
    if Tangled(b, n) {
      var c :| Cycle(b, c) && forall i :: 0 <= i < |c| ==> c[i] >= n;
      if r !in c {
        OutsidePath(a, b, r, c);
        assert Cycle(a, c);
      } else {
        var q := Return(b, c, r);
        OutsidePath(a, b, r, q[..|q| - 1]);
        LastStep(a, b, q, r);
        if Owns(a, r, q[0]) {
          PathGrows(a, r, q);
          forall i | 0 <= i < |[r] + q| ensures ([r] + q)[i] >= n {
            assert i > 0 ==> q[i - 1] in c;
          }
          assert Cycle(a, [r] + q);
        } else {
          assert Reaches(a, q[0], r);
        }
      }
    }
  }

  /** Binding a value in the open scope where it was made is bad exactly when the value leads there. */
  lemma BindJudged(a: map<Ref, Scope>, b: map<Ref, Scope>, r: Ref, e: Env, reaching: bool, wasBad: bool, n: nat,
                   open: set<Ref>)
    requires Judged(a, b, wasBad, n, open) && r in b && r >= n && r in open && (reaching ==> Leads(b, e.value, r, n))
    requires Fine(a, n, open) && !wasBad ==> Valued(b, e.value, r, reaching, open)
    ensures var made := b[r := AddVar(b[r], e)];
            && Judged(a, made, wasBad || reaching, n, open)
            && (reaching ==> Leads(made, e.value, r, n))
            && (Fine(a, n, open) && !wasBad && !reaching ==> Clear(made, Handles(e.value), open))
  {
    var made := b[r := AddVar(b[r], e)];
    AddVarHandles(b[r], e);
    hide ScopeHandles, Handles, AddVar, Loose, Leads, Tangled, Clear, OnlyThrough;
    assert forall x, y :: Owns(b, x, y) ==> Owns(made, x, y);
    TangledKept(b, made, n);
    if reaching {
      LeadsTangles(b, made, e.value, r, n);
      LeadsKept(b, made, e.value, r, n);
    } else if Fine(a, n, open) && !wasBad {
      ClearBinding(b, r, e, n, open);
    }
  }

  /** A path from a value stays when something comes to be owned besides. */
  lemma LeadsKept(a: map<Ref, Scope>, b: map<Ref, Scope>, v: Value, r: Ref, n: nat)
    requires Leads(a, v, r, n) && a.Keys <= b.Keys && forall x, y :: Owns(a, x, y) ==> Owns(b, x, y)
    ensures Leads(b, v, r, n)
  {
    hide Owns, Handles;
    var p :| LeadsBy(a, v, r, n, p);
    PathKept(a, b, p);
    assert LeadsBy(b, v, r, n, p);
  }

  // ---------------------------------------------------------------------------------------------------
  // Releases

  lemma LooseKept(a: map<Ref, Scope>, b: map<Ref, Scope>, open: set<Ref>)
    requires Loose(a, open) && forall x, y :: Owns(b, x, y) ==> Owns(a, x, y)
    requires forall k :: k in b ==> k in a && b[k].vars == a[k].vars
    ensures Loose(b, open)
  {
    hide Owns, EnvHandles, Reaches;
    forall k | k in b ensures Clear(b, EnvHandles(b[k].vars), open) {
      assert Clear(a, EnvHandles(a[k].vars), open);
      ClearKept(a, b, EnvHandles(a[k].vars), open);
    }
  }

  lemma ClearKept(a: map<Ref, Scope>, b: map<Ref, Scope>, hs: multiset<Handle>, open: set<Ref>)
    requires Clear(a, hs, open) && forall x, y :: Owns(b, x, y) ==> Owns(a, x, y)
    ensures Clear(b, hs, open)
  {
    hide Owns, Reaches;
    forall y, x | Strong(y) in hs && x in open ensures !Reaches(b, y, x) {
      if Reaches(b, y, x) {
        FewerOwnersReach(a, b, y, x);
      }
    }
  }

  lemma PrunedJudged(scopes: map<Ref, Scope>, base: multiset<Handle>, n: nat, open: set<Ref>)
    ensures Judged(scopes, Pruned(scopes, base), false, n, open)
  {
    TangledPruned(scopes, base, n);
    PrunedOwns(scopes, base);
    SurvivorsSupported(scopes, base);
    TangledKept(Pruned(scopes, base), scopes, n);
    hide EnvHandles, Survivors, Owns, Tangled;
    if Fine(scopes, n, open) {
      LooseKept(scopes, Pruned(scopes, base), open);
    }
  }

  lemma ClearPruned(scopes: map<Ref, Scope>, base: multiset<Handle>, hs: multiset<Handle>, open: set<Ref>)
    requires Clear(scopes, hs, open)
    ensures Clear(Pruned(scopes, base), hs, open)
  {
    PrunedOwns(scopes, base);
    hide Survivors, Owns, Pruned;
    ClearKept(scopes, Pruned(scopes, base), hs, open);
  }

  lemma OnlyThroughPruned(scopes: map<Ref, Scope>, base: multiset<Handle>, v: Value, r: Ref, open: set<Ref>)
    requires OnlyThrough(scopes, v, r, open)
    ensures OnlyThrough(Pruned(scopes, base), v, r, open)
  {
    PrunedOwns(scopes, base);
    hide Survivors, Owns, Pruned, Handles;
    forall p | p != [] && Path(Pruned(scopes, base), p) ensures Path(scopes, p) {
      PathKept(Pruned(scopes, base), scopes, p);
    }
  }

  /** A held value still leads where it led when other handles are given up. */
  lemma LeadsPruned(scopes: map<Ref, Scope>, base: multiset<Handle>, v: Value, r: Ref, n: nat)
    requires Leads(scopes, v, r, n) && Handles(v) <= base
    ensures Leads(Pruned(scopes, base), v, r, n)
  {
    hide Survivors, Handles;
    var p :| LeadsBy(scopes, v, r, n, p);
    PrunedOwns(scopes, base);
    forall i | 0 <= i < |p| ensures p[i] in Survivors(scopes, base) {
      SubPath(scopes, p, 0, i + 1);
      assert p[0..i + 1] == p[..i + 1];
      ReachableSurvives(scopes, base, p[..i + 1]);
    }
    forall i | 0 < i < |p| ensures Owns(Pruned(scopes, base), p[i - 1], p[i]) {
      assert Owns(scopes, p[i - 1], p[i]);
    }
    assert LeadsBy(Pruned(scopes, base), v, r, n, p);
  }

  /** The path goes on to the strongly held parent. */
  lemma LeadsToParent(scopes: map<Ref, Scope>, v: Value, r: Ref, p: Ref, n: nat)
    requires Leads(scopes, v, r, n) && r in scopes && scopes[r].parent == Some(p) && !scopes[r].weakRef
    requires p in scopes && n <= p
    ensures Leads(scopes, v, p, n)
  {
    var q :| LeadsBy(scopes, v, r, n, q);
    assert Strong(p) in Optional(scopes[r].parent, false);
    assert Owns(scopes, r, p);
    assert LeadsBy(scopes, v, p, n, q + [p]);
  }

  // ---------------------------------------------------------------------------------------------------
  // Opening and closing a scope

  lemma OwnedIsOld(s: State, k: Ref, h: Handle)
    requires Inv(s) && s.dying == {} && k in s.scopes && h in ScopeHandles(s.scopes[k])
    ensures h.ref < s.next
  {
    assert s.scopes - s.dying == s.scopes;
    assert StrongOf(s.counters, k) > 0;
    HeapUsesContain(s.scopes, h, s.next, k);
    Counted(s, h);
  }

  /** From an old scope strong handles lead to old scopes alone, by steps that are old too. */
  lemma {:induction false} PathStaysOld(s: State, t: map<Ref, Scope>, p: seq<Ref>)
    requires Inv(s) && s.dying == {} && p != [] && Path(t, p) && p[0] < s.next
    requires forall k :: k in t ==> k >= s.next || (k in s.scopes && t[k] == s.scopes[k])
    ensures Path(s.scopes, p) && p[|p| - 1] < s.next
    decreases |p|
  {
    hide Inv;
    if |p| > 1 {
      assert Owns(t, p[0], p[1]);
      OwnedIsOld(s, p[0], Strong(p[1]));
      SubPath(t, p, 1, |p|);
      PathStaysOld(s, t, p[1..]);
      PathGrows(s.scopes, p[0], p[1..]);
      assert [p[0]] + p[1..] == p;
    }
  }

  /** A fresh scope is open, and nothing leads to it. */
  lemma PushJudged(s: State, r: Ref, current: Ref, n: nat, open: set<Ref>)
    requires Inv(s) && s.dying == {} && r == s.next && r !in s.scopes && current < r && forall x :: x in open ==> x < r
    ensures var b := s.scopes[r := Scope([], Some(current), false)];
            && (Tangled(s.scopes, n) ==> Tangled(b, n))
            && (Fine(s.scopes, n, open) ==> Fine(b, n, open + {r}))
  {
    hide Inv, Tangled;
    var b := s.scopes[r := Scope([], Some(current), false)];
    TangledKept(s.scopes, b, n);
    if Fine(s.scopes, n, open) {
      PushedTangled(s, r, current, n);
      forall k | k in b ensures Clear(b, EnvHandles(b[k].vars), open + {r}) {
        if k != r {
          PushedClear(s, r, current, open, k);
        }
      }
    }
  }

  lemma OldReach(s: State, t: map<Ref, Scope>, y: Ref, x: Ref)
    requires Inv(s) && s.dying == {} && y < s.next && Reaches(t, y, x)
    requires forall k :: k in t ==> k >= s.next || (k in s.scopes && t[k] == s.scopes[k])
    ensures Reaches(s.scopes, y, x) && x < s.next
  {
    hide Inv;
    var p :| p != [] && p[0] == y && p[|p| - 1] == x && Path(t, p);
    PathStaysOld(s, t, p);
  }

  lemma PushedClear(s: State, r: Ref, current: Ref, open: set<Ref>, k: Ref)
    requires Inv(s) && s.dying == {} && r == s.next && r !in s.scopes && Loose(s.scopes, open) && k in s.scopes
    ensures var b := s.scopes[r := Scope([], Some(current), false)];
            Clear(b, EnvHandles(s.scopes[k].vars), open + {r})
  {
    hide Inv, Reaches;
    var b := s.scopes[r := Scope([], Some(current), false)];
    assert Clear(s.scopes, EnvHandles(s.scopes[k].vars), open);
    forall y, x | Strong(y) in EnvHandles(s.scopes[k].vars) && x in open + {r} ensures !Reaches(b, y, x) {
      OwnedIsOld(s, k, Strong(y));
      if Reaches(b, y, x) {
        OldReach(s, b, y, x);
      }
    }
  }

  lemma PushedTangled(s: State, r: Ref, current: Ref, n: nat)
    requires Inv(s) && s.dying == {} && r == s.next && r !in s.scopes && current < r
    ensures Tangled(s.scopes[r := Scope([], Some(current), false)], n) ==> Tangled(s.scopes, n)
  {
    hide Inv;
    var b := s.scopes[r := Scope([], Some(current), false)];
    if Tangled(b, n) {
      var c :| Cycle(b, c) && forall i :: 0 <= i < |c| ==> c[i] >= n;
      forall i | 0 <= i < |c| ensures c[i] < r {
        var m := if i == 0 then |c| - 1 else i;
        assert Owns(b, c[m - 1], c[m]);
        if c[m - 1] != r {
          OwnedIsOld(s, c[m - 1], Strong(c[m]));
        }
      }
      PathStaysOld(s, b, c);
      assert Cycle(s.scopes, c);
    }
  }

  /** Closing `r`: its parent handle may be downgraded. No cycle used it, as nothing old leads to `r`. */
  lemma CloseJudged(s: State, filled: map<Ref, Scope>, r: Ref, current: Ref, weakRef: bool, n: nat, open: set<Ref>)
    requires Inv(s) && s.dying == {} && r == s.next && current < r
    requires forall k :: k in filled ==> k >= s.next || (k in s.scopes && filled[k] == s.scopes[k])
    requires r in filled && filled[r].parent == Some(current) && !filled[r].weakRef
    ensures var left := filled[r := filled[r].(weakRef := weakRef)];
            && (Tangled(filled, n) ==> Tangled(left, n))
            && (Fine(filled, n, open + {r}) ==> Fine(left, n, open))
  {
    hide Inv, Tangled;
    var left := filled[r := filled[r].(weakRef := weakRef)];
    FlagOwns(filled, r, current, weakRef);
    if Reaches(filled, current, r) {
      var p :| p != [] && p[0] == current && p[|p| - 1] == r && Path(filled, p);
      PathStaysOld(s, filled, p);
    }
    hide Owns;
    TangledWithout(filled, left, r, current, n);
    TangledKept(left, filled, n);
    if Fine(filled, n, open + {r}) {
      LooseKept(filled, left, open + {r});
      LessOpen(left, open, r);
    }
  }

  lemma LessOpen(scopes: map<Ref, Scope>, open: set<Ref>, r: Ref)
    requires Loose(scopes, open + {r})
    ensures Loose(scopes, open)
  {
    hide EnvHandles, Reaches;
    forall k | k in scopes ensures Clear(scopes, EnvHandles(scopes[k].vars), open) {
      assert Clear(scopes, EnvHandles(scopes[k].vars), open + {r});
    }
  }

  lemma FlagOwns(scopes: map<Ref, Scope>, r: Ref, current: Ref, weakRef: bool)
    requires r in scopes && scopes[r].parent == Some(current) && !scopes[r].weakRef
    ensures var left := scopes[r := scopes[r].(weakRef := weakRef)];
            && (forall x, y :: Owns(left, x, y) ==> Owns(scopes, x, y))
            && (forall x, y :: Owns(scopes, x, y) && !(x == r && y == current) ==> Owns(left, x, y))
            && (weakRef && Owns(left, r, current) ==> Strong(current) in EnvHandles(scopes[r].vars))
  {
    var left := scopes[r := scopes[r].(weakRef := weakRef)];
    assert Optional(Some(current), weakRef) == multiset{Link(current, weakRef)};
    assert Optional(Some(current), false) == multiset{Strong(current)};
    hide EnvHandles;
  }

  // ---------------------------------------------------------------------------------------------------
  // Values of closed scopes

  lemma NotClear(scopes: map<Ref, Scope>, hs: multiset<Handle>, open: set<Ref>, p: seq<Ref>)
    requires p != [] && Path(scopes, p) && Strong(p[0]) in hs && p[|p| - 1] in open
    ensures !Clear(scopes, hs, open)
  {
    assert Reaches(scopes, p[0], p[|p| - 1]);
  }

  lemma NoPathIsClear(scopes: map<Ref, Scope>, hs: multiset<Handle>, open: set<Ref>)
    requires forall p :: p != [] && Path(scopes, p) && Strong(p[0]) in hs ==> p[|p| - 1] !in open
    ensures Clear(scopes, hs, open)
  {
  }

  /** The value of a closed scope `r` leads to the open scopes by its parent, unless that was downgraded. */
  lemma ClosedValue(left: map<Ref, Scope>, r: Ref, current: Ref, v: Value, open: set<Ref>)
    requires r in left && r !in open && left[r].parent == Some(current) && Loose(left, open)
    requires forall y :: Strong(y) in Handles(v) ==> y == r || Clear(left, multiset{Strong(y)}, open)
    ensures Valued(left, v, current, !left[r].weakRef, open)
  {
    hide Handles, EnvHandles, ScopeHandles, Clear;
    forall p | p != [] && Path(left, p) && Strong(p[0]) in Handles(v) && p[|p| - 1] in open
      ensures !left[r].weakRef && current in p
    {
      NotClear(left, multiset{Strong(p[0])}, open, p);
      StepToParent(left, open, p, 0);
    }
    if left[r].weakRef {
      NoPathIsClear(left, Handles(v), open);
    }
  }

  /** The value of a block that was made in the block scope `r`, once that is closed. */
  lemma BlockValue(filled: map<Ref, Scope>, r: Ref, current: Ref, weakRef: bool, v: Value, reaching: bool,
                   open: set<Ref>)
    requires r in filled && r !in open && filled[r].parent == Some(current) && !filled[r].weakRef
    requires Loose(filled, open + {r}) && Valued(filled, v, r, reaching, open + {r})
    ensures Valued(filled[r := filled[r].(weakRef := weakRef)], v, current, reaching && !weakRef, open)
  {
    hide Handles, EnvHandles, ScopeHandles;
    var left := filled[r := filled[r].(weakRef := weakRef)];
    FlagOwns(filled, r, current, weakRef);
    hide Owns;
    LooseKept(filled, left, open + {r});
    LessOpen(left, open, r);
    if reaching {
      forall p | p != [] && Path(left, p) && Strong(p[0]) in Handles(v) && p[|p| - 1] in open
        ensures !weakRef && current in p
      {
        PathKept(left, filled, p);
        assert r in p;
        var i :| 0 <= i < |p| && p[i] == r;
        StepToParent(left, open, p, i);
      }
      if weakRef {
        NoPathIsClear(left, Handles(v), open);
      }
    } else {
      ClearKept(filled, left, Handles(v), open + {r});
      NarrowClear(left, Handles(v), open, r);
    }
  }

  lemma NarrowClear(scopes: map<Ref, Scope>, hs: multiset<Handle>, open: set<Ref>, r: Ref)
    requires Clear(scopes, hs, open + {r})
    ensures Clear(scopes, hs, open)
  {
    hide Reaches;
  }

  /** What is bound somewhere is clear. */
  lemma BoundIsClear(scopes: map<Ref, Scope>, at: Ref, i: nat, open: set<Ref>)
    requires Loose(scopes, open) && at in scopes && i < |scopes[at].vars|
    ensures Clear(scopes, Handles(scopes[at].vars[i].value), open)
  {
    assert Clear(scopes, EnvHandles(scopes[at].vars), open);
    EnvHandlesSplit(scopes[at].vars, i);
    hide EnvHandles, Handles, Reaches;
  }

  // ---------------------------------------------------------------------------------------------------
  // After the work

  /** Before the work nothing is new. */
  lemma FineAtStart(s: State)
    requires Inv(s) && s.dying == {}
    ensures Fine(s.scopes, s.next, {})
  {
    hide Inv;
    if c :| Cycle(s.scopes, c) && forall i :: 0 <= i < |c| ==> c[i] >= s.next {
      assert Owns(s.scopes, c[0], c[1]);
      OwnedIsOld(s, c[0], Strong(c[1]));
    }
  }

  /** With nothing new held and no cycle among the new scopes, nothing new is left. */
  lemma NothingNew(s: State, t: State)
    requires Inv(s) && s.dying == {} && Inv(t) && t.dying == {} && t.held == s.held && !Tangled(t.scopes, s.next)
    requires forall k :: k in t.scopes ==> k >= s.next || (k in s.scopes && t.scopes[k] == s.scopes[k])
    ensures t.scopes.Keys <= s.scopes.Keys
  {
    hide Inv;
    forall r | r in t.scopes ensures r in s.scopes {
      LiveScopesSupported(t);
      var p, c := SupportCause(t.scopes, t.scopes.Keys, t.held, r);
      if Strong(p[0]) in t.held {
        HeldIsUsable(s, Strong(p[0]));
        LiveIsOlder(s, p[0]);
        PathStaysOld(s, t.scopes, p);
      } else if i :| 0 <= i < |c| && c[i] < s.next {
        OldFromHere(s, t.scopes, c, i, 0);
        PathStaysOld(s, t.scopes, p);
      }
    }
  }

  /** Old scopes own old scopes, so a cycle with one of them has no new scope at all. */
  lemma OldFromHere(s: State, t: map<Ref, Scope>, c: seq<Ref>, i: nat, j: nat)
    requires Inv(s) && s.dying == {} && Cycle(t, c) && i < |c| && c[i] < s.next && j < |c|
    requires forall k :: k in t ==> k >= s.next || (k in s.scopes && t[k] == s.scopes[k])
    ensures c[j] < s.next
  {
    hide Inv;
    SubPath(t, c, i, |c|);
    PathStaysOld(s, t, c[i..]);
    SubPath(t, c, 0, j + 1);
    PathStaysOld(s, t, c[0..j + 1]);
  }

  lemma TangledRemains(s: State, t: map<Ref, Scope>)
    requires Inv(s) && Tangled(t, s.next)
    ensures t != s.scopes && !Acyclic(t)
  {
    var c :| Cycle(t, c) && forall i :: 0 <= i < |c| ==> c[i] >= s.next;
    assert Owns(t, c[0], c[1]);
    if c[0] in s.scopes {
      LiveIsOlder(s, c[0]);
    }
  }

  /** Work that leaves no cycle among the new scopes closes no cycle at all. */
  lemma OldCyclesOnly(s: State, t: map<Ref, Scope>)
    requires Inv(s) && s.dying == {} && !Tangled(t, s.next)
    requires forall k :: k in t ==> k >= s.next || (k in s.scopes && t[k] == s.scopes[k])
    requires forall k :: k in s.scopes ==> k in t && t[k] == s.scopes[k]
    ensures Acyclic(t) <==> Acyclic(s.scopes)
  {
    hide Inv;
    if c :| Cycle(s.scopes, c) {
      OldPathKept(s.scopes, t, c);
      assert Cycle(t, c);
    }
    if c :| Cycle(t, c) {
      var i :| 0 <= i < |c| && c[i] < s.next;
      OldFromHere(s, t, c, i, 0);
      PathStaysOld(s, t, c);
      assert Cycle(s.scopes, c);
    }
  }

  lemma OldPathKept(a: map<Ref, Scope>, b: map<Ref, Scope>, p: seq<Ref>)
    requires Path(a, p) && forall k :: k in a ==> k in b && b[k] == a[k]
    ensures Path(b, p)
  {
    forall i | 0 < i < |p| ensures Owns(b, p[i - 1], p[i]) {
      assert Owns(a, p[i - 1], p[i]);
    }
  }
}
