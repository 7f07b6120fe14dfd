/**
The reference-counted scope graph as a value: counter records, scopes, the handles they hold, and what it
means for the counts to agree with the handles.

A `Ref` names one counter record together with the scope it guards (its `mem`). Names are never reused, so
"freed exactly once" can be said of a name.
*/
module HandleGraph {
  import opened Wrappers

  type Ref = nat

  /** One unit of ownership: it stands for one increment of one of the two counts behind `ref`. */
  datatype Handle = Strong(ref: Ref) | Weak(ref: Ref)

  datatype Counter = Counter(strong: nat, weak: nat)

  /** Run-time values, reduced to the handles they carry; `Plain` is every value kind that owns none. */
  datatype Value =
    | Plain
    | Fn(closure: Ref, weakRef: bool, instance: Option<Ref>)
    | NativeFn(closure: Ref, instance: Option<Ref>)
    | TypeOrInst(closure: Ref, weakRef: bool, typeScope: Option<Ref>)

  datatype Env = Env(name: string, value: Value)

  datatype Scope = Scope(vars: seq<Env>, parent: Option<Ref>, weakRef: bool)

  function Link(r: Ref, weak: bool): Handle {
    if weak then Weak(r) else Strong(r)
  }

  function Optional(r: Option<Ref>, weak: bool): multiset<Handle> {
    match r
    case None => multiset{}
    case Some(p) => multiset{Link(p, weak)}
  }

  /** The handles a value owns. */
  function Handles(v: Value): multiset<Handle> {
    match v
    case Plain => multiset{}
    case Fn(c, w, i) => multiset{Link(c, w)} + Optional(i, true)
    case NativeFn(c, i) => multiset{Strong(c)} + Optional(i, true)
    case TypeOrInst(c, w, t) => multiset{Link(c, w)} + Optional(t, false)
  }

  function EnvHandles(vars: seq<Env>): multiset<Handle> {
    if vars == [] then multiset{} else Handles(vars[0].value) + EnvHandles(vars[1..])
  }

  function ScopeHandles(s: Scope): multiset<Handle> {
    EnvHandles(s.vars) + Optional(s.parent, s.weakRef)
  }

  lemma {:induction false} EnvHandlesAppend(a: seq<Env>, b: seq<Env>)
    ensures EnvHandles(a + b) == EnvHandles(a) + EnvHandles(b)
  {
    if a == [] {
      assert a + b == b;
    } else {
      assert (a + b)[1..] == a[1..] + b;
      EnvHandlesAppend(a[1..], b);
    }
  }

  // ---------------------------------------------------------------------------------------------------
  // Counting the handles held inside the heap

  /** How often scope `r` holds `h`. */
  ghost function Uses(scopes: map<Ref, Scope>, r: Ref, h: Handle): nat {
    if r in scopes then ScopeHandles(scopes[r])[h] else 0
  }

  /** How often the scopes named below `n` hold `h`. */
  ghost function HeapUses(scopes: map<Ref, Scope>, h: Handle, n: nat): nat {
    if n == 0 then 0 else HeapUses(scopes, h, n - 1) + Uses(scopes, n - 1, h)
  }

  ghost predicate SameExcept(a: map<Ref, Scope>, b: map<Ref, Scope>, r: Ref) {
    forall k: Ref {:trigger k in a} {:trigger k in b} :: k != r ==> (k in a <==> k in b) && (k in a ==> a[k] == b[k])
  }

  /** Changing one scope changes the total by exactly that scope's handles. */
  lemma {:induction false} HeapUsesUpdate(a: map<Ref, Scope>, b: map<Ref, Scope>, r: Ref, h: Handle, n: nat)
    requires SameExcept(a, b, r)
    ensures HeapUses(b, h, n) - HeapUses(a, h, n) == if r < n then Uses(b, r, h) - Uses(a, r, h) else 0
  {
    if n > 0 {
      HeapUsesUpdate(a, b, r, h, n - 1);
      if n - 1 != r {
        assert Uses(a, n - 1, h) == Uses(b, n - 1, h);
      }
    }
  }

  lemma {:induction false} HeapUsesContain(scopes: map<Ref, Scope>, h: Handle, n: nat, r: Ref)
    requires r in scopes && r < n && h in ScopeHandles(scopes[r])
    ensures HeapUses(scopes, h, n) > 0
  {
    if n - 1 != r {
      HeapUsesContain(scopes, h, n - 1, r);
    }
  }

  lemma {:induction false} HeapUsesOwner(scopes: map<Ref, Scope>, h: Handle, n: nat) returns (r: Ref)
    requires HeapUses(scopes, h, n) > 0
    ensures r in scopes && r < n && h in ScopeHandles(scopes[r])
  {
    if Uses(scopes, n - 1, h) > 0 {
      r := n - 1;
    } else {
      r := HeapUsesOwner(scopes, h, n - 1);
    }
  }

  // ---------------------------------------------------------------------------------------------------
  // The state and its invariant

  /**
  `held` are the handles owned by C variables (interpreter fields, temporaries, the trash list, and the
  not-yet-released handles of scopes being torn down). `dying` are the scopes whose destructor is running.
  `destroyed` and `freed` log every scope destruction and every counter-record deallocation.
  */
  datatype State = State(
    counters: map<Ref, Counter>, scopes: map<Ref, Scope>, next: nat,
    held: multiset<Handle>, dying: set<Ref>, destroyed: seq<Ref>, freed: seq<Ref>)

  function StrongOf(counters: map<Ref, Counter>, r: Ref): nat {
    if r in counters then counters[r].strong else 0
  }

  function WeakOf(counters: map<Ref, Counter>, r: Ref): nat {
    if r in counters then counters[r].weak else 0
  }

  /** All copies of `h`: in C variables and in scopes whose destructor is not running. */
  ghost function Total(s: State, h: Handle): nat {
    s.held[h] + HeapUses(s.scopes - s.dying, h, s.next)
  }

  function CountOf(counters: map<Ref, Counter>, h: Handle): nat {
    if h.Strong? then StrongOf(counters, h.ref) else WeakOf(counters, h.ref)
  }

  /** The records count `total`, and there is no record of a name that is not counted. */
  ghost predicate Tally(counters: map<Ref, Counter>, next: nat, total: Handle -> nat) {
    && (forall h: Handle :: CountOf(counters, h) == total(h))
    && (forall r: Ref :: r in counters ==> r < next && counters[r].strong + counters[r].weak > 0)
  }

  ghost function Totals(s: State): Handle -> nat {
    h => Total(s, h)
  }

  /** Conservation: each count is the number of handles of its kind, in C variables and live scopes. */
  ghost predicate Conserved(s: State) {
    Tally(s.counters, s.next, Totals(s))
  }

  /** A scope exists exactly while its strong count is positive; a dying one is down to its last handle. */
  ghost predicate Alive(s: State) {
    && (forall r: Ref :: r in s.scopes || r in s.dying <==> StrongOf(s.counters, r) > 0)
    && (forall d: Ref :: d in s.dying ==> StrongOf(s.counters, d) == 1 && Strong(d) in s.held)
  }

  ghost predicate NoDuplicates(log: seq<Ref>) {
    forall i, j :: 0 <= i < j < |log| ==> log[i] != log[j]
  }

  /** Every created scope that no longer exists was destroyed once, and likewise for counter records. */
  ghost predicate ExactlyOnce(s: State) {
    && NoDuplicates(s.destroyed) && NoDuplicates(s.freed)
    && (forall r: Ref :: r in s.destroyed <==> r < s.next && r !in s.scopes)
    && (forall r: Ref :: r in s.freed <==> r < s.next && r !in s.counters)
  }

  ghost predicate Inv(s: State) {
    Conserved(s) && Alive(s) && ExactlyOnce(s)
  }

  /** The counter records are a function of the handles: nothing else is stored in them. */
  lemma CountersDetermined(s: State, t: State)
    requires Inv(s) && Inv(t)
    requires forall h :: Total(s, h) == Total(t, h)
    ensures s.counters == t.counters
  {
    TallyUnique(s.counters, s.next, Totals(s), t.counters, t.next, Totals(t));
  }

  lemma TallyUnique(a: map<Ref, Counter>, n: nat, f: Handle -> nat, b: map<Ref, Counter>, m: nat, g: Handle -> nat)
    requires Tally(a, n, f) && Tally(b, m, g)
    requires forall h :: f(h) == g(h)
    ensures a == b
  {
    forall r: Ref
      ensures r in a <==> r in b
      ensures r in a ==> a[r] == b[r]
    {
      assert CountOf(a, Strong(r)) == CountOf(b, Strong(r)) && CountOf(a, Weak(r)) == CountOf(b, Weak(r));
    }
  }

  lemma Counted(s: State, h: Handle)
    requires Conserved(s)
    ensures CountOf(s.counters, h) == Total(s, h)
  {
    assert CountOf(s.counters, h) == Totals(s)(h);
  }

  /** No handle dangles: a strong one reaches a scope, a weak one at least a counter record. */
  lemma NoDangling(s: State, h: Handle)
    requires Inv(s) && s.dying == {} && Total(s, h) > 0
    ensures h.ref in s.counters
    ensures h.Strong? ==> h.ref in s.scopes
  {
    Counted(s, h);
  }

  // ---------------------------------------------------------------------------------------------------
  // Which scopes survive

  ghost predicate Owns(scopes: map<Ref, Scope>, a: Ref, b: Ref) {
    a in scopes && Strong(b) in ScopeHandles(scopes[a])
  }

  /** `k` has a strong handle in `base` or inside a member of `keep`. */
  ghost predicate HasOwner(scopes: map<Ref, Scope>, keep: set<Ref>, base: multiset<Handle>, k: Ref) {
    Strong(k) in base || exists j :: j in keep && Owns(scopes, j, k)
  }

  /** Every member of `keep` has a strong handle in `base` or inside another member. */
  ghost predicate Supported(scopes: map<Ref, Scope>, keep: set<Ref>, base: multiset<Handle>) {
    && keep <= scopes.Keys
    && (forall k {:trigger HasOwner(scopes, keep, base, k)} :: k in keep ==> HasOwner(scopes, keep, base, k))
  }

  /** The largest supported set: what reference counting may keep once only `base` is held from outside. */
  ghost function Survivors(scopes: map<Ref, Scope>, base: multiset<Handle>): set<Ref> {
    set r | r in scopes && exists keep :: r in keep && Supported(scopes, keep, base)
  }

  lemma SurvivorsSupported(scopes: map<Ref, Scope>, base: multiset<Handle>)
    ensures Supported(scopes, Survivors(scopes, base), base)
  {
    var all := Survivors(scopes, base);
    forall k | k in all
      ensures HasOwner(scopes, all, base, k)
    {
      var keep: set<Ref> :| k in keep && Supported(scopes, keep, base);
      assert HasOwner(scopes, keep, base, k);
      if Strong(k) !in base {
        var j :| j in keep && Owns(scopes, j, k);
        assert j in all;
      }
    }
  }

  lemma SurvivorsLargest(scopes: map<Ref, Scope>, keep: set<Ref>, base: multiset<Handle>)
    requires Supported(scopes, keep, base)
    ensures keep <= Survivors(scopes, base)
  {
  }

  /** In a state at rest the live scopes support each other. */
  lemma LiveScopesSupported(s: State)
    requires Inv(s) && s.dying == {}
    ensures Supported(s.scopes, s.scopes.Keys, s.held)
  {
    assert s.scopes - s.dying == s.scopes;
    forall k | k in s.scopes
      ensures HasOwner(s.scopes, s.scopes.Keys, s.held, k)
    {
      Counted(s, Strong(k));
      if Strong(k) !in s.held {
        var j := HeapUsesOwner(s.scopes, Strong(k), s.next);
        assert Owns(s.scopes, j, k);
      }
    }
  }

  ghost predicate Path(scopes: map<Ref, Scope>, p: seq<Ref>) {
    forall i :: 0 < i < |p| ==> Owns(scopes, p[i - 1], p[i])
  }

  /** Safety: whatever the outside can reach through strong handles is alive. */
  lemma {:induction false} ReachableIsAlive(s: State, p: seq<Ref>)
    requires Inv(s) && s.dying == {}
    requires p != [] && Strong(p[0]) in s.held && Path(s.scopes, p)
    ensures p[|p| - 1] in s.scopes
  {
    assert s.scopes - s.dying == s.scopes;
    if |p| == 1 {
      NoDangling(s, Strong(p[0]));
    } else {
      var q := p[..|p| - 1];
      ReachableIsAlive(s, q);
      assert Owns(s.scopes, p[|p| - 2], p[|p| - 1]);
      Counted(s, Strong(p[|p| - 2]));
      HeapUsesContain(s.scopes, Strong(p[|p| - 1]), s.next, p[|p| - 2]);
      NoDangling(s, Strong(p[|p| - 1]));
    }
  }

  // ---------------------------------------------------------------------------------------------------
  // No leak without a cycle

  ghost predicate Cycle(scopes: map<Ref, Scope>, p: seq<Ref>) {
    |p| >= 2 && p[0] == p[|p| - 1] && Path(scopes, p)
  }

  ghost predicate Acyclic(scopes: map<Ref, Scope>) {
    forall p :: !Cycle(scopes, p)
  }

  /** A path of `n` owners leading to `r`, or one that starts at an outside handle. */
  lemma {:induction false} OwnersBackwards(
      scopes: map<Ref, Scope>, keep: set<Ref>, base: multiset<Handle>, r: Ref, n: nat)
    returns (p: seq<Ref>)
    requires Supported(scopes, keep, base) && r in keep
    ensures p != [] && p[|p| - 1] == r && Path(scopes, p) && (forall i :: 0 <= i < |p| ==> p[i] in keep)
    ensures |p| == n + 1 || Strong(p[0]) in base
  {
    hide Owns;
    if n == 0 {
      p := [r];
    } else {
      var q := OwnersBackwards(scopes, keep, base, r, n - 1);
      if Strong(q[0]) in base {
        p := q;
      } else {
        assert HasOwner(scopes, keep, base, q[0]);
        var j :| j in keep && Owns(scopes, j, q[0]);
        p := [j] + q;
        PathGrows(scopes, j, q);
      }
    }
  }

  lemma PathGrows(scopes: map<Ref, Scope>, j: Ref, q: seq<Ref>)
    requires Path(scopes, q) && q != [] && Owns(scopes, j, q[0])
    ensures Path(scopes, [j] + q)
  {
    hide Owns;
    assert forall i :: 0 < i < |[j] + q| ==> ([j] + q)[i] == q[i - 1];
  }

  /** A sequence over a set it outgrows repeats itself. */
  lemma {:induction false} Pigeonhole(p: seq<Ref>, keep: set<Ref>) returns (i: nat, j: nat)
    requires |p| > |keep| && forall k :: 0 <= k < |p| ==> p[k] in keep
    ensures i < j < |p| && p[i] == p[j]
  {
    var rest := p[1..];
    if p[0] in rest {
      i := 0;
      j :| 0 < j < |p| && p[j] == p[0];
    } else {
      i, j := Pigeonhole(rest, keep - {p[0]});
      i, j := i + 1, j + 1;
    }
  }

  lemma SubPath(scopes: map<Ref, Scope>, q: seq<Ref>, i: nat, j: nat)
    requires Path(scopes, q) && i <= j <= |q|
    ensures Path(scopes, q[i..j])
  {
    forall k | 0 < k < j - i ensures Owns(scopes, q[i..j][k - 1], q[i..j][k]) {
      assert Owns(scopes, q[i + k - 1], q[i + k]);
    }
  }

  /**
  A supported scope hangs off an outside handle or off a cycle of strong handles: `p` leads to it from a
  scope that is held from outside, or from one that lies on the cycle `c`.
  */
  lemma SupportCause(scopes: map<Ref, Scope>, keep: set<Ref>, base: multiset<Handle>, r: Ref)
    returns (p: seq<Ref>, c: seq<Ref>)
    requires Supported(scopes, keep, base) && r in keep
    ensures p != [] && p[|p| - 1] == r && Path(scopes, p)
    ensures Strong(p[0]) in base || (Cycle(scopes, c) && c[0] == p[0])
  {
    var q := OwnersBackwards(scopes, keep, base, r, |keep|);
    p, c := q, [];
    if Strong(q[0]) !in base {
      var i, j := Pigeonhole(q, keep);
      SubPath(scopes, q, i, j + 1);
      SubPath(scopes, q, i, |q|);
      c, p := q[i..j + 1], q[i..];
    }
  }

  /** Once nothing is held from outside, a scope that is left over hangs off a cycle of strong handles. */
  lemma LeakNeedsCycle(s: State, r: Ref) returns (p: seq<Ref>, c: seq<Ref>)
    requires Inv(s) && s.dying == {} && s.held == multiset{} && r in s.scopes
    ensures Cycle(s.scopes, c) && p != [] && p[0] == c[0] && p[|p| - 1] == r && Path(s.scopes, p)
  {
    LiveScopesSupported(s);
    p, c := SupportCause(s.scopes, s.scopes.Keys, s.held, r);
  }

  /** Leak freedom: with acyclic ownership and no outside handle nothing is left, not even a counter. */
  lemma NoLeak(s: State)
    requires Inv(s) && s.dying == {} && s.held == multiset{} && Acyclic(s.scopes)
    ensures s.scopes == map[] && s.counters == map[]
    ensures forall r :: 0 <= r < s.next ==> r in s.destroyed && r in s.freed
  {
    if r :| r in s.scopes {
      var p, c := LeakNeedsCycle(s, r);
    }
    assert s.scopes - s.dying == map[];
    forall r: Ref ensures r !in s.counters {
      EmptyHeap(Strong(r), s.next);
      EmptyHeap(Weak(r), s.next);
      Counted(s, Strong(r));
      Counted(s, Weak(r));
    }
  }

  lemma {:induction false} EmptyHeap(h: Handle, n: nat)
    ensures HeapUses(map[], h, n) == 0
  {
    if n > 0 {
      EmptyHeap(h, n - 1);
    }
  }
}
