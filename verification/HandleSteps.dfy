/**
The single steps of reference counting on a `State`, each shown to keep the invariant: taking a handle, giving
one up, tearing a scope down, moving handles into or out of a scope, creating a scope.
*/
module HandleSteps {
  import opened Wrappers
  import opened HandleGraph

  /** What a release may do to the state: scopes disappear, nothing else about them changes. */
  ghost predicate Shrinks(s: State, t: State) {
    && t.scopes.Keys <= s.scopes.Keys
    && (forall k :: k in t.scopes ==> t.scopes[k] == s.scopes[k])
    && (forall d :: d in s.dying && d in s.scopes ==> d in t.scopes)
    && s.dying <= t.dying && s.next == t.next
    && s.destroyed <= t.destroyed && s.freed <= t.freed
  }

  /** The scopes that remain once only `base` is held from outside, with their contents. */
  ghost function Pruned(scopes: map<Ref, Scope>, base: multiset<Handle>): map<Ref, Scope> {
    map k | k in Survivors(scopes, base) :: scopes[k]
  }

  // ---------------------------------------------------------------------------------------------------
  // Single steps on the state

  ghost function Bump(counters: map<Ref, Counter>, h: Handle): map<Ref, Counter>
    requires h.ref in counters
  {
    var c := counters[h.ref];
    counters[h.ref := if h.Strong? then c.(strong := c.strong + 1) else c.(weak := c.weak + 1)]
  }

  lemma BumpTally(counters: map<Ref, Counter>, next: nat, f: Handle -> nat, g: Handle -> nat, h: Handle)
    requires Tally(counters, next, f) && h.ref in counters
    requires forall k :: g(k) == f(k) + if k == h then 1 else 0
    ensures Tally(Bump(counters, h), next, g)
  {
    forall k: Handle ensures CountOf(Bump(counters, h), k) == g(k) {
      assert CountOf(counters, k) == f(k);
    }
  }

  /** Taking one more handle to a record that is in use. */
  lemma Acquire(s: State, h: Handle)
    requires Inv(s) && h.ref in s.counters
    requires h.Strong? ==> h.ref in s.scopes && h.ref !in s.dying
    ensures Inv(s.(counters := Bump(s.counters, h), held := s.held + multiset{h}))
  {
    var t := s.(counters := Bump(s.counters, h), held := s.held + multiset{h});
    BumpTally(s.counters, s.next, Totals(s), Totals(t), h);
  }

  /** The counters after one handle is given up: decrement, and free the record when both counts are zero. */
  ghost function Drop(counters: map<Ref, Counter>, h: Handle): map<Ref, Counter>
    requires h.ref in counters
    requires CountOf(counters, h) > 0
  {
    var c := counters[h.ref];
    var d := if h.Strong? then c.(strong := c.strong - 1) else c.(weak := c.weak - 1);
    if d.strong + d.weak == 0 then counters - {h.ref} else counters[h.ref := d]
  }

  ghost function FreeLog(s: State, h: Handle): seq<Ref>
    requires h.ref in s.counters
    requires CountOf(s.counters, h) > 0
  {
    if h.ref in Drop(s.counters, h) then s.freed else s.freed + [h.ref]
  }

  /** The state after giving up `h`; a dying scope's last handle ends its dying. */
  ghost function Dropped(s: State, h: Handle): State
    requires h.ref in s.counters
    requires CountOf(s.counters, h) > 0
  {
    s.(counters := Drop(s.counters, h), held := s.held - multiset{h}, freed := FreeLog(s, h),
       dying := if h.Strong? then s.dying - {h.ref} else s.dying)
  }

  lemma DropTally(counters: map<Ref, Counter>, next: nat, f: Handle -> nat, g: Handle -> nat, h: Handle)
    requires Tally(counters, next, f) && h.ref in counters && f(h) > 0
    requires forall k :: g(k) == f(k) - if k == h then 1 else 0
    ensures CountOf(counters, h) > 0 && Tally(Drop(counters, h), next, g)
  {
    assert CountOf(counters, h) > 0;
    forall k: Handle ensures CountOf(Drop(counters, h), k) == g(k) {
      assert CountOf(counters, k) == f(k);
    }
  }

  lemma HeldIsCounted(s: State, h: Handle)
    requires Inv(s) && h in s.held
    ensures h.ref in s.counters && CountOf(s.counters, h) > 0
  {
    Counted(s, h);
  }

  lemma HeldIsUsable(s: State, h: Handle)
    requires Inv(s) && s.dying == {} && h in s.held
    ensures h.ref in s.counters
    ensures h.Strong? ==> h.ref in s.scopes
  {
    Counted(s, h);
  }

  /** Each of the handles exists somewhere, in a C variable or in a scope. */
  ghost predicate Around(s: State, hs: multiset<Handle>) {
    forall h :: h in hs ==> Total(s, h) > 0
  }

  lemma HeldIsAround(s: State, hs: multiset<Handle>)
    requires hs <= s.held
    ensures Around(s, hs)
  {
  }

  lemma OwnedIsAround(s: State, r: Ref)
    requires Inv(s) && s.dying == {} && r in s.scopes
    ensures Around(s, ScopeHandles(s.scopes[r]))
  {
    assert s.scopes - s.dying == s.scopes;
    assert StrongOf(s.counters, r) > 0;
    forall h | h in ScopeHandles(s.scopes[r]) ensures Total(s, h) > 0 {
      HeapUsesContain(s.scopes, h, s.next, r);
    }
  }

  lemma StillAround(s: State, t: State, hs: multiset<Handle>)
    requires Around(s, hs) && s.held <= t.held && s.scopes == t.scopes && s.next == t.next && s.dying == t.dying
    ensures Around(t, hs)
  {
    forall h | h in hs ensures Total(t, h) > 0 {
      assert Total(s, h) > 0;
    }
  }

  lemma RetainIfAlive(s: State, r: Ref)
    requires Inv(s) && s.dying == {} && r in s.counters
    ensures s.counters[r].strong > 0 <==> r in s.scopes
  {
    assert StrongOf(s.counters, r) == s.counters[r].strong;
  }

  lemma RecordInUse(s: State, r: Ref)
    requires Inv(s) && r in s.counters
    ensures s.counters[r].strong + s.counters[r].weak > 0
  {
  }

  lemma DroppedTotal(s: State, h: Handle, g: Handle)
    requires h in s.held && h.ref in s.counters && CountOf(s.counters, h) > 0
    requires h.Strong? && h.ref in s.dying ==> h.ref !in s.scopes
    ensures Total(Dropped(s, h), g) == Total(s, g) - if g == h then 1 else 0
  {
    assert s.scopes - s.dying == Dropped(s, h).scopes - Dropped(s, h).dying;
  }

  /** Giving up a held handle keeps the invariant, once a scope down to its last handle has been torn down. */
  lemma GiveUp(s: State, h: Handle)
    requires Inv(s) && h in s.held
    requires h.Strong? && h.ref in s.dying ==> h.ref !in s.scopes
    requires h.Strong? && h.ref !in s.dying ==> StrongOf(s.counters, h.ref) > 1
    ensures h.ref in s.counters && CountOf(s.counters, h) > 0
    ensures Inv(Dropped(s, h))
  {
    HeldIsCounted(s, h);
    forall g ensures Totals(Dropped(s, h))(g) == Totals(s)(g) - if g == h then 1 else 0 {
      DroppedTotal(s, h, g);
    }
    DropTally(s.counters, s.next, Totals(s), Totals(Dropped(s, h)), h);
    DroppedAlive(s, h);
  }

  lemma DroppedAlive(s: State, h: Handle)
    requires Alive(s) && ExactlyOnce(s) && h in s.held && h.ref in s.counters && h.ref < s.next
    requires CountOf(s.counters, h) > 0
    requires h.Strong? && h.ref in s.dying ==> h.ref !in s.scopes
    requires h.Strong? && h.ref !in s.dying ==> StrongOf(s.counters, h.ref) > 1
    ensures Alive(Dropped(s, h)) && ExactlyOnce(Dropped(s, h))
  {
    var t := Dropped(s, h);
    forall r: Ref
      ensures StrongOf(t.counters, r) == StrongOf(s.counters, r) - if h == Strong(r) then 1 else 0
    {
    }
  }

  // ---------------------------------------------------------------------------------------------------
  // Moving handles between C variables and scopes

  lemma SameTotals(s: State, t: State)
    requires Inv(s) && t.counters == s.counters && t.next == s.next
    requires forall g :: Total(t, g) == Total(s, g)
    ensures Conserved(t)
  {
    forall h ensures CountOf(t.counters, h) == Totals(t)(h) {
      Counted(s, h);
    }
  }

  ghost function Dying(s: State, r: Ref): State
    requires r in s.scopes
  {
    s.(dying := s.dying + {r}, held := s.held + ScopeHandles(s.scopes[r]))
  }

  /** When a scope is down to its last handle, its own handles pass to the destructor. */
  lemma StartDying(s: State, r: Ref)
    requires Inv(s) && r in s.scopes && r !in s.dying
    requires Strong(r) in s.held && StrongOf(s.counters, r) == 1
    ensures Inv(Dying(s, r))
    ensures forall d :: d in s.dying + {r} ==> Strong(d) !in ScopeHandles(s.scopes[r])
  {
    var t := Dying(s, r);
    var a, b := s.scopes - s.dying, t.scopes - t.dying;
    forall g ensures Total(t, g) == Total(s, g) {
      HeapUsesUpdate(a, b, r, g, s.next);
      assert Uses(a, r, g) == ScopeHandles(s.scopes[r])[g];
    }
    SameTotals(s, t);
    forall d | d in s.dying + {r} ensures Strong(d) !in ScopeHandles(s.scopes[r]) {
      Counted(s, Strong(d));
      if Strong(d) in ScopeHandles(s.scopes[r]) {
        HeapUsesContain(a, Strong(d), s.next, r);
      }
    }
  }

  /** The destructor of `r` may start its own cascade, with one scope less alive. */
  lemma BeginDestroy(s: State, r: Ref, keep: set<Ref>, base: multiset<Handle>)
    requires Ready(s, multiset{Strong(r)}, keep, base) && r in s.scopes && r !in keep
    requires StrongOf(s.counters, r) == 1
    ensures Ready(Dying(s, r), ScopeHandles(s.scopes[r]), keep, base)
    ensures Live(Dying(s, r)) < Live(s) && Shrinks(s, Dying(s, r))
  {
    hide HandleGraph.Inv;
    StartDying(s, r);
    FewerLive(s.scopes.Keys - s.dying, s.scopes.Keys - (s.dying + {r}), r);
  }

  ghost function Gone(s: State, r: Ref): State {
    s.(scopes := s.scopes - {r}, destroyed := s.destroyed + [r])
  }

  /** Freeing the memory of a dying scope. */
  lemma EndScope(s: State, r: Ref)
    requires Inv(s) && r in s.scopes && r in s.dying
    ensures Inv(Gone(s, r))
  {
    var t := Gone(s, r);
    assert t.scopes - t.dying == s.scopes - s.dying;
    forall g ensures Total(t, g) == Total(s, g) {}
    SameTotals(s, t);
    Counted(s, Strong(r));
    assert r < s.next;
  }

  lemma ReheapTotal(s: State, t: State, r: Ref, g: Handle)
    requires r in s.scopes && r in t.scopes && r !in s.dying && r < s.next && SameExcept(s.scopes, t.scopes, r)
    requires t.next == s.next && t.dying == s.dying
    requires t.held[g] + Uses(t.scopes, r, g) == s.held[g] + Uses(s.scopes, r, g)
    ensures Total(t, g) == Total(s, g)
  {
    var a, b := s.scopes - s.dying, t.scopes - t.dying;
    HeapUsesUpdate(a, b, r, g, s.next);
    assert Uses(a, r, g) == Uses(s.scopes, r, g) && Uses(b, r, g) == Uses(t.scopes, r, g);
  }

  /** Handles change place between C variables and the scope `r`. */
  lemma Reheap(s: State, t: State, r: Ref)
    requires Inv(s) && r in s.scopes && r in t.scopes && r !in s.dying && SameExcept(s.scopes, t.scopes, r)
    requires t == s.(scopes := t.scopes, held := t.held)
    requires forall g :: t.held[g] + Uses(t.scopes, r, g) == s.held[g] + Uses(s.scopes, r, g)
    requires forall d :: d in s.dying ==> Strong(d) in t.held
    ensures Inv(t)
  {
    assert StrongOf(s.counters, r) > 0;
    forall g ensures Total(t, g) == Total(s, g) {
      ReheapTotal(s, t, r, g);
    }
    SameTotals(s, t);
    assert forall k :: k in s.scopes <==> k in t.scopes;
  }

  ghost function Created(s: State, parent: Option<Ref>, weak: bool): State {
    s.(counters := s.counters[s.next := Counter(1, 0)],
       scopes := s.scopes[s.next := Scope([], parent, weak)],
       next := s.next + 1,
       held := s.held - Optional(parent, weak) + multiset{Strong(s.next)})
  }

  lemma FreshIsUncounted(s: State, h: Handle)
    requires Inv(s) && h.ref >= s.next
    ensures Total(s, h) == 0 && h.ref !in s.counters && h.ref !in s.scopes && h.ref !in s.dying
  {
    Counted(s, h);
    assert StrongOf(s.counters, h.ref) == 0;
  }

  lemma HeapUsesInsert(scopes: map<Ref, Scope>, n: nat, scope: Scope, g: Handle)
    requires n !in scopes
    ensures HeapUses(scopes[n := scope], g, n + 1) == HeapUses(scopes, g, n) + ScopeHandles(scope)[g]
  {
    HeapUsesUpdate(scopes, scopes[n := scope], n, g, n);
  }

  lemma CreatedTotal(s: State, parent: Option<Ref>, weak: bool, g: Handle)
    requires s.next !in s.scopes && s.dying == {} && Optional(parent, weak) <= s.held
    ensures Total(Created(s, parent, weak), g) == Total(s, g) + if g == Strong(s.next) then 1 else 0
  {
    var t := Created(s, parent, weak);
    assert s.scopes - s.dying == s.scopes && t.scopes - t.dying == t.scopes;
    HeapUsesInsert(s.scopes, s.next, Scope([], parent, weak), g);
    assert ScopeHandles(Scope([], parent, weak)) == Optional(parent, weak);
  }

  lemma CreatedTally(counters: map<Ref, Counter>, n: nat, f: Handle -> nat, g: Handle -> nat)
    requires Tally(counters, n, f) && f(Strong(n)) == 0 && f(Weak(n)) == 0
    requires forall h :: g(h) == f(h) + if h == Strong(n) then 1 else 0
    ensures Tally(counters[n := Counter(1, 0)], n + 1, g)
  {
    forall h ensures CountOf(counters[n := Counter(1, 0)], h) == g(h) {
      assert CountOf(counters, h) == f(h);
    }
  }

  /** A fresh scope takes over the handle to its parent. */
  lemma CreateScope(s: State, parent: Option<Ref>, weak: bool)
    requires Inv(s) && s.dying == {} && Optional(parent, weak) <= s.held
    ensures Inv(Created(s, parent, weak))
    ensures s.next !in s.scopes && s.next !in s.counters
  {
    var t := Created(s, parent, weak);
    FreshIsUncounted(s, Strong(s.next));
    forall h ensures Totals(t)(h) == Totals(s)(h) + if h == Strong(s.next) then 1 else 0 {
      CreatedTotal(s, parent, weak, h);
    }
    FreshIsUncounted(s, Weak(s.next));
    CreatedTally(s.counters, s.next, Totals(s), Totals(t));
    CreatedAlive(s, t);
  }

  lemma CreatedAlive(s: State, t: State)
    requires Alive(s) && ExactlyOnce(s) && s.dying == {} && t.dying == {}
    requires s.next !in s.scopes && s.next !in s.counters && t.next == s.next + 1
    requires t.counters == s.counters[s.next := Counter(1, 0)]
    requires s.next in t.scopes && SameExcept(s.scopes, t.scopes, s.next)
    requires t.destroyed == s.destroyed && t.freed == s.freed
    ensures Alive(t) && ExactlyOnce(t)
  {
    assert forall r: Ref :: r != s.next ==> StrongOf(t.counters, r) == StrongOf(s.counters, r);
  }

  // ---------------------------------------------------------------------------------------------------
  // Facts the destruction cascade rests on

  lemma FewerLive(live: set<Ref>, rest: set<Ref>, r: Ref)
    requires rest <= live && r in live && r !in rest
    ensures |rest| < |live|
  {
    assert rest <= live - {r};
    CardinalityMonotone(rest, live - {r});
  }

  lemma {:induction false} CardinalityMonotone(a: set<Ref>, b: set<Ref>)
    requires a <= b
    ensures |a| <= |b|
  {
    if a != {} {
      var x :| x in a;
      CardinalityMonotone(a - {x}, b - {x});
    }
  }

  /**
  A cascade may start: the handles `todo` are held apart from `base`, none of them is a dying scope's last one,
  and the scopes in `keep` support each other together with `base`.
  */
  ghost predicate Ready(s: State, todo: multiset<Handle>, keep: set<Ref>, base: multiset<Handle>) {
    && Inv(s) && base + todo <= s.held
    && (forall d :: d in s.dying ==> Strong(d) !in todo && d !in keep)
    && Supported(s.scopes, keep, base)
  }

  /** What a cascade that gives up `todo` did: the invariant holds again and the kept scopes are alive. */
  ghost predicate Cascaded(s: State, t: State, todo: multiset<Handle>, keep: set<Ref>) {
    Inv(t) && t.held == s.held - todo && t.dying == s.dying && Shrinks(s, t) && keep <= t.scopes.Keys
  }

  ghost function Live(s: State): nat {
    |s.scopes.Keys - s.dying|
  }

  lemma SupportedShrinks(s: State, t: State, keep: set<Ref>, base: multiset<Handle>)
    requires Shrinks(s, t) && keep <= t.scopes.Keys && Supported(s.scopes, keep, base)
    ensures Supported(t.scopes, keep, base)
  {
    forall k | k in keep ensures HasOwner(t.scopes, keep, base, k) {
      assert HasOwner(s.scopes, keep, base, k);
      if Strong(k) !in base {
        var j :| j in keep && Owns(s.scopes, j, k);
        assert Owns(t.scopes, j, k);
      }
    }
  }

  /** Half of the work done, the rest may go on. */
  lemma HalfDone(s: State, t: State, a: multiset<Handle>, b: multiset<Handle>, keep: set<Ref>, base: multiset<Handle>)
    requires Ready(s, a + b, keep, base) && Cascaded(s, t, a, keep)
    ensures Ready(t, b, keep, base) && Live(t) <= Live(s)
  {
    CardinalityMonotone(t.scopes.Keys - t.dying, s.scopes.Keys - s.dying);
    SupportedShrinks(s, t, keep, base);
  }

  lemma FirstHalf(s: State, a: multiset<Handle>, b: multiset<Handle>, keep: set<Ref>, base: multiset<Handle>)
    requires Ready(s, a + b, keep, base)
    ensures Ready(s, a, keep, base)
  {
  }

  lemma BothDone(s: State, t: State, u: State, a: multiset<Handle>, b: multiset<Handle>,
                 keep: set<Ref>, base: multiset<Handle>)
    requires Ready(s, a + b, keep, base) && Cascaded(s, t, a, keep) && Cascaded(t, u, b, keep)
    ensures Cascaded(s, u, a + b, keep)
  {
  }

  lemma NothingDone(s: State, keep: set<Ref>, base: multiset<Handle>)
    requires Ready(s, multiset{}, keep, base)
    ensures Cascaded(s, s, multiset{}, keep)
  {
  }

  /** A scope about to lose its last handle has no owner among the kept ones. */
  lemma OutsideKeep(s: State, r: Ref, keep: set<Ref>, base: multiset<Handle>)
    requires Ready(s, multiset{Strong(r)}, keep, base) && StrongOf(s.counters, r) == 1
    ensures r !in keep && r in s.scopes && r !in s.dying
  {
    Counted(s, Strong(r));
    if r in keep {
      assert HasOwner(s.scopes, keep, base, r);
      if Strong(r) !in base {
        var j :| j in keep && Owns(s.scopes, j, r);
        assert StrongOf(s.counters, j) > 0;
        HeapUsesContain(s.scopes - s.dying, Strong(r), s.next, j);
      }
    }
  }

  lemma EnvHandlesEnds(vars: seq<Env>)
    ensures EnvHandles(vars[..0]) == multiset{} && EnvHandles(vars[0..]) == EnvHandles(vars)
    ensures EnvHandles(vars[..|vars|]) == EnvHandles(vars)
    ensures multiset{} + EnvHandles(vars) == EnvHandles(vars)
  {
    assert vars[0..] == vars && vars[..|vars|] == vars;
  }

  lemma EnvHandlesStep(vars: seq<Env>, i: nat)
    requires i < |vars|
    ensures EnvHandles(vars[i..]) == Handles(vars[i].value) + EnvHandles(vars[i + 1..])
    ensures EnvHandles(vars[..i + 1]) == EnvHandles(vars[..i]) + Handles(vars[i].value)
    ensures EnvHandles(vars[..i]) + EnvHandles(vars[i..])
         == EnvHandles(vars[..i]) + Handles(vars[i].value) + EnvHandles(vars[i + 1..])
  {
    assert vars[i..][1..] == vars[i + 1..];
    assert vars[..i + 1] == vars[..i] + [vars[i]];
    EnvHandlesAppend(vars[..i], [vars[i]]);
    assert EnvHandles([vars[i]]) == Handles(vars[i].value);
  }

  // ---------------------------------------------------------------------------------------------------
  // The frame of one release

  /** What the finalizer of `r` leaves behind: `r` is gone, its own last handle is still there. */
  ghost predicate TornDown(s: State, t: State, r: Ref, keep: set<Ref>) {
    && Inv(t) && t.held == s.held && t.dying == s.dying + {r} && r !in t.scopes && r !in s.dying
    && Shrinks(s, t) && keep <= t.scopes.Keys
  }

  ghost predicate CanDrop(s: State, r: Ref) {
    && Inv(s) && Strong(r) in s.held
    && (if r in s.dying then r !in s.scopes else StrongOf(s.counters, r) > 1)
    && r in s.counters && CountOf(s.counters, Strong(r)) > 0
  }

  lemma ReadyToRelease(s: State, r: Ref, keep: set<Ref>, base: multiset<Handle>)
    requires Ready(s, multiset{Strong(r)}, keep, base)
    ensures r in s.counters && s.counters[r].strong > 0 && Strong(r) in s.held
  {
    HeldIsCounted(s, Strong(r));
  }

  lemma LastOfDying(s: State, t: State, r: Ref, keep: set<Ref>)
    requires TornDown(s, t, r, keep) && Strong(r) in s.held
    ensures CanDrop(t, r) && Cascaded(s, Dropped(t, Strong(r)), multiset{Strong(r)}, keep)
  {
    GiveUp(t, Strong(r));
  }

  lemma NotLast(s: State, r: Ref, keep: set<Ref>, base: multiset<Handle>)
    requires Ready(s, multiset{Strong(r)}, keep, base) && StrongOf(s.counters, r) > 1
    ensures CanDrop(s, r) && Cascaded(s, Dropped(s, Strong(r)), multiset{Strong(r)}, keep)
  {
    HeldIsCounted(s, Strong(r));
    GiveUp(s, Strong(r));
  }

  /** The finalizer has given up all handles of `r`; its memory is freed. */
  lemma ScopeEmptied(s: State, t: State, r: Ref, keep: set<Ref>, base: multiset<Handle>)
    requires Ready(s, multiset{Strong(r)}, keep, base) && r in s.scopes && r !in s.dying && r !in keep
    requires Cascaded(Dying(s, r), t, ScopeHandles(s.scopes[r]), keep)
    ensures TornDown(s, Gone(t, r), r, keep)
  {
    hide HandleGraph.Inv, HandleGraph.Supported, HandleGraph.ScopeHandles;
    EndScope(t, r);
    assert r in t.dying && r !in Gone(t, r).scopes;
  }

  // ---------------------------------------------------------------------------------------------------
  // Operations between cascades

  /** At rest a cascade may start on anything held, keeping what the rest of the held handles supports. */
  lemma RestIsReady(s: State, todo: multiset<Handle>)
    requires Inv(s) && s.dying == {} && todo <= s.held
    ensures Ready(s, todo, Survivors(s.scopes, s.held - todo), s.held - todo)
  {
    SurvivorsSupported(s.scopes, s.held - todo);
  }

  /** A cascade from rest leaves exactly the survivors. */
  lemma RestAgain(s: State, t: State, todo: multiset<Handle>)
    requires s.dying == {} && todo <= s.held && Cascaded(s, t, todo, Survivors(s.scopes, s.held - todo))
    ensures t.dying == {} && t.scopes == Pruned(s.scopes, t.held)
  {
    LiveScopesSupported(t);
    forall k | k in t.scopes ensures HasOwner(s.scopes, t.scopes.Keys, t.held, k) {
      assert HasOwner(t.scopes, t.scopes.Keys, t.held, k);
      if Strong(k) !in t.held {
        var j :| j in t.scopes.Keys && Owns(t.scopes, j, k);
        assert Owns(s.scopes, j, k);
      }
    }
    SurvivorsLargest(s.scopes, t.scopes.Keys, t.held);
  }

  /** Giving up handles to scopes that are still held, or owned by another scope, destroys nothing. */
  lemma NothingDies(s: State, base: multiset<Handle>)
    requires Inv(s) && s.dying == {}
    requires forall r :: Strong(r) in s.held ==> HasOwner(s.scopes, s.scopes.Keys, base, r)
    ensures Pruned(s.scopes, base) == s.scopes
  {
    LiveScopesSupported(s);
    forall k | k in s.scopes ensures HasOwner(s.scopes, s.scopes.Keys, base, k) {
      assert HasOwner(s.scopes, s.scopes.Keys, s.held, k);
    }
    SurvivorsLargest(s.scopes, s.scopes.Keys, base);
  }

  /** A scope held from outside survives. */
  lemma HeldSurvives(scopes: map<Ref, Scope>, base: multiset<Handle>, r: Ref)
    requires r in scopes && Strong(r) in base
    ensures r in Survivors(scopes, base)
  {
    assert HasOwner(scopes, {r}, base, r);
    assert Supported(scopes, {r}, base);
  }

  /** So does everything reachable from it. */
  lemma {:induction false} ReachableSurvives(scopes: map<Ref, Scope>, base: multiset<Handle>, p: seq<Ref>)
    requires p != [] && Strong(p[0]) in base && Path(scopes, p) && (forall i :: 0 <= i < |p| ==> p[i] in scopes)
    ensures p[|p| - 1] in Survivors(scopes, base)
  {
    var keep := set i | 0 <= i < |p| :: p[i];
    forall k | k in keep ensures HasOwner(scopes, keep, base, k) {
      var i :| 0 <= i < |p| && p[i] == k;
      if i > 0 {
        assert p[i - 1] in keep && Owns(scopes, p[i - 1], p[i]);
      }
    }
    assert Supported(scopes, keep, base);
  }

  lemma WeakSupportsNothing(scopes: map<Ref, Scope>, a: multiset<Handle>, b: multiset<Handle>)
    requires forall r :: Strong(r) in a <==> Strong(r) in b
    ensures Pruned(scopes, a) == Pruned(scopes, b)
  {
    forall keep ensures Supported(scopes, keep, a) <==> Supported(scopes, keep, b) {
      forall k ensures HasOwner(scopes, keep, a, k) <==> HasOwner(scopes, keep, b, k) {}
      assert Supported(scopes, keep, a) ==> forall k :: k in keep ==> HasOwner(scopes, keep, b, k);
      assert Supported(scopes, keep, b) ==> forall k :: k in keep ==> HasOwner(scopes, keep, a, k);
    }
  }

  lemma PlainHandles()
    ensures Handles(Plain) == multiset{}
  {
  }

  /** The handles `extra` move from scope `r`, whose contents become `rest`, to C variables. */
  lemma TakeOut(s: State, r: Ref, rest: Scope, extra: multiset<Handle>)
    requires Inv(s) && s.dying == {} && r in s.scopes
    requires ScopeHandles(s.scopes[r]) == ScopeHandles(rest) + extra
    ensures Inv(s.(scopes := s.scopes[r := rest], held := s.held + extra))
  {
    var t := s.(scopes := s.scopes[r := rest], held := s.held + extra);
    forall g ensures t.held[g] + Uses(t.scopes, r, g) == s.held[g] + Uses(s.scopes, r, g) {
    }
    Reheap(s, t, r);
  }

  /** The handles `extra` move from C variables into scope `r`, whose contents become `more`. */
  lemma PutIn(s: State, r: Ref, more: Scope, extra: multiset<Handle>)
    requires Inv(s) && s.dying == {} && r in s.scopes && extra <= s.held
    requires ScopeHandles(more) == ScopeHandles(s.scopes[r]) + extra
    ensures Inv(s.(scopes := s.scopes[r := more], held := s.held - extra))
  {
    var t := s.(scopes := s.scopes[r := more], held := s.held - extra);
    forall g ensures t.held[g] + Uses(t.scopes, r, g) == s.held[g] + Uses(s.scopes, r, g) {
    }
    Reheap(s, t, r);
  }

  lemma WithoutParent(s: Scope)
    ensures ScopeHandles(s) == ScopeHandles(s.(parent := None)) + Optional(s.parent, s.weakRef)
  {
  }

  lemma WithParent(s: Scope, parent: Option<Ref>, weak: bool)
    requires s.parent == None
    ensures ScopeHandles(s.(parent := parent, weakRef := weak)) == ScopeHandles(s) + Optional(parent, weak)
  {
  }

  function SetVar(s: Scope, i: nat, v: Value): Scope
    requires i < |s.vars|
  {
    s.(vars := s.vars[i := s.vars[i].(value := v)])
  }

  function AddVar(s: Scope, e: Env): Scope {
    s.(vars := s.vars + [e])
  }

  function RemoveVar(s: Scope, i: nat): Scope
    requires i < |s.vars|
  {
    s.(vars := s.vars[..i] + s.vars[i + 1..])
  }

  lemma SetVarHandles(s: Scope, i: nat, v: Value)
    requires i < |s.vars|
    ensures ScopeHandles(SetVar(s, i, v)) + Handles(s.vars[i].value) == ScopeHandles(s) + Handles(v)
  {
    var e := s.vars[i].(value := v);
    assert s.vars == s.vars[..i] + ([s.vars[i]] + s.vars[i + 1..]);
    assert s.vars[i := e] == s.vars[..i] + ([e] + s.vars[i + 1..]);
    EnvHandlesAppend(s.vars[..i], [s.vars[i]] + s.vars[i + 1..]);
    EnvHandlesAppend(s.vars[..i], [e] + s.vars[i + 1..]);
    assert ([e] + s.vars[i + 1..])[1..] == s.vars[i + 1..] == ([s.vars[i]] + s.vars[i + 1..])[1..];
  }

  lemma AddVarHandles(s: Scope, e: Env)
    ensures ScopeHandles(AddVar(s, e)) == ScopeHandles(s) + Handles(e.value)
  {
    EnvHandlesAppend(s.vars, [e]);
    assert EnvHandles([e]) == Handles(e.value);
  }

  lemma RemoveVarHandles(s: Scope, i: nat)
    requires i < |s.vars|
    ensures ScopeHandles(s) == ScopeHandles(RemoveVar(s, i)) + Handles(s.vars[i].value)
  {
    assert s.vars == s.vars[..i] + ([s.vars[i]] + s.vars[i + 1..]);
    EnvHandlesAppend(s.vars[..i], [s.vars[i]] + s.vars[i + 1..]);
    EnvHandlesAppend(s.vars[..i], s.vars[i + 1..]);
    assert ([s.vars[i]] + s.vars[i + 1..])[1..] == s.vars[i + 1..];
  }

  function NameIndex(vars: seq<Env>, name: string): (i: nat)
    ensures i <= |vars|
    ensures forall j :: 0 <= j < i ==> vars[j].name != name
    ensures i < |vars| ==> vars[i].name == name
  {
    if vars == [] || vars[0].name == name then 0 else 1 + NameIndex(vars[1..], name)
  }

  lemma EnvHandlesSplit(vars: seq<Env>, i: nat)
    requires i < |vars|
    ensures EnvHandles(vars) == EnvHandles(vars[..i]) + Handles(vars[i].value) + EnvHandles(vars[i + 1..])
  {
    hide EnvHandles, Handles;
    assert vars == vars[..i] + vars[i..];
    EnvHandlesAppend(vars[..i], vars[i..]);
    EnvHandlesStep(vars, i);
  }

  lemma ParentIsUsable(s: State, r: Ref)
    requires Inv(s) && s.dying == {} && r in s.scopes && s.scopes[r].parent.Some? && !s.scopes[r].weakRef
    ensures s.scopes[r].parent.value in s.scopes && s.scopes[r].parent.value in s.counters
  {
    var h := Strong(s.scopes[r].parent.value);
    assert s.scopes - s.dying == s.scopes;
    assert StrongOf(s.counters, r) > 0;
    HeapUsesContain(s.scopes, h, s.next, r);
    NoDangling(s, h);
  }

  /** Giving up the handle to a parent that is held elsewhere destroys nothing. */
  lemma SpareParent(s: State, r: Ref, p: Ref)
    requires Inv(s) && s.dying == {} && r in s.scopes && s.scopes[r].parent == Some(p)
    requires Strong(p) in s.held
    ensures var orphan := s.scopes[r := s.scopes[r].(parent := None)]; Pruned(orphan, s.held) == orphan
  {
    hide HandleGraph.Inv, HandleGraph.Supported;
    var orphan := s.scopes[r := s.scopes[r].(parent := None)];
    LiveScopesSupported(s);
    OrphanSupported(s.scopes, r, p, s.held);
    assert orphan.Keys == s.scopes.Keys;
    SurvivorsLargest(orphan, orphan.Keys, s.held);
  }

  lemma OrphanSupported(scopes: map<Ref, Scope>, r: Ref, p: Ref, base: multiset<Handle>)
    requires r in scopes && scopes[r].parent == Some(p) && Strong(p) in base
    requires Supported(scopes, scopes.Keys, base)
    ensures Supported(scopes[r := scopes[r].(parent := None)], scopes.Keys, base)
  {
    var orphan := scopes[r := scopes[r].(parent := None)];
    forall k | k in scopes.Keys ensures HasOwner(orphan, scopes.Keys, base, k) {
      assert HasOwner(scopes, scopes.Keys, base, k);
      if Strong(k) !in base {
        var j :| j in scopes.Keys && Owns(scopes, j, k);
        OrphanOwns(scopes, r, p, j, k);
      }
    }
  }

  lemma OrphanOwns(scopes: map<Ref, Scope>, r: Ref, p: Ref, j: Ref, k: Ref)
    requires r in scopes && scopes[r].parent == Some(p) && k != p && Owns(scopes, j, k)
    ensures Owns(scopes[r := scopes[r].(parent := None)], j, k)
  {
    if j == r {
      WithoutParent(scopes[r]);
    }
  }

  /**
  The heap after a function or type expression evaluated in scope `current`: `vars` are the parameters with their
  defaults, or the members, and `name` is bound to the value.
  */
  function WithClosure(
    scopes: map<Ref, Scope>, current: Ref, closure: Ref, vars: seq<Env>, weakRef: bool, name: string): map<Ref, Scope>
    requires current in scopes
  {
    var made := scopes[closure := Scope(vars, Some(current), weakRef)];
    if name == "" then made
    else made[current := AddVar(scopes[current], Env(name, Fn(closure, false, None)))]
  }

  lemma LiveIsOlder(s: State, r: Ref)
    requires Inv(s) && r in s.scopes
    ensures r < s.next
  {
    if r >= s.next {
      FreshIsUncounted(s, Strong(r));
    }
  }
}
