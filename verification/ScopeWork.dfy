/**
What evaluating function, type and instance expressions and blocks does to the heap of scopes, and which expressions
leave scopes behind: those that store a value in a scope which the value itself keeps alive.
*/
module ScopeWork {
  import opened Wrappers
  import opened HandleGraph
  import opened HandleSteps
  import opened Cycles
  import opened Tangles

  /**
  Expressions, reduced to their work on scopes: a literal; a name, which lookup finds as binding `i` of the scope `at`;
  a function with its parameters and their defaults; a type with its members; an instance of the type that lookup finds,
  with its initial members; a block. A slot is a parameter, a member or a block item, and may declare a name.
  */
  datatype Expr =
    | Literal
    | Copy(at: Ref, i: nat)
    | FnExpr(name: string, params: seq<Slot>)
    | TypeExpr(name: string, members: seq<Slot>)
    | InstExpr(name: string, at: Ref, i: nat, inits: seq<Slot>)
    | BlockExpr(items: seq<Slot>)
  datatype Slot = Slot(name: string, e: Expr)

  /** The name that the expression binds itself where it is evaluated. */
  function Sugar(e: Expr): string {
    if e.FnExpr? || e.TypeExpr? || e.InstExpr? then e.name else ""
  }

  /** Does the value own the scope it was made in, when its parent is not downgraded? */
  predicate Reaching(e: Expr) {
    match e
    case Literal => false
    case Copy(_, _) => false
    case BlockExpr(items) => items != [] && Reaching(items[|items| - 1].e)
    case _ => true
  }

  /** The slot leaves scopes behind, or stores a value in a scope that the value keeps alive. */
  predicate Ties(slot: Slot, weak: bool) {
    Leaks(slot.e) || (!weak && Reaching(slot.e) && (Sugar(slot.e) != "" || slot.name != ""))
  }

  predicate TiesAny(slots: seq<Slot>, weak: bool) {
    exists i :: 0 <= i < |slots| && Ties(slots[i], weak)
  }

  /**
  Evaluating the expression leaves scopes behind that nothing can free. Defaults and block items are evaluated with
  `weak_ref` off, members and initial members with it on.
  */
  predicate Leaks(e: Expr) {
    match e
    case FnExpr(_, params) => TiesAny(params, false)
    case TypeExpr(_, members) => TiesAny(members, true)
    case InstExpr(_, _, _, inits) => TiesAny(inits, true)
    case BlockExpr(items) => TiesAny(items, false)
    case _ => false
  }

  lemma TiesMore(slots: seq<Slot>, i: nat, weak: bool)
    requires i < |slots|
    ensures TiesAny(slots[..i + 1], weak) <==> TiesAny(slots[..i], weak) || Ties(slots[i], weak)
  {
    hide Ties;
    assert slots[..i + 1][i] == slots[i];
    assert forall j :: 0 <= j < i ==> slots[..i + 1][j] == slots[..i][j];
  }

  // ---------------------------------------------------------------------------------------------------
  // Names

  function SlotEnvs(slot: Slot, v: Value): seq<Env> {
    (if Sugar(slot.e) == "" then [] else [Env(Sugar(slot.e), v)])
    + (if slot.name == "" then [] else [Env(slot.name, v)])
  }

  function Names(vars: seq<Env>): (names: seq<string>)
    ensures |names| == |vars|
  {
    if vars == [] then [] else Names(vars[..|vars| - 1]) + [vars[|vars| - 1].name]
  }

  function NamesOf(slot: Slot): seq<string> {
    (if Sugar(slot.e) == "" then [] else [Sugar(slot.e)]) + (if slot.name == "" then [] else [slot.name])
  }

  /** The names the slots bind, in order. */
  function SlotNames(slots: seq<Slot>): seq<string> {
    if slots == [] then [] else SlotNames(slots[..|slots| - 1]) + NamesOf(slots[|slots| - 1])
  }

  predicate Different(names: seq<string>) {
    forall i, j :: 0 <= i < j < |names| ==> names[i] != names[j]
  }

  /** No name is bound twice in one scope. */
  predicate WellNamed(e: Expr) {
    match e
    case FnExpr(_, params) => SlotsNamed(params)
    case TypeExpr(_, members) => SlotsNamed(members)
    case InstExpr(_, _, _, inits) => SlotsNamed(inits) && "self" !in SlotNames(inits)
    case BlockExpr(items) => SlotsNamed(items)
    case _ => true
  }

  predicate SlotsNamed(slots: seq<Slot>) {
    Different(SlotNames(slots)) && forall i :: 0 <= i < |slots| ==> WellNamed(slots[i].e)
  }

  lemma {:induction false} NameAt(vars: seq<Env>, i: nat)
    requires i < |vars|
    ensures Names(vars)[i] == vars[i].name
  {
    if i < |vars| - 1 {
      NameAt(vars[..|vars| - 1], i);
    }
  }

  lemma {:induction false} NamesAppend(a: seq<Env>, b: seq<Env>)
    ensures Names(a + b) == Names(a) + Names(b)
  {
    if b == [] {
      assert a + b == a;
    } else {
      assert (a + b)[..|a + b| - 1] == a + b[..|b| - 1];
      NamesAppend(a, b[..|b| - 1]);
    }
  }

  lemma NewNames(vars: seq<Env>, name: string)
    requires name !in Names(vars)
    ensures NameIndex(vars, name) == |vars|
  {
    var i := NameIndex(vars, name);
    if i < |vars| {
      NameAt(vars, i);
    }
  }

  lemma SlotNamesMore(slots: seq<Slot>, i: nat)
    requires i < |slots|
    ensures SlotNames(slots[..i + 1]) == SlotNames(slots[..i]) + NamesOf(slots[i])
  {
    assert slots[..i + 1][..i] == slots[..i] && slots[..i + 1][i] == slots[i];
  }

  lemma {:induction false} NamesPrefix(slots: seq<Slot>, i: nat)
    requires i <= |slots|
    ensures SlotNames(slots[..i]) <= SlotNames(slots)
    decreases |slots| - i
  {
    if i < |slots| {
      SlotNamesMore(slots, i);
      NamesPrefix(slots, i + 1);
    } else {
      assert slots[..i] == slots;
    }
  }

  lemma SlotEnvNames(slot: Slot, v: Value)
    ensures Names(SlotEnvs(slot, v)) == NamesOf(slot)
  {
    var a := if Sugar(slot.e) == "" then [] else [Env(Sugar(slot.e), v)];
    var b := if slot.name == "" then [] else [Env(slot.name, v)];
    NamesAppend(a, b);
    OneName(Env(Sugar(slot.e), v));
    OneName(Env(slot.name, v));
  }

  lemma OneName(e: Env)
    ensures Names([e]) == [e.name]
  {
    assert [e][..0] == [];
  }

  /** The names of slot `i` are new in a scope that holds those of the slots before it. */
  predicate Unused(vars: seq<Env>, slot: Slot) {
    && (Sugar(slot.e) != "" ==> Sugar(slot.e) !in Names(vars))
    && (slot.name != "" ==> slot.name !in Names(vars) && slot.name != Sugar(slot.e))
  }

  lemma NextSlotUnused(slots: seq<Slot>, i: nat, vars: seq<Env>)
    requires i < |slots| && Different(SlotNames(slots)) && Names(vars) == SlotNames(slots[..i])
    ensures Unused(vars, slots[i])
  {
    SlotNamesMore(slots, i);
    NamesPrefix(slots, i + 1);
    hide SlotNames, Names, Different, WellNamed;
    NewInSlot(slots[i], SlotNames(slots), vars);
  }

  lemma NewInSlot(slot: Slot, all: seq<string>, vars: seq<Env>)
    requires Different(all) && Names(vars) + NamesOf(slot) <= all
    ensures Unused(vars, slot)
  {
    var mine := NamesOf(slot);
    LaterDiffers(all, Names(vars), mine);
    hide Names, Different;
    assert slot.name != "" ==> mine[|mine| - 1] == slot.name;
    assert Sugar(slot.e) != "" ==> mine[0] == Sugar(slot.e);
  }

  lemma LaterDiffers(all: seq<string>, before: seq<string>, mine: seq<string>)
    requires Different(all) && before + mine <= all
    ensures forall j :: 0 <= j < |mine| ==> mine[j] !in before
    ensures forall j, k :: 0 <= j < k < |mine| ==> mine[j] != mine[k]
  {
    var b := |before|;
    assert forall j :: 0 <= j < |mine| ==> (before + mine)[b + j] == mine[j];
    forall j | 0 <= j < |mine| ensures mine[j] == all[b + j] && mine[j] !in before {
      assert forall k :: 0 <= k < b ==> before[k] == (before + mine)[k] == all[k];
    }
  }

  /** One more slot has been bound. */
  lemma SlotBound(slots: seq<Slot>, i: nat, vars: seq<Env>, v: Value)
    requires i < |slots| && Names(vars) == SlotNames(slots[..i])
    ensures Names(vars + SlotEnvs(slots[i], v)) == SlotNames(slots[..i + 1])
  {
    NamesAppend(vars, SlotEnvs(slots[i], v));
    SlotEnvNames(slots[i], v);
    SlotNamesMore(slots, i);
  }

  // ---------------------------------------------------------------------------------------------------
  // Work in one scope

  /** The scope `r` has the bindings `added` besides; the other old scopes are as they were; the rest is new. */
  ghost predicate Grown(a: map<Ref, Scope>, b: map<Ref, Scope>, r: Ref, added: seq<Env>, n: nat) {
    && (forall k :: k in a ==> k in b && b[k] == if k == r then a[r].(vars := a[r].vars + added) else a[k])
    && (forall k :: k in b ==> k in a || k >= n)
  }

  /** Nothing is running, and C variables hold `extra` besides what they held. */
  ghost predicate Worked(s: State, t: State, r: Ref, added: seq<Env>, extra: multiset<Handle>) {
    && Inv(t) && t.dying == {} && t.held == s.held + extra && s.next <= t.next
    && Grown(s.scopes, t.scopes, r, added, s.next)
  }

  lemma WorkedBoth(s: State, t: State, u: State, r: Ref, added: seq<Env>, more: seq<Env>,
                   extra: multiset<Handle>, rest: multiset<Handle>)
    requires r in s.scopes
    requires Worked(s, t, r, added, extra) && Worked(t, u, r, more, rest)
    ensures Worked(s, u, r, added + more, extra + rest)
  {
    hide Inv;
    assert s.scopes[r].vars + (added + more) == s.scopes[r].vars + added + more;
  }

  lemma NothingWorked(s: State, r: Ref)
    requires Inv(s) && s.dying == {} && r in s.scopes
    ensures Worked(s, s, r, [], multiset{})
  {
    assert s.scopes[r].vars + [] == s.scopes[r].vars;
  }

  /** The old scopes outlive whatever was taken besides, as they own what they owned. */
  lemma OldSurvive(s: State, now: map<Ref, Scope>, r: Ref, added: seq<Env>, base: multiset<Handle>)
    requires Inv(s) && s.dying == {} && Grown(s.scopes, now, r, added, s.next)
    requires forall k :: Strong(k) in s.held ==> k in Survivors(now, base)
    ensures s.scopes.Keys <= Survivors(now, base)
  {
    hide Inv, Survivors;
    LiveScopesSupported(s);
    SurvivorsSupported(now, base);
    var keep := s.scopes.Keys + Survivors(now, base);
    forall k | k in keep ensures HasOwner(now, keep, base, k) {
      if k in Survivors(now, base) {
        assert HasOwner(now, Survivors(now, base), base, k);
      } else {
        assert HasOwner(s.scopes, s.scopes.Keys, s.held, k);
        var j :| j in s.scopes && Owns(s.scopes, j, k);
        GrownOwns(s.scopes, now, r, added, s.next, j, k);
      }
    }
    SurvivorsLargest(now, keep, base);
  }

  lemma GrownOwns(a: map<Ref, Scope>, b: map<Ref, Scope>, r: Ref, added: seq<Env>, n: nat, x: Ref, y: Ref)
    requires Grown(a, b, r, added, n) && Owns(a, x, y)
    ensures Owns(b, x, y)
  {
    if x == r {
      EnvHandlesAppend(a[r].vars, added);
    }
  }

  /** Some of what was taken is given back. */
  lemma FreedOnTheWay(s: State, t: State, u: State, r: Ref, added: seq<Env>, extra: multiset<Handle>,
                      rest: multiset<Handle>)
    requires Inv(s) && s.dying == {} && r in s.scopes && Worked(s, t, r, added, extra) && rest <= extra
    requires Inv(u) && u.dying == {} && u.held == s.held + rest && u.next == t.next
    requires u.scopes == Pruned(t.scopes, u.held)
    ensures Worked(s, u, r, added, rest)
  {
    hide Inv, Survivors;
    forall k | Strong(k) in s.held ensures k in Survivors(t.scopes, u.held) {
      HeldIsUsable(s, Strong(k));
      HeldSurvives(t.scopes, u.held, k);
    }
    OldSurvive(s, t.scopes, r, added, u.held);
    SurvivorsSupported(t.scopes, u.held);
  }

  lemma GrownAt(a: map<Ref, Scope>, b: map<Ref, Scope>, r: Ref, added: seq<Env>, n: nat)
    requires Grown(a, b, r, added, n) && r in a
    ensures r in b && b[r] == a[r].(vars := a[r].vars + added)
    ensures a[r].vars == [] ==> b[r].vars == added
    ensures added == [] ==> b[r] == a[r]
  {
    assert a[r].vars + [] == a[r].vars;
  }

  lemma FunctionHandles(closure: Ref)
    ensures Handles(Fn(closure, false, None)) == multiset{Strong(closure)}
  {
  }

  /** Work inside a new scope leaves the old ones alone. */
  lemma GrownInside(a: map<Ref, Scope>, filled: map<Ref, Scope>, left: map<Ref, Scope>, current: Ref, inner: Ref,
                    added: seq<Env>, n: nat, weakRef: bool)
    requires inner == n && inner !in a && current in a
    requires Grown(a[inner := Scope([], Some(current), false)], filled, inner, added, n + 1)
    requires inner in filled && left == filled[inner := filled[inner].(weakRef := weakRef)]
    ensures Grown(a, left, current, [], n)
    ensures forall k :: k in filled ==> k >= n || (k in a && filled[k] == a[k])
  {
    var pushed := a[inner := Scope([], Some(current), false)];
    assert forall k :: k in a ==> k in pushed && pushed[k] == a[k];
    assert forall k :: k in pushed ==> k in a || k == inner;
    assert a[current].vars + [] == a[current].vars;
  }

  lemma ClosedLeads(scopes: map<Ref, Scope>, v: Value, r: Ref, current: Ref, n: nat)
    requires r in scopes && current in scopes && n <= r && scopes[r].parent == Some(current) && Strong(r) in Handles(v)
    ensures !scopes[r].weakRef && n <= current ==> Leads(scopes, v, current, n)
  {
    if !scopes[r].weakRef && n <= current {
      assert Path(scopes, [r]);
      assert LeadsBy(scopes, v, r, n, [r]);
      LeadsToParent(scopes, v, r, current, n);
    }
  }

  lemma NoSlots(slots: seq<Slot>, weak: bool, scopes: map<Ref, Scope>, r: Ref)
    requires r in scopes && scopes[r].vars == []
    ensures !TiesAny(slots[..0], weak) && SlotNames(slots[..0]) == [] && Names([]) == []
    ensures WithDefaults(scopes, r, slots[..0]) == scopes
  {
  }

  lemma SlotNamed(slots: seq<Slot>, i: nat)
    requires SlotsNamed(slots) && i < |slots|
    ensures Different(SlotNames(slots)) && WellNamed(slots[i].e)
  {
  }

  /** What the last binding of a scope owns has an owner. */
  lemma BoundElsewhere(s: State, r: Ref, v: Value, base: multiset<Handle>)
    requires r in s.scopes && s.scopes[r].vars != [] && s.scopes[r].vars[|s.scopes[r].vars| - 1].value == v
    requires base == s.held - Handles(v)
    ensures forall k :: Strong(k) in s.held ==> HasOwner(s.scopes, s.scopes.Keys, base, k)
  {
    BoundHandles(s.scopes[r], |s.scopes[r].vars| - 1);
    hide Handles, ScopeHandles, EnvHandles;
    forall k | Strong(k) in s.held ensures HasOwner(s.scopes, s.scopes.Keys, base, k) {
      GivenUp(s.held, Handles(v), Strong(k));
      if Strong(k) in Handles(v) {
        InAndOut(Handles(v), ScopeHandles(s.scopes[r]), Strong(k));
        assert Owns(s.scopes, r, k);
      }
    }
  }

  lemma InAndOut(a: multiset<Handle>, b: multiset<Handle>, h: Handle)
    requires h in a && a <= b
    ensures h in b
  {
  }

  lemma GivenUp(a: multiset<Handle>, b: multiset<Handle>, h: Handle)
    requires h in a
    ensures h in a - b || h in b
  {
  }

  lemma BoundHandles(s: Scope, i: nat)
    requires i < |s.vars|
    ensures Handles(s.vars[i].value) <= EnvHandles(s.vars) <= ScopeHandles(s)
  {
    EnvHandlesSplit(s.vars, i);
    hide EnvHandles, Handles;
  }

  lemma OtherName(vars: seq<Env>, added: seq<Env>, slot: Slot, v: Value)
    requires Unused(vars, slot) && slot.name != ""
    requires added == if Sugar(slot.e) == "" then [] else [Env(Sugar(slot.e), v)]
    ensures slot.name !in Names(vars + added)
  {
    NamesAppend(vars, added);
    OneName(Env(Sugar(slot.e), v));
  }

  lemma AddedWorks(start: State, before: State, after: State, r: Ref, added: seq<Env>, e: Env, extra: multiset<Handle>)
    requires r in start.scopes && r in before.scopes && Worked(start, before, r, added, extra)
    requires Inv(after) && after.dying == {} && after.held == before.held && after.next == before.next
    requires after.scopes == before.scopes[r := AddVar(before.scopes[r], e)]
    ensures Worked(start, after, r, added + [e], extra)
  {
    hide Inv;
    assert start.scopes[r].vars + (added + [e]) == start.scopes[r].vars + added + [e];
  }

  lemma PlainIsClear(scopes: map<Ref, Scope>, open: set<Ref>)
    ensures Clear(scopes, Handles(Plain), open) && Handles(Plain) == multiset{}
  {
    PlainHandles();
  }

  predicate ReachingLast(items: seq<Slot>, i: nat)
    requires i <= |items|
  {
    i > 0 && Reaching(items[i - 1].e)
  }

  lemma LastReaching(items: seq<Slot>)
    ensures ReachingLast(items, |items|) <==> Reaching(BlockExpr(items))
  {
  }

  lemma SugarReaches(e: Expr)
    ensures Sugar(e) != "" ==> Reaching(e)
  {
  }

  lemma PlainIsValued(scopes: map<Ref, Scope>, r: Ref, open: set<Ref>)
    ensures Valued(scopes, Plain, r, false, open) && Handles(Plain) == multiset{}
  {
    PlainIsClear(scopes, open);
  }

  /** The value of the item before is freed. */
  lemma ItemsFreed(start: State, before: State, middle: State, block: Ref, added: seq<Env>, v: Value, bad: bool, n: nat,
                   open: set<Ref>)
    requires Inv(start) && start.dying == {} && block in start.scopes && Worked(start, before, block, added, Handles(v))
    requires Inv(middle) && middle.dying == {} && middle.held == before.held - Handles(v) && middle.next == before.next
    requires middle.scopes == Pruned(before.scopes, middle.held) && Judged(start.scopes, before.scopes, bad, n, open)
    ensures Worked(start, middle, block, added, multiset{}) && Judged(start.scopes, middle.scopes, bad, n, open)
    ensures Fine(start.scopes, n, open) && !bad ==> Fine(middle.scopes, n, open)
  {
    hide Inv, Handles, Grown, Fine, Pruned, Survivors;
    FreedOnTheWay(start, before, middle, block, added, Handles(v), multiset{});
    PrunedJudged(before.scopes, middle.held, n, open);
    JudgedBoth(start.scopes, before.scopes, middle.scopes, bad, false, n, open);
  }

  lemma TypePushed(scopes: map<Ref, Scope>, r: Ref, s: Scope, at: Ref, i: nat)
    requires r !in scopes
    ensures TypeAt(scopes, at, i).Some? ==> at != r && TypeAt(scopes[r := s], at, i) == TypeAt(scopes, at, i)
  {
  }

  /** Another scope is what it was. */
  lemma OtherScope(a: map<Ref, Scope>, b: map<Ref, Scope>, r: Ref, added: seq<Env>, n: nat, at: Ref, i: nat)
    requires Grown(a, b, r, added, n) && at != r
    ensures TypeAt(a, at, i).Some? ==> TypeAt(b, at, i) == TypeAt(a, at, i)
  {
  }

  lemma FineType(scopes: map<Ref, Scope>, at: Ref, i: nat, n: nat, open: set<Ref>)
    ensures Fine(scopes, n, open) ==> Clear(scopes, Optional(TypeAt(scopes, at, i), false), open)
    ensures Clear(scopes, multiset{}, open)
  {
    if Fine(scopes, n, open) {
      TypeIsClear(scopes, at, i, open);
    }
  }

  /** C variables hold more than before. */
  lemma HeldBesides(s: State, t: State, r: Ref, extra: multiset<Handle>)
    requires r in s.scopes && Inv(t) && t.dying == {} && t.scopes == s.scopes && t.next == s.next
    requires t.held == s.held + extra
    ensures Worked(s, t, r, [], extra)
  {
    assert s.scopes[r].vars + [] == s.scopes[r].vars;
  }

  // ---------------------------------------------------------------------------------------------------
  // Functions whose defaults make no scopes

  predicate Simple(e: Expr) {
    e.Literal? || e.Copy?
  }

  predicate AllSimple(slots: seq<Slot>) {
    forall i :: 0 <= i < |slots| ==> Simple(slots[i].e) && slots[i].name != ""
  }

  function DefaultOf(scopes: map<Ref, Scope>, e: Expr): Value {
    if e.Copy? && e.at in scopes && e.i < |scopes[e.at].vars| then scopes[e.at].vars[e.i].value else Plain
  }

  /** The bindings of the closure scope; a default may be an earlier parameter. */
  function DefaultsOf(scopes: map<Ref, Scope>, closure: Ref, params: seq<Slot>): seq<Env>
    requires closure in scopes
  {
    if params == [] then []
    else
      var before := DefaultsOf(scopes, closure, params[..|params| - 1]);
      var p := params[|params| - 1];
      before + [Env(p.name, DefaultOf(scopes[closure := scopes[closure].(vars := before)], p.e))]
  }

  function WithDefaults(scopes: map<Ref, Scope>, closure: Ref, params: seq<Slot>): map<Ref, Scope>
    requires closure in scopes
  {
    scopes[closure := scopes[closure].(vars := DefaultsOf(scopes, closure, params))]
  }

  lemma MoreDefaults(scopes: map<Ref, Scope>, closure: Ref, params: seq<Slot>, i: nat)
    requires closure in scopes && i < |params|
    ensures var w := WithDefaults(scopes, closure, params[..i]);
            WithDefaults(scopes, closure, params[..i + 1])
            == w[closure := AddVar(w[closure], Env(params[i].name, DefaultOf(w, params[i].e)))]
    ensures AllSimple(params) ==> Simple(params[i].e) && params[i].name != ""
  {
    assert params[..i + 1][..i] == params[..i] && params[..i + 1][i] == params[i];
  }

  /** The closure scope that a function expression leaves behind. */
  ghost predicate ClosureMade(a: map<Ref, Scope>, b: map<Ref, Scope>, next: nat, current: Ref, closure: Ref,
                              params: seq<Slot>, weakRef: bool) {
    && closure in b && b[closure].parent == Some(current) && b[closure].weakRef == weakRef
    && Names(b[closure].vars) == SlotNames(params)
    && (AllSimple(params) ==>
          var vars := DefaultsOf(a[closure := Scope([], Some(current), false)], closure, params);
          next == closure + 1 && b == a[closure := Scope(vars, Some(current), weakRef)])
  }

  lemma ClosureIsMade(a: map<Ref, Scope>, pushed: map<Ref, Scope>, filled: map<Ref, Scope>, b: map<Ref, Scope>,
                      next: nat, current: Ref, closure: Ref, params: seq<Slot>, added: seq<Env>, weakRef: bool)
    requires pushed == a[closure := Scope([], Some(current), false)]
    requires closure in filled && filled[closure] == pushed[closure].(vars := added)
    requires b == filled[closure := filled[closure].(weakRef := weakRef)] && Names(added) == SlotNames(params)
    requires AllSimple(params) ==> next == closure + 1 && filled == WithDefaults(pushed, closure, params)
    ensures ClosureMade(a, b, next, current, closure, params, weakRef)
  {
  }

  /** The value of a function or type expression. */
  function ObjectValue(r: Ref, isFn: bool): Value {
    if isFn then Fn(r, false, None) else TypeOrInst(r, false, None)
  }

  lemma ObjectHandles(r: Ref, isFn: bool)
    ensures Handles(ObjectValue(r, isFn)) == multiset{Strong(r)}
  {
  }

  lemma PushedFine(start: State, current: Ref, n: nat, open: set<Ref>)
    requires Inv(start) && start.dying == {} && start.next !in start.scopes && current < start.next
    requires forall x :: x in open ==> x < start.next
    ensures var b := start.scopes[start.next := Scope([], Some(current), false)];
            && (Tangled(start.scopes, n) ==> Tangled(b, n))
            && (Fine(start.scopes, n, open) ==> Fine(b, n, open + {start.next}))
  {
    hide Inv, Fine, Tangled;
    PushJudged(start, start.next, current, n, open);
  }

  /** From the pushed scope, its slots bound, to the function or type. */
  lemma ObjectDone(start: State, pushed: State, filled: State, done: State, current: Ref, slots: seq<Slot>,
                   isFn: bool, added: seq<Env>, weakRef: bool, n: nat, open: set<Ref>)
    requires Inv(start) && start.dying == {}
    requires current in start.scopes && current < start.next && start.next !in start.scopes && n <= start.next
    requires forall x :: x in open ==> x < start.next
    requires pushed.scopes == start.scopes[start.next := Scope([], Some(current), false)]
    requires pushed.next == start.next + 1 && Worked(pushed, filled, start.next, added, multiset{})
    requires Judged(pushed.scopes, filled.scopes, TiesAny(slots, !isFn), n, open + {start.next})
    requires Names(added) == SlotNames(slots)
    requires AllSimple(slots) ==>
               filled.next == pushed.next && filled.scopes == WithDefaults(pushed.scopes, start.next, slots)
    requires start.next in filled.scopes
    requires done.scopes == filled.scopes[start.next := filled.scopes[start.next].(weakRef := weakRef)]
    requires Inv(done) && done.dying == {} && done.next == filled.next
    requires done.held == start.held + multiset{Strong(start.next)}
    ensures var v := ObjectValue(start.next, isFn);
            && Worked(start, done, current, [], Handles(v))
            && (!weakRef && current >= n ==> Leads(done.scopes, v, current, n))
            && (Fine(start.scopes, n, open) && !TiesAny(slots, !isFn) ==>
                  Valued(done.scopes, v, current, !weakRef, open))
    ensures Judged(start.scopes, done.scopes, TiesAny(slots, !isFn), n, open)
    ensures ClosureMade(start.scopes, done.scopes, done.next, current, start.next, slots, weakRef)
  {
    hide Inv, Tangled, Loose, TiesAny, Names, SlotNames, Leads, AllSimple, DefaultsOf, Handles, ObjectValue;
    var r, v := start.next, ObjectValue(start.next, isFn);
    GrownAt(pushed.scopes, filled.scopes, r, added, pushed.next);
    ObjectHandles(r, isFn);
    PushedFine(start, current, n, open);
    GrownInside(start.scopes, filled.scopes, done.scopes, current, r, added, r, weakRef);
    CloseJudged(start, filled.scopes, r, current, weakRef, n, open);
    ClosedLeads(done.scopes, v, r, current, n);
    ClosureIsMade(start.scopes, pushed.scopes, filled.scopes, done.scopes, done.next, current, r, slots, added,
                  weakRef);
    if Fine(start.scopes, n, open) && !TiesAny(slots, !isFn) {
      ClosedValue(done.scopes, r, current, v, open);
    }
  }

  // ---------------------------------------------------------------------------------------------------
  // Instances

  /** The type that a name stands for. */
  function TypeAt(scopes: map<Ref, Scope>, at: Ref, i: nat): Option<Ref> {
    if at in scopes && i < |scopes[at].vars| then
      match scopes[at].vars[i].value
      case TypeOrInst(c, w, _) => if w then None else Some(c)
      case _ => None
    else None
  }

  lemma TypeIsOwned(scopes: map<Ref, Scope>, at: Ref, i: nat)
    requires TypeAt(scopes, at, i).Some?
    ensures Strong(TypeAt(scopes, at, i).value) in Handles(scopes[at].vars[i].value)
    ensures Strong(TypeAt(scopes, at, i).value) in ScopeHandles(scopes[at])
  {
    BoundHandles(scopes[at], i);
    hide ScopeHandles;
  }

  lemma TypeIsClear(scopes: map<Ref, Scope>, at: Ref, i: nat, open: set<Ref>)
    requires Loose(scopes, open)
    ensures Clear(scopes, Optional(TypeAt(scopes, at, i), false), open)
  {
    hide Loose, Reaches;
    if TypeAt(scopes, at, i).Some? {
      BoundIsClear(scopes, at, i, open);
      TypeIsOwned(scopes, at, i);
    }
  }

  lemma SelfHandles(inst: Ref, typeScope: Option<Ref>)
    ensures Handles(TypeOrInst(inst, true, typeScope)) == multiset{Weak(inst)} + Optional(typeScope, false)
    ensures Handles(TypeOrInst(inst, false, typeScope)) == multiset{Strong(inst)} + Optional(typeScope, false)
  {
  }

  /** The weak `self` and the type lead nowhere. */
  lemma SelfIsClear(scopes: map<Ref, Scope>, inst: Ref, typeScope: Option<Ref>, open: set<Ref>)
    requires Clear(scopes, Optional(typeScope, false), open)
    ensures Clear(scopes, Handles(TypeOrInst(inst, true, typeScope)), open)
  {
    SelfHandles(inst, typeScope);
    hide Reaches, Handles;
  }

  /** From the pushed scope, its members and `self` bound, to the instance. */
  lemma InstanceDone(start: State, kept: State, pushed: State, filled: State, done: State, current: Ref,
                     inits: seq<Slot>, at: Ref, i: nat, added: seq<Env>, weakRef: bool, n: nat, open: set<Ref>)
    requires Inv(kept) && kept.dying == {} && kept.scopes == start.scopes && kept.next == start.next
    requires current in start.scopes && current < start.next && start.next !in start.scopes && n <= start.next
    requires forall x :: x in open ==> x < start.next
    requires pushed.scopes == start.scopes[start.next := Scope([], Some(current), false)]
    requires pushed.next == start.next + 1 && Worked(pushed, filled, start.next, added, multiset{})
    requires Judged(pushed.scopes, filled.scopes, TiesAny(inits, true), n, open + {start.next})
    requires start.next in filled.scopes
    requires done.scopes == filled.scopes[start.next := filled.scopes[start.next].(weakRef := weakRef)]
    requires Inv(done) && done.dying == {} && done.next == filled.next
    requires done.held ==
             start.held + (multiset{Strong(start.next)} + Optional(TypeAt(start.scopes, at, i), false))
    ensures var v := TypeOrInst(start.next, false, TypeAt(start.scopes, at, i));
            && Worked(start, done, current, [], Handles(v))
            && (!weakRef && current >= n ==> Leads(done.scopes, v, current, n))
            && (Fine(start.scopes, n, open) && !TiesAny(inits, true) ==>
                  Valued(done.scopes, v, current, !weakRef, open))
    ensures Judged(start.scopes, done.scopes, TiesAny(inits, true), n, open)
  {
    hide Inv, Tangled, Loose, TiesAny, Leads, Handles, TypeAt, Clear;
    var r, t := start.next, TypeAt(start.scopes, at, i);
    var v := TypeOrInst(r, false, t);
    GrownAt(pushed.scopes, filled.scopes, r, added, pushed.next);
    SelfHandles(r, t);
    PushedFine(kept, current, n, open);
    GrownInside(start.scopes, filled.scopes, done.scopes, current, r, added, r, weakRef);
    CloseJudged(kept, filled.scopes, r, current, weakRef, n, open);
    ClosedLeads(done.scopes, v, r, current, n);
    if Fine(start.scopes, n, open) && !TiesAny(inits, true) {
      TypeStays(start.scopes, done.scopes, current, start.next, at, i);
      TypeIsClear(done.scopes, at, i, open);
      ClosedValue(done.scopes, r, current, v, open);
    }
  }

  /** A name found before the work still means the same type. */
  lemma TypeStays(a: map<Ref, Scope>, b: map<Ref, Scope>, r: Ref, n: nat, at: Ref, i: nat)
    requires Grown(a, b, r, [], n)
    ensures TypeAt(a, at, i).Some? ==> TypeAt(b, at, i) == TypeAt(a, at, i)
  {
    if at in a {
      assert a[at].vars + [] == a[at].vars;
    }
  }

  // ---------------------------------------------------------------------------------------------------
  // Blocks

  /** From the pushed block scope, its items run, to the block's value. */
  lemma BlockDone(start: State, pushed: State, filled: State, left: State, done: State, current: Ref, items: seq<Slot>,
                  added: seq<Env>, v: Value, weakRef: bool, n: nat, open: set<Ref>)
    requires Inv(start) && start.dying == {}
    requires current in start.scopes && current < start.next && start.next !in start.scopes && n <= start.next
    requires forall x :: x in open ==> x < start.next
    requires pushed.scopes == start.scopes[start.next := Scope([], Some(current), false)]
    requires pushed.next == start.next + 1 && Worked(pushed, filled, start.next, added, Handles(v))
    requires Judged(pushed.scopes, filled.scopes, TiesAny(items, false), n, open + {start.next})
    requires Reaching(BlockExpr(items)) ==> Leads(filled.scopes, v, start.next, n)
    requires Fine(pushed.scopes, n, open + {start.next}) && !TiesAny(items, false) ==>
               Valued(filled.scopes, v, start.next, Reaching(BlockExpr(items)), open + {start.next})
    requires start.next in filled.scopes
    requires left.scopes == filled.scopes[start.next := filled.scopes[start.next].(weakRef := weakRef)]
    requires Inv(left) && left.dying == {} && left.next == filled.next
    requires left.held == start.held + (Handles(v) + multiset{Strong(start.next)})
    requires Inv(done) && done.dying == {} && done.next == left.next && done.held == start.held + Handles(v)
    requires done.scopes == Pruned(left.scopes, done.held)
    ensures Worked(start, done, current, [], Handles(v))
    ensures Judged(start.scopes, done.scopes, TiesAny(items, false), n, open)
    ensures Reaching(BlockExpr(items)) && !weakRef && current >= n ==> Leads(done.scopes, v, current, n)
    ensures Fine(start.scopes, n, open) && !TiesAny(items, false) ==>
              Valued(done.scopes, v, current, Reaching(BlockExpr(items)) && !weakRef, open)
  {
    hide Inv, Tangled, Loose, TiesAny, Leads, Handles, Reaching, Pruned, Survivors, Clear, OnlyThrough;
    var block, reaching := start.next, Reaching(BlockExpr(items));
    GrownAt(pushed.scopes, filled.scopes, block, added, pushed.next);
    PushedFine(start, current, n, open);
    GrownInside(start.scopes, filled.scopes, left.scopes, current, block, added, block, weakRef);
    CloseJudged(start, filled.scopes, block, current, weakRef, n, open);
    PrunedJudged(left.scopes, done.held, n, open);
    FreedOnTheWay(start, left, done, current, [], Handles(v) + multiset{Strong(block)}, Handles(v));
    if reaching && !weakRef && current >= n {
      SameFlag(filled.scopes, block);
      LeadsToParent(left.scopes, v, block, current, n);
      LeadsPruned(left.scopes, done.held, v, current, n);
    }
    if Fine(start.scopes, n, open) && !TiesAny(items, false) {
      BlockValue(filled.scopes, block, current, weakRef, v, reaching, open);
      ValuedPruned(left.scopes, done.held, v, current, reaching && !weakRef, open);
    }
  }

  lemma SameFlag(scopes: map<Ref, Scope>, r: Ref)
    requires r in scopes && !scopes[r].weakRef
    ensures scopes[r := scopes[r].(weakRef := false)] == scopes
  {
  }

  lemma ValuedPruned(scopes: map<Ref, Scope>, base: multiset<Handle>, v: Value, r: Ref, reaching: bool, open: set<Ref>)
    requires Valued(scopes, v, r, reaching, open)
    ensures Valued(Pruned(scopes, base), v, r, reaching, open)
  {
    hide Pruned, Clear, OnlyThrough, Handles;
    if reaching {
      OnlyThroughPruned(scopes, base, v, r, open);
    } else {
      ClearPruned(scopes, base, Handles(v), open);
    }
  }

  // ---------------------------------------------------------------------------------------------------
  // After the work

  /** When nothing leaks, the work is undone by freeing its value. */
  lemma NothingLeft(s: State, t: State, r: Ref)
    requires Inv(s) && s.dying == {} && r in s.scopes && Worked(s, t, r, [], multiset{}) && !Tangled(t.scopes, s.next)
    ensures t.scopes == s.scopes
  {
    hide Inv, Tangled;
    assert s.scopes[r].vars + [] == s.scopes[r].vars;
    NothingNew(s, t);
    assert t.scopes.Keys == s.scopes.Keys;
  }

  /** What an expression does to cycles, before and after the name it binds itself. */
  lemma NamedCycle(s: State, t: State, current: Ref, v: Value, leaks: bool, name: string)
    requires Inv(s) && s.dying == {} && current in s.scopes && Worked(s, t, current, [], Handles(v))
    requires Judged(s.scopes, t.scopes, leaks, s.next, {})
    ensures Acyclic(t.scopes) <==> Acyclic(s.scopes) && !leaks
    ensures current in t.scopes && t.scopes[current] == s.scopes[current]
    ensures Acyclic(t.scopes[current := AddVar(t.scopes[current], Env(name, v))]) <==>
            Acyclic(s.scopes) && !leaks && !Back(t.scopes, current, Handles(v))
  {
    hide Inv, Acyclic, Back, AddVar, Tangled, Loose, Handles;
    GrownAt(s.scopes, t.scopes, current, [], s.next);
    BindingCycle(t.scopes, current, Env(name, v));
    FineAtStart(s);
    if leaks {
      TangledRemains(s, t.scopes);
    } else {
      GrownSame(s.scopes, t.scopes, current, s.next);
      OldCyclesOnly(s, t.scopes);
    }
  }

  lemma GrownSame(a: map<Ref, Scope>, b: map<Ref, Scope>, r: Ref, n: nat)
    requires r in a && Grown(a, b, r, [], n)
    ensures forall k :: k in a ==> k in b && b[k] == a[k]
    ensures forall k :: k in b ==> k >= n || (k in a && b[k] == a[k])
  {
    assert a[r].vars + [] == a[r].vars;
  }

  lemma ObjectOwns(t: map<Ref, Scope>, current: Ref, r: Ref)
    requires r in t && t[r].parent == Some(current)
    ensures forall y :: Owns(t, r, y) <==> Strong(y) in EnvHandles(t[r].vars) || (y == current && !t[r].weakRef)
  {
    assert Optional(Some(current), t[r].weakRef) == multiset{Link(current, t[r].weakRef)};
    hide EnvHandles;
  }

  /** The value of a function or type leads back by its parent, unless downgraded, or by something it binds. */
  lemma ObjectBack(t: map<Ref, Scope>, current: Ref, r: Ref)
    requires r in t && r != current && t[r].parent == Some(current)
    ensures Back(t, current, multiset{Strong(r)}) <==> !t[r].weakRef || Back(t, current, EnvHandles(t[r].vars))
  {
    var vars := t[r].vars;
    ObjectOwns(t, current, r);
    hide Owns, EnvHandles;
    if Back(t, current, multiset{Strong(r)}) {
      var p :| p != [] && p[0] == r && p[|p| - 1] == current && Path(t, p);
      assert Owns(t, p[0], p[1]);
      ReachesOn(t, p, 1, |p| - 1);
    }
    if !t[r].weakRef {
      assert Path(t, [r, current]);
      assert Reaches(t, r, current);
    }
    if Back(t, current, EnvHandles(vars)) {
      var y :| Strong(y) in EnvHandles(vars) && Reaches(t, y, current);
      var p :| p != [] && p[0] == y && p[|p| - 1] == current && Path(t, p);
      PathGrows(t, r, p);
      assert ([r] + p)[0] == r;
      assert Reaches(t, r, current);
    }
  }

  // ---------------------------------------------------------------------------------------------------
  // Examples

  lemma OneSlot(slot: Slot, weak: bool)
    ensures SlotNames([slot]) == NamesOf(slot) && (TiesAny([slot], weak) <==> Ties(slot, weak))
    ensures Different(NamesOf(slot)) && WellNamed(slot.e) ==> SlotsNamed([slot])
  {
    assert [slot][..0] == [] && [slot][0] == slot;
    assert SlotNames([slot]) == [] + NamesOf(slot);
  }

  predicate Bare(e: Expr) {
    match e
    case FnExpr(_, params) => params == []
    case TypeExpr(_, members) => members == []
    case InstExpr(_, _, _, inits) => inits == []
    case _ => false
  }

  /** `{ e }` for a function without parameters, or a type or instance without members. */
  lemma BlockExamples(e: Expr)
    requires Bare(e)
    ensures var block := BlockExpr([Slot("", e)]);
            WellNamed(block) && Sugar(block) == "" && (Leaks(block) <==> Sugar(e) != "")
  {
    OneSlot(Slot("", e), false);
    assert SlotNames([]) == [] && WellNamed(e) && !Leaks(e);
    assert Leaks(BlockExpr([Slot("", e)])) <==> TiesAny([Slot("", e)], false);
  }

  /**
  `fn(f = fn() {}) {}` leaks, `fn(x = 1) {}` does not. `{ var g = fn() {} }` leaks, and one more block makes no
  difference.
  */
  lemma FunctionExamples()
    ensures var f := FnExpr("", []);
            && !Leaks(f) && !Leaks(FnExpr("", [Slot("x", Literal)]))
            && Leaks(FnExpr("", [Slot("f", f)])) && WellNamed(FnExpr("", [Slot("f", f)]))
            && Leaks(BlockExpr([Slot("g", f)])) && Leaks(BlockExpr([Slot("g", BlockExpr([Slot("", f)]))]))
            && !Leaks(BlockExpr([Slot("", f)]))
  {
    var f := FnExpr("", []);
    OneSlot(Slot("f", f), false);
    OneSlot(Slot("g", f), false);
    OneSlot(Slot("x", Literal), false);
    OneSlot(Slot("", f), false);
    OneSlot(Slot("g", BlockExpr([Slot("", f)])), false);
    assert !Leaks(f) && WellNamed(f);
    assert Reaching([Slot("", f)][0].e);
    hide TiesAny;
    assert Leaks(FnExpr("", [Slot("f", f)])) <==> TiesAny([Slot("f", f)], false);
    assert Leaks(FnExpr("", [Slot("x", Literal)])) <==> TiesAny([Slot("x", Literal)], false);
  }

  /** `type { fn m() {} }` does not leak, as members are downgraded, but `type { fn m(f = fn() {}) {} }` does. */
  lemma TypeExamples()
    ensures !Leaks(TypeExpr("", [Slot("", FnExpr("m", []))]))
    ensures Leaks(TypeExpr("", [Slot("", FnExpr("m", [Slot("f", FnExpr("", []))]))]))
  {
    var m := Slot("", FnExpr("m", []));
    var n := Slot("", FnExpr("m", [Slot("f", FnExpr("", []))]));
    OneSlot(m, true);
    OneSlot(n, true);
    OneSlot(Slot("f", FnExpr("", [])), false);
    hide TiesAny;
    assert !TiesAny([], false) by { NoTies(); }
    assert Leaks(TypeExpr("", [m])) <==> TiesAny([m], true);
    assert Leaks(TypeExpr("", [n])) <==> TiesAny([n], true);
    assert Leaks(m.e) <==> TiesAny([], false);
    assert Leaks(n.e) <==> TiesAny([Slot("f", FnExpr("", []))], false);
  }

  lemma NoTies()
    ensures !TiesAny([], false)
  {
  }
}
