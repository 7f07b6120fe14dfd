/**
The interpreter as the C code runs it: one object whose fields hold the scopes, the current scope, the instance, a
mutable signal flag and the sticky error state. After an error nothing is cleaned up and execution goes on until
the calls have returned; only the flag tells.

Every method is proved against the `Reference` evaluator, for whatever scopes die in the meantime. What the code reaches
through strong handles is alive (`HandleGraph.ReachableIsAlive`). Where it goes through a weak one, from a scope to a
parent that was downgraded or from a value to the instance it holds weakly, `alive` says whether the scope still
exists; a dead one reads as empty and the run is `lost`.
*/
module Interpreter {
  import opened Wrappers
  import opened Types
  import opened Syntax
  import opened Store
  import opened StoreFacts
  import opened Reference

  /** The parent of a scope; the scope itself when it has none, which only happens after an error. */
  function ParentOf(h: Heap, r: Ref): Ref {
    if r < |h.scopes| && h.scopes[r].parent.Some? then h.scopes[r].parent.value else r
  }

  /** The outcome of a block that captures the signals in `capture`. */
  function Captured(r: Res, capture: set<Signal>): Res {
    if r.Abrupt? && r.signal in capture then Normal(r.v, r.h) else r
  }

  /** Popping a scope that was pushed on `c` leads back to `c`, whatever was evaluated in between. */
  lemma PoppedTo(c: Ctx, d: Ctx, h: Heap, ofObject: bool, r: Res, may: set<Signal>)
    requires Sound(d, Push(h, c.env, ofObject), r, may) && !r.Fail?
    ensures ParentOf(r.h, |h.scopes|) == c.env
  {
    assert ScopeGrows(Push(h, c.env, ofObject).scopes[|h.scopes|], r.h.scopes[|h.scopes|]);
  }

  lemma PoppedToOwner(c: Ctx, d: Ctx, h: Heap, r: Res, owner: Value)
    requires OwnerSound(d, Push(h, c.env, true), r, owner) && r.Normal?
    ensures ParentOf(r.h, |h.scopes|) == c.env
  {
    assert ScopeGrows(Push(h, c.env, true).scopes[|h.scopes|], r.h.scopes[|h.scopes|]);
  }

  const ALL_SIGNALS: set<Signal> := {Continue, Break, Return}

  lemma EverySignal(s: set<Signal>)
    ensures s <= ALL_SIGNALS
  {
    forall x | x in s ensures x in ALL_SIGNALS {
      match x
      case Continue =>
      case Break =>
      case Return =>
    }
  }

  /** No signal leaves a quiet expression. */
  lemma NeverAbrupt(e: Expr)
    requires Quiet(e)
    ensures forall c, h, n :: !Eval(e, c, h, n).Abrupt?
  {
    forall c, h, n ensures !Eval(e, c, h, n).Abrupt? {
      assert Sound(c, h, Eval(e, c, h, n), {});
    }
  }

  lemma BoxedQuiet(v: Value, c: Ctx, h: Heap, n: nat)
    ensures !Boxed(v, c, h, n).Abrupt?
  {
  }

  lemma OwnerQuiet(c: Ctx, h: Heap, r: Res, owner: Value)
    requires OwnerSound(c, h, r, owner)
    ensures !r.Abrupt? && (r.Normal? ==> r.v == owner)
  {
  }

  lemma NeverAbruptOption(e: Option<Expr>)
    requires e.Some? ==> Quiet(e.value)
    ensures forall c, h, n :: !EvalCond(e, c, h, n).Abrupt?
    ensures e.Some? ==> forall c, h, n :: EvalCond(e, c, h, n) == Eval(e.value, c, h, n)
  {
    forall c, h, n ensures !EvalCond(e, c, h, n).Abrupt? {
      assert Sound(c, h, EvalCond(e, c, h, n), {});
    }
  }

  /** A round of a loop about to start: rounds after the first one use up fuel. */
  function NextRound(e: Expr, c: Ctx, h: Heap, n: nat, first: bool): Res
    requires (e.While? || e.DoWhile?) && WellFormed(e)
  {
    if first then EvalRound(e, c, h, n) else if n == 0 then Fail(OutOfFuel) else EvalRound(e, c, h, n - 1)
  }

  /** What is left of a loop at its head, `last` being the value of the latest round. */
  function AtLoopHead(e: Expr, c: Ctx, h: Heap, n: nat, last: Value, first: bool): Res
    requires (e.While? || e.DoWhile?) && WellFormed(e)
  {
    if e.DoWhile? then NextRound(e, c, h, n, first)
    else
      assert Quiet(e.wcond);
      var (v, k) :- Eval(e.wcond, c, h, n);
      if IsTrue(v) then NextRound(e, c, k, n, first) else Normal(last, k)
  }

  /** A loop body as the loop sees it. */
  function LoopBody(body: seq<Item>, c: Ctx, h: Heap, n: nat): Res
    requires WellFormedItems(body)
  {
    Escape(Escape(EvalBlock(body, c, h, n), Continue), Break)
  }

  function NextForRound(e: Expr, c: Ctx, h: Heap, n: nat, first: bool): Res
    requires e.For? && WellFormed(e)
  {
    if first then EvalForRound(e, c, h, n) else if n == 0 then Fail(OutOfFuel) else EvalForRound(e, c, h, n - 1)
  }

  lemma ForRoundUnfolds(e: Expr, c: Ctx, h: Heap, n: nat)
    requires e.For? && WellFormed(e)
    ensures var r := Escape(EvalBlock(e.fbody, c, h, n), Continue);
            EvalForRound(e, c, h, n) ==
            if !r.Normal? then Escape(r, Break)
            else
              var u := EvalCond(e.update, c, r.h, n);
              if u.Normal? then AtForHead(e, c, u.h, n, r.v, false) else u
  {
  }

  function AtForHead(e: Expr, c: Ctx, h: Heap, n: nat, last: Value, first: bool): Res
    requires e.For? && WellFormed(e)
  {
    var (v, k) :- EvalCond(e.fcond, c, h, n);
    if IsTrue(v) then NextForRound(e, c, k, n, first) else Normal(last, k)
  }

  /** One step of `FillDefaults`. */
  function FillDefault(p: Env, c: Ctx, h: Heap, n: nat): Res {
    if Has(h, c.env, p.name) then Normal(P(Null), h)
    else if p.value == P(Unknown) then Fail(ParamMissing)
    else Stored(Create(c, h, p.name, p.ty, p.value, n), P(Null), ParamFailed)
  }

  lemma FillUnfolds(closure: Ref, i: nat, count: nat, c: Ctx, h: Heap, n: nat)
    ensures FillDefaults(closure, i, count, c, h, n) ==
            if i >= count || i >= |Vars(h, closure)| then Normal(P(Null), h)
            else
              var r := FillDefault(Vars(h, closure)[i], c, h, n);
              if r.Normal? then FillDefaults(closure, i + 1, count, c, r.h, n) else r
    ensures forall p :: !FillDefault(p, c, h, n).Abrupt?
  {
  }

  /** What happens to a call once its callee is the function `f`. */
  function Invoked(f: Value, args: seq<Expr>, c: Ctx, h: Heap, n: nat): Res
    requires f.FnV? && QuietArgs(args, false)
  {
    var d := CalleeCtx(c, h, f);
    var (v, k) :- EvalBinding(args, f.closure, d, CalleeStore(c, h, f), n);
    if n == 0 then Fail(OutOfFuel)
    else Escape(EvalBlock(f.body, d, SetParent(k, d.env, f.closure), n - 1), Return)
  }

  lemma CallInvokes(e: Expr, c: Ctx, h: Heap, n: nat)
    requires e.Call? && WellFormed(e)
    ensures Quiet(e.callee)
    ensures var f := Eval(e.callee, c, h, n);
            EvalCall(e, c, h, n) ==
            if !f.Normal? then f else if !f.v.FnV? then Fail(NotAFunction) else Invoked(f.v, e.args, c, f.h, n)
  {
    hide Step, Sound;
  }

  /** No scope of `h` changes the strength of its parent handle on the way from flags `was` to flags `now`. */
  predicate SameFlags(h: Heap, k: Heap, was: set<Ref>, now: set<Ref>) {
    |h.scopes| <= |k.scopes| && forall r :: 0 <= r < |h.scopes| ==> (r in now <==> r in was)
  }

  function OlderParent(h: Heap, r: Ref): (p: Option<Ref>)
    ensures p.Some? ==> p.value < r
  {
    if r < |h.scopes| && h.scopes[r].parent.Some? && h.scopes[r].parent.value < r then h.scopes[r].parent else None
  }

  /** One step of a lookup: the scope has the name, or has no parent, or the way goes on there. */
  lemma WayUp(h: Heap, flags: set<Ref>, r: Ref, name: string)
    ensures var way, up := WeaklyVisited(h, flags, r, name), OlderParent(h, r);
            if Has(h, r, name) then way == [] && FindUp(h, r, name) == Some(r)
            else if up.None? then way == [] && FindUp(h, r, name) == None
            else
              && FindUp(h, r, name) == FindUp(h, up.value, name)
              && way == (if r in flags && up.value != 0 then [up.value] else [])
                        + WeaklyVisited(h, flags, up.value, name)
  {
  }

  lemma OneFurther(all: seq<Ref>, k: nat)
    requires k < |all|
    ensures all[k] == all[k..][0] && all[k + 1..] == all[k..][1..]
  {
  }

  lemma FlagsCompose()
    ensures forall h, k, l, a, b, c {:trigger SameFlags(h, k, a, b), SameFlags(k, l, b, c)} ::
              SameFlags(h, k, a, b) && SameFlags(k, l, b, c) ==> SameFlags(h, l, a, c)
    ensures forall h, a {:trigger SameFlags(h, h, a, a)} :: SameFlags(h, h, a, a)
  {
  }

  lemma FlagsStay(h: Heap, weak: set<Ref>)
    ensures SameFlags(h, h, weak, weak)
  {
  }

  function Follow(done: seq<Field>, rest: Option<seq<Field>>): Option<seq<Field>> {
    if rest.None? then None else Some(done + rest.value)
  }

  lemma FollowNone(rest: Option<seq<Field>>)
    ensures Follow([], rest) == rest
  {
    assert rest.Some? ==> [] + rest.value == rest.value;
  }

  lemma FollowOne(done: seq<Field>, one: Field, rest: Option<seq<Field>>)
    ensures Follow(done + [one], rest) == Follow(done, if rest.None? then None else Some([one] + rest.value))
  {
    if rest.Some? {
      assert done + ([one] + rest.value) == done + [one] + rest.value;
    }
  }

  /** Does the name lead to a scope that weak handles alone may keep the code from? */
  predicate ReachedWeakly(c: Ctx, h: Heap, weak: set<Ref>, name: string) {
    && (c.inst.Some? ==> !Has(h, c.env, name) && !Has(h, c.inst.value, name))
    && WeaklyVisited(h, weak, c.env, name) != [] && FindUp(h, c.env, name) != Some(0)
  }

  /** One expression of a print item. */
  function EvalPrint(e: Expr, c: Ctx, h: Heap, n: nat): Res
    requires Quiet(e)
  {
    var (v, k) :- Eval(e, c, h, n);
    match Show(k, v, n)
    case None => Fail(OutOfFuel)
    case Some(s) => Normal(P(Null), Printed(k, s))
  }

  lemma PrintsUnfold(es: seq<Expr>, c: Ctx, h: Heap, n: nat)
    requires QuietAll(es) && es != []
    ensures Quiet(es[0]) && !EvalPrint(es[0], c, h, n).Abrupt?
    ensures var r := EvalPrint(es[0], c, h, n);
            EvalPrints(es, c, h, n) == if r.Normal? then EvalPrints(es[1..], c, r.h, n) else r
  {
    hide Step;
    assert Quiet(es[0]);
    NeverAbrupt(es[0]);
  }

  predicate HeldWeakly(v: Value) {
    v.InstV? && v.weakRef
  }

  /** The rest of an assignment to a member, once its value is known. */
  function AssignedMember(e: Expr, v: Value, c: Ctx, h: Heap, n: nat): Res
    requires e.Assign? && e.target.Member? && WellFormed(e)
  {
    assert Quiet(e.target.owner);
    var (owner, k) :- Eval(e.target.owner, c, h, n);
    Stored(SetMember(c, k, owner, e.target.field, v, n), v, SetFailed)
  }

  lemma AssignUnfolds(e: Expr, c: Ctx, h: Heap, n: nat)
    requires e.Assign? && WellFormed(e)
    ensures e.target.Member? ==> Quiet(e.value)
    ensures var r := Eval(e.value, c, h, n);
            EvalAssign(e, c, h, n) ==
            if r.Fail? then r
            else if e.target.Ident? then Resume(r, Stored(Set(c, r.h, e.target.name, r.v, n), r.v, SetFailed))
            else AssignedMember(e, r.v, c, r.h, n)
    ensures e.target.Member? ==> !Eval(e.value, c, h, n).Abrupt?
  {
    hide Step;
    if e.target.Member? {
      assert Quiet(e.target.owner) && Quiet(e.value);
      NeverAbrupt(e.value);
    }
  }

  class SnukInterpreter {
    const ops: Ops
    /**
    Is the scope alive when the code goes to it, that being the `t`-th time it uses a weak handle? Any lifetimes are
    allowed.
    */
    const alive: (nat, Ref) -> bool
    var heap: Heap
    /** The scopes that hold their parent weakly. */
    var weak: set<Ref>
    var current: Ref
    var instance: Option<Ref>
    var signal: Option<Signal>
    var panicMode: bool
    var error: Error
    /** The scopes used so far that were reached through a weak handle, in order. */
    var met: seq<Ref>
    /** One of them was no longer alive. */
    var lost: bool

    constructor (ops: Ops, alive: (nat, Ref) -> bool)
      ensures this.ops == ops && this.alive == alive && heap == BUILTINS && current == 0 && instance == None
      ensures weak == {1, 2, 3, 4}
      ensures Idle() && !panicMode && !lost && signal == None && Good(heap) && AllAnnotated(heap)
    {
      this.ops, this.alive := ops, alive;
      heap, weak, current, instance := BUILTINS, {1, 2, 3, 4}, 0, None;
      signal, panicMode, error := None, false, OutOfFuel;
      met, lost := [], false;
      new;
      BuiltinsGood();
    }

    function Here(): Ctx
      reads this
    {
      Ctx(current, instance, ops)
    }

    /** `lost` says exactly whether some scope had died when it was used. */
    ghost predicate Honest()
      reads this`met, this`lost
    {
      lost <==> exists t :: 0 <= t < |met| && !alive(t, met[t])
    }

    /** No signal is pending when an evaluation starts. */
    ghost predicate Idle()
      reads this
    {
      Honest() && (!panicMode && !lost ==> signal == None)
    }

    /** What was lost stays lost, and annotations are respected, in panic mode too. */
    ghost predicate Intact(wasLost: bool, before: Heap)
      reads this`met, this`lost, this`heap
    {
      Honest() && (wasLost ==> lost) && (AllAnnotated(before) ==> AllAnnotated(heap))
    }

    /** What every method keeps; before any error, no existing scope changes the strength of its parent handle. */
    ghost predicate Kept(wasLost: bool, wasWeak: set<Ref>, before: Heap)
      reads this`met, this`lost, this`heap, this`weak, this`panicMode
    {
      Intact(wasLost, before) && (panicMode || lost || SameFlags(before, heap, wasWeak, weak))
    }

    /**
    The state after an evaluation that started in `c` and whose reference result is `r`: the same value, store
    and outcome, with `current` and `instance` back where they were. An earlier error stays as it was. Nothing is
    claimed once a scope that had died was read.
    */
    ghost predicate Did(r: Res, v: Value, c: Ctx, wasPanic: bool, was: Error)
      reads this
    {
      lost ||
      if wasPanic then panicMode && error == was
      else match r
        case Fail(m) => panicMode && error == m
        case Abrupt(s, w, k) => !panicMode && signal == Some(s) && v == w && heap == k && Here() == c
        case Normal(w, k) => !panicMode && signal == None && v == w && heap == k && Here() == c
    }

    /** `interpreter_error`: the first error is kept. */
    method Error(e: Error) returns (v: Value)
      modifies this`panicMode, this`error
      ensures panicMode && error == if old(panicMode) then old(error) else e
    {
      v := ErrorV;
      if !panicMode {
        panicMode, error := true, e;
      }
    }

    /** The check macro around a write that may be refused. */
    method Checked(ok: Check, e: Error) returns (stop: bool)
      modifies this`panicMode, this`error
      ensures stop <==> ok != Yes
      ensures stop ==> panicMode
      ensures stop ==> error == if old(panicMode) then old(error) else if ok == NoFuel then OutOfFuel else e
      ensures !stop ==> panicMode == old(panicMode) && error == old(error)
    {
      stop := ok != Yes;
      if stop {
        var v := Error(if ok == NoFuel then OutOfFuel else e);
      }
    }

    // -------------------------------------------------------------------------------------------------
    // Scopes

    method PushScope(ofObject: bool)
      modifies this`heap, this`current, this`weak
      ensures AllAnnotated(old(heap)) ==> AllAnnotated(heap)
      ensures heap == Push(old(heap), old(current), ofObject) && current == |old(heap).scopes|
      ensures weak == old(weak) - {current}
    {
      heap := Push(heap, current, ofObject);
      current := |heap.scopes| - 1;
      weak := weak - {current};
    }

    method PopScope()
      modifies this`current
      ensures current == ParentOf(heap, old(current))
    {
      current := ParentOf(heap, current);
    }

    /** `snuk_scope_downgrade_parent`, which the constructs that push a scope do when their `weak_ref` asks for it. */
    method DowngradeParent(r: Ref, weakRef: bool)
      modifies this`weak
      ensures weak == if weakRef then old(weak) + {r} else old(weak)
    {
      if weakRef {
        weak := weak + {r};
      }
    }

    /** The bindings of a scope; it may be gone only when it was reached through a weak handle. */
    method ReadScope(r: Ref, weakly: bool) returns (vars: seq<Env>)
      requires Honest()
      modifies this`met, this`lost
      ensures Kept(old(lost), old(weak), old(heap))
      ensures met == if weakly then old(met) + [r] else old(met)
      ensures lost <==> old(lost) || (weakly && !alive(|old(met)|, r))
      ensures vars == if weakly && !alive(|old(met)|, r) then [] else Vars(heap, r)
    {
      Recorded(r);
      vars := if r < |heap.scopes| then heap.scopes[r].vars else [];
      if weakly {
        if !alive(|met|, r) {
          vars, lost := [], true;
        }
        met := met + [r];
      }
    }

    lemma Recorded(r: Ref)
      requires Honest()
      ensures (exists t :: 0 <= t < |met + [r]| && !alive(t, (met + [r])[t])) <==> lost || !alive(|met|, r)
    {
      assert (met + [r])[|met|] == r;
      if lost {
        var t :| 0 <= t < |met| && !alive(t, met[t]);
        assert (met + [r])[t] == met[t];
      }
    }

    /**
    The instance of a function that is called, which the function holds weakly: retaining it gives nothing once it has
    died, and then the function runs without it.
    */
    method RetainInstance(i: Option<Ref>)
      modifies this`heap, this`instance
      ensures AllAnnotated(old(heap)) ==> AllAnnotated(heap)
      ensures instance == Receiver(ops, old(heap), i) && heap == CountCall(old(heap), i)
    {
      CountCallAnnotated(heap, i);
      instance := i;
      if i.Some? {
        if ops.gone(heap.methodCalls) {
          instance := None;
        }
        heap := heap.(methodCalls := heap.methodCalls + 1);
      }
    }

    /** `snuk_scope_lookup`. */
    method ScopeLookup(r: Ref, name: string, weakly: bool) returns (found: bool)
      requires Honest()
      modifies this`met, this`lost
      ensures Kept(old(lost), old(weak), old(heap))
      ensures met == if weakly then old(met) + [r] else old(met)
      ensures lost <==> old(lost) || (weakly && !alive(|old(met)|, r))
      ensures found ==> Has(heap, r, name)
      ensures !lost || !weakly ==> (found <==> Has(heap, r, name))
    {
      var vars := ReadScope(r, weakly);
      var i := 0;
      while i < |vars|
        invariant 0 <= i <= |vars|
        invariant Find(vars, name) == i + Find(vars[i..], name)
      {
        if vars[i].name == name {
          return true;
        }
        i := i + 1;
      }
      found := false;
    }

    /** One of the scopes `rs` is dead when it is used, the questions starting at the `t`-th. */
    ghost predicate Dead(t: nat, rs: seq<Ref>) {
      exists i :: 0 <= i < |rs| && !alive(t + i, rs[i])
    }

    /** The step from a scope to its parent, which may be gone when the scope holds it weakly. */
    method GoToParent(scope: Ref) returns (parent: Option<Ref>, weakly: bool)
      requires Honest()
      modifies this`met, this`lost
      ensures Kept(old(lost), old(weak), old(heap))
      ensures parent == OlderParent(heap, scope)
      ensures weakly <==> parent.Some? && parent.value != 0 && scope in weak
      ensures met == if weakly then old(met) + [parent.value] else old(met)
      ensures lost <==> old(lost) || (weakly && !alive(|old(met)|, parent.value))
    {
      parent, weakly := OlderParent(heap, scope), false;
      if parent.Some? && parent.value != 0 && scope in weak {
        weakly := true;
        var vars := ReadScope(parent.value, true);
      }
    }

    /**
    `snuk_scope_lookup_recursive`. Only the scopes reached through a weak parent handle on the way to the name can be
    dead; the global scope cannot. `weakly` says whether there was one.
    */
    method LookupRecursive(r: Ref, name: string) returns (at: Option<Ref>, weakly: bool)
      requires Honest()
      modifies this`met, this`lost
      ensures Kept(old(lost), old(weak), old(heap))
      ensures at.Some? ==> Has(heap, at.value, name)
      ensures lost <==> old(lost) || Dead(|old(met)|, WeaklyVisited(heap, weak, r, name))
      ensures !lost ==> at == FindUp(heap, r, name)
      ensures !lost ==> (weakly <==> WeaklyVisited(heap, weak, r, name) != [] && at != Some(0))
    {
      hide Honest, StoreFacts.AllAnnotated, SameFlags, Dead, WeaklyVisited, FindUp, OlderParent;
      FlagsCompose();
      ghost var all := WeaklyVisited(heap, weak, r, name);
      ghost var t, k: nat := |met|, 0;
      DeadNone(t);
      assert all[..0] == [] && all[0..] == all;
      var scope: Ref := r;
      weakly := false;
      while true
        invariant Kept(old(lost), old(weak), old(heap))
        invariant |met| == t + k && k <= |all| && (weakly <==> k > 0)
        invariant lost <==> old(lost) || Dead(t, all[..k])
        invariant all[k..] == WeaklyVisited(heap, weak, scope, name)
        invariant FindUp(heap, r, name) == FindUp(heap, scope, name)
        decreases scope
      {
        WayUp(heap, weak, scope, name);
        assert k == |all| ==> all[..k] == all;
        var found := ScopeLookup(scope, name, false);
        if found {
          return Some(scope), weakly && scope != 0;
        }
        var parent, uncertain := GoToParent(scope);
        if parent.None? {
          return None, weakly;
        }
        if uncertain {
          OneFurther(all, k);
          DeadMore(t, all, k);
          weakly := true;
          k := k + 1;
        }
        scope := parent.value;
      }
    }

    lemma DeadNone(t: nat)
      ensures !Dead(t, [])
    {
    }

    lemma DeadMore(t: nat, rs: seq<Ref>, k: nat)
      requires k < |rs|
      ensures Dead(t, rs[..k + 1]) <==> Dead(t, rs[..k]) || !alive(t + k, rs[k])
    {
      assert forall i :: 0 <= i < k ==> rs[..k + 1][i] == rs[..k][i];
      assert rs[..k + 1][k] == rs[k];
    }

    /** `interpreter_lookup`; `weakly` as in `LookupRecursive`. A running method holds its instance strongly. */
    method InterpreterLookup(name: string) returns (at: Option<Ref>, weakly: bool)
      requires Honest()
      modifies this`met, this`lost
      ensures Kept(old(lost), old(weak), old(heap))
      ensures at.Some? ==> Has(heap, at.value, name)
      ensures !lost ==> at == Lookup(Here(), heap, name)
      ensures !lost ==> (weakly <==> ReachedWeakly(Here(), heap, weak, name))
    {
      if instance.Some? {
        var local := ScopeLookup(current, name, false);
        if local {
          return Some(current), false;
        }
        var field := ScopeLookup(instance.value, name, false);
        if field {
          return Some(instance.value), false;
        }
      }
      at, weakly := LookupRecursive(current, name);
    }

    method GetEnv(name: string) returns (v: Value)
      requires Honest()
      modifies this`met, this`lost
      ensures Kept(old(lost), old(weak), old(heap))
      ensures !lost ==> v == Get(Here(), heap, name)
    {
      var at, weakly := InterpreterLookup(name);
      v := if at.None? then P(Unknown) else Binding(heap, at.value, name).value;
    }

    /** The members of a type, or of an instance and then its type. Only `self` holds its instance weakly. */
    method MemberLookup(owner: Value, name: string) returns (at: Option<Ref>)
      requires Honest()
      modifies this`met, this`lost
      ensures Kept(old(lost), old(weak), old(heap))
      ensures at.Some? ==> Has(heap, at.value, name) && (owner.TypeV? || owner.InstV?)
      ensures !lost ==> at == MemberAt(heap, owner, name)
    {
      if !owner.TypeV? && !owner.InstV? {
        return None;
      }
      var own := ScopeLookup(owner.closure, name, HeldWeakly(owner));
      if own {
        return Some(owner.closure);
      }
      if owner.InstV? {
        var shared := ScopeLookup(owner.typeScope, name, false);
        if shared {
          return Some(owner.typeScope);
        }
      }
      at := None;
    }

    /** `interpreter_get_member`. */
    method GetMemberValue(owner: Value, name: string) returns (v: Value)
      requires Honest()
      modifies this`met, this`lost
      ensures Kept(old(lost), old(weak), old(heap))
      ensures !lost ==> v == GetMember(heap, owner, name)
    {
      var at := MemberLookup(owner, name);
      v := if at.None? then P(Unknown) else Binding(heap, at.value, name).value;
    }

    /** `snuk_interpreter_value_is_of_type`. */
    method CheckType(v: Value, ty: Ty, n: nat) returns (ok: Check)
      requires Honest()
      modifies this`met, this`lost
      ensures Kept(old(lost), old(weak), old(heap))
      ensures ok == Yes ==> Annotated(ty, v)
      ensures !lost ==> ok == IsOfType(Here(), heap, v, ty, n)
      decreases n, 1
    {
      if v == P(Unknown) || v == P(Null) {
        return Yes;
      }
      match ty {
        case TAny => return Yes;
        case TType => return if v.TypeV? then Yes else No;
        case TFn(_, _) =>
          if !v.FnV? {
            return No;
          }
          var same := TypeEqual(v.ty, ty);
          return if same then Yes else No;
        case TNamed(name) =>
          ok := CheckNamed(v, name, n);
        case TInterface(members) =>
          if v.InterfaceV? {
            var same := TypeEqual(ty, v.contract);
            return if same then Yes else No;
          }
          if !v.TypeV? && !v.InstV? {
            return No;
          }
          ok := CheckMembers(v, members, n);
      }
    }

    method CheckNamed(v: Value, name: string, n: nat) returns (ok: Check)
      requires v != P(Unknown) && v != P(Null) && Honest()
      modifies this`met, this`lost
      ensures Kept(old(lost), old(weak), old(heap))
      ensures ok == Yes ==> Annotated(TNamed(name), v)
      ensures !lost ==> ok == IsOfType(Here(), heap, v, TNamed(name), n)
      decreases n, 0
    {
      if v.P? && BuiltinName(v.p) == Some(name) {
        return Yes;
      }
      if !v.TypeV? && !v.InstV? {
        return No;
      }
      var at, weakly := InterpreterLookup(name);
      if at.None? {
        return No;
      }
      var env := Binding(heap, at.value, name);
      if env.ty.TInterface? {
        if n == 0 {
          return NoFuel;
        }
        ok := CheckType(v, env.ty, n - 1);
        return;
      }
      if v.InstV? {
        return if v.tyName == name then Yes else No;
      }
      if env.ty.TType? || env.value.TypeV? {
        return if (env.value.TypeV? || env.value.InstV?) && env.value.closure == v.closure then Yes else No;
      }
      ok := No;
    }

    method CheckMembers(v: Value, members: seq<Types.Member>, n: nat) returns (ok: Check)
      requires Honest()
      modifies this`met, this`lost
      ensures Kept(old(lost), old(weak), old(heap))
      ensures !lost ==> ok == HasMembers(Here(), heap, v, members, n)
      decreases n, 0
    {
      hide Honest, Store.IsOfType, Store.Find, StoreFacts.AllAnnotated, StoreFacts.Annotated;
      var i := 0;
      while i < |members|
        invariant 0 <= i <= |members| && Kept(old(lost), old(weak), old(heap))
        invariant !lost ==> HasMembers(Here(), heap, v, members, n) == HasMembers(Here(), heap, v, members[i..], n)
      {
        var at := MemberLookup(v, members[i].name);
        if at.None? {
          return No;
        }
        if n == 0 {
          return NoFuel;
        }
        var one := CheckType(Binding(heap, at.value, members[i].name).value, members[i].ty, n - 1);
        if one != Yes {
          return one;
        }
        assert members[i..][1..] == members[i + 1..];
        i := i + 1;
      }
      ok := Yes;
    }

    // -------------------------------------------------------------------------------------------------
    // Checked writes

    /** The new store and the answer of a write the specification calls `u`. */
    predicate Wrote(u: Update, ok: Check, before: Heap)
      reads this
    {
      lost ||
      match u
      case Written(k) => ok == Yes && heap == k
      case Refused => ok == No && heap == before
      case Starved => ok == NoFuel && heap == before
    }

    /** `snuk_interpreter_create_env`. */
    method CreateEnv(name: string, ty: Ty, v: Value, n: nat) returns (ok: Check)
      requires Honest()
      modifies this`heap, this`met, this`lost
      ensures Kept(old(lost), old(weak), old(heap))
      ensures Wrote(Create(old(Here()), old(heap), name, ty, v, n), ok, old(heap))
    {
      ok := CheckType(v, ty, n);
      if ok != Yes {
        return;
      }
      var taken := ScopeLookup(current, name, false);
      if current >= |heap.scopes| || taken {
        return No;
      }
      AddVarAnnotated(heap, current, Env(name, ty, v));
      heap := AddVar(heap, current, Env(name, ty, v));
    }

    /** The scope was the last one asked for, and it was alive. */
    ghost predicate Outlived(at: Option<Ref>)
      reads this`met
    {
      at.Some? && met != [] && met[|met| - 1] == at.value && alive(|met| - 1, at.value)
    }

    /**
    `snuk_interpreter_set_env`. Freeing the old value may free a scope that was reached through a weak handle, before
    the new value is written to it.
    */
    method SetEnv(name: string, v: Value, n: nat) returns (ok: Check)
      requires Honest()
      modifies this`heap, this`met, this`lost
      ensures Kept(old(lost), old(weak), old(heap))
      ensures Wrote(Set(old(Here()), old(heap), name, v, n), ok, old(heap))
      ensures ok == Yes && !lost && ReachedWeakly(old(Here()), old(heap), weak, name) ==>
                Outlived(Lookup(old(Here()), old(heap), name))
    {
      var at, weakly := InterpreterLookup(name);
      if at.None? {
        return No;
      }
      ok := CheckType(v, Binding(heap, at.value, name).ty, n);
      if ok == Yes {
        SetVarAnnotated(heap, at.value, Find(heap.scopes[at.value].vars, name), v);
        heap := SetVar(heap, at.value, Find(heap.scopes[at.value].vars, name), v);
        var vars := ReadScope(at.value, weakly);
      }
    }

    /** `interpreter_set_member`. */
    method SetMemberEnv(owner: Value, name: string, v: Value, n: nat) returns (ok: Check)
      requires Honest()
      modifies this`heap, this`met, this`lost
      ensures Kept(old(lost), old(weak), old(heap))
      ensures Wrote(SetMember(old(Here()), old(heap), owner, name, v, n), ok, old(heap))
      ensures ok == Yes && !lost && HeldWeakly(owner) && Has(old(heap), owner.closure, name) ==>
                Outlived(Some(owner.closure))
    {
      var at := MemberLookup(owner, name);
      if at.None? {
        return No;
      }
      var env := Binding(heap, at.value, name);
      ok := CheckType(v, env.ty, n);
      if ok == Yes {
        if at.value == owner.closure {
          SetVarAnnotated(heap, at.value, Find(heap.scopes[at.value].vars, name), v);
          heap := SetVar(heap, at.value, Find(heap.scopes[at.value].vars, name), v);
          var vars := ReadScope(at.value, HeldWeakly(owner));
        } else if owner.closure >= |heap.scopes| {
          ok := No;
        } else {
          AddVarAnnotated(heap, owner.closure, Env(env.name, env.ty, v));
          heap := AddVar(heap, owner.closure, Env(env.name, env.ty, v));
        }
      }
    }

    // -------------------------------------------------------------------------------------------------
    // Execution

    /**
    `execute_block_expr`: the items in a fresh scope, whose parent is downgraded in the end when `weak_ref` asks for it.
    The items themselves are run without.
    */
    method ExecuteBlock(
      items: seq<Item>, capture: set<Signal>, propagate: set<Signal>, weakRef: bool, n: nat)
      returns (v: Value)
      requires WellFormedItems(items) && ItemsSignals(items) <= capture + propagate
      requires Idle()
      modifies this
      ensures Kept(old(lost), old(weak), old(heap))
      ensures !panicMode && !lost ==> (|old(heap).scopes| in weak <==> weakRef)
      ensures Did(Captured(EvalBlock(items, old(Here()), old(heap), n), capture), v, old(Here()),
                  old(panicMode), old(error))
      decreases n, items, 1
    {
      hide Honest, StoreFacts.AllAnnotated, StoreFacts.Step, Reference.EvalItems;
      ghost var c, h := Here(), heap;
      PushScope(false);
      ghost var total := EvalItems(items, Here(), heap, n);
      v := RunItems(items, capture, propagate, n);
      if !total.Fail? {
        PoppedTo(c, c.(env := |h.scopes|), h, false, total, ItemsSignals(items));
      }
      DowngradeParent(current, weakRef);
      PopScope();
    }

    /**
    The loop over the items of a block. A pending signal ends it: it is cleared when it is in `capture` and left for the
    enclosing construct when it is in `propagate`.
    */
    method RunItems(items: seq<Item>, capture: set<Signal>, propagate: set<Signal>, n: nat) returns (v: Value)
      requires WellFormedItems(items) && ItemsSignals(items) <= capture + propagate
      requires Idle()
      modifies this
      ensures Kept(old(lost), old(weak), old(heap))
      ensures Did(Captured(EvalItems(items, old(Here()), old(heap), n), capture), v, old(Here()),
                  old(panicMode), old(error))
      decreases n, items, 0
    {
      hide Honest, StoreFacts.AllAnnotated, StoreFacts.Step, Reference.EvalItem;
      ghost var d, wasPanic, was := Here(), panicMode, error;
      ghost var total := EvalItems(items, d, heap, n);
      FromItemStart(items, d, heap, n);
      v := P(Null);
      var j := 0;
      while j < |items|
        invariant 0 <= j <= |items|
        invariant Kept(old(lost), old(weak), old(heap))
        invariant wasPanic && !lost ==> panicMode && error == was
        invariant !wasPanic && panicMode && !lost ==> total == Fail(error)
        invariant !panicMode && !lost ==> signal == None && Here() == d && total == FromItem(items, j, v, d, heap, n)
      {
        FromItemStep(items, j, v, d, heap, n);
        v := ExecItem(items[j], false, n);
        j := j + 1;
        if signal == None {
          continue;
        }
        if signal.value in capture {
          signal := None;
          break;
        } else if signal.value in propagate {
          break;
        }
      }
    }

    /** `execute_if_expr`: the chosen branch passes every signal on. */
    method ExecuteIf(e: Expr, weakRef: bool, n: nat) returns (v: Value)
      requires e.If? && WellFormed(e) && Idle()
      modifies this
      ensures Kept(old(lost), old(weak), old(heap))
      ensures Did(EvalIf(e, old(Here()), old(heap), n), v, old(Here()), old(panicMode), old(error))
      decreases n, e, 0
    {
      hide Honest, StoreFacts.AllAnnotated, StoreFacts.Step;
      assert Quiet(e.cond);
      EverySignal(ItemsSignals(e.thenItems));
      var cond := EvalExpr(e.cond, weakRef, n);
      v := P(Null);
      if IsTrue(cond) {
        v := ExecuteBlock(e.thenItems, {}, ALL_SIGNALS, weakRef, n);
      } else if e.els.Some? {
        if e.els.value.If? {
          v := ExecuteIf(e.els.value, weakRef, n);
        } else {
          EverySignal(ItemsSignals(e.els.value.items));
          v := ExecuteBlock(e.els.value.items, {}, ALL_SIGNALS, weakRef, n);
        }
      }
    }

    /** A loop body and the signal switch after it: `return` ends the loop and goes on, `break` only ends it. */
    method ExecuteBody(body: seq<Item>, weakRef: bool, n: nat) returns (v: Value, done: bool)
      requires WellFormedItems(body) && Idle()
      modifies this
      ensures Kept(old(lost), old(weak), old(heap))
      ensures Did(LoopBody(body, old(Here()), old(heap), n), v, old(Here()), old(panicMode), old(error))
      ensures !panicMode && !lost ==> (done <==> Escape(EvalBlock(body, old(Here()), old(heap), n), Continue).Abrupt?)
      decreases n, body, 2
    {
      EverySignal(ItemsSignals(body));
      v := ExecuteBlock(body, {Continue}, {Return, Break}, weakRef, n);
      if signal == Some(Return) {
        return v, true;
      }
      if signal == Some(Break) {
        signal := None;
        return v, true;
      }
      done := false;
    }

    /** `execute_while_expr`, for both kinds of loop. */
    method ExecuteWhile(e: Expr, weakRef: bool, n: nat) returns (v: Value)
      requires (e.While? || e.DoWhile?) && WellFormed(e) && Idle()
      modifies this
      ensures Kept(old(lost), old(weak), old(heap))
      ensures Did(EvalWhile(e, old(Here()), old(heap), n), v, old(Here()), old(panicMode), old(error))
      decreases n, e, 0
    {
      hide Honest, StoreFacts.AllAnnotated, StoreFacts.Step, Reference.Sound, Reference.Eval, Reference.EvalBlock;
      ghost var c, h, wasPanic, was := Here(), heap, panicMode, error;
      ghost var total := EvalWhile(e, c, h, n);
      assert Quiet(e.wcond);
      NeverAbrupt(e.wcond);
      v := P(Null);
      var fuel: nat := n;
      var first := true;
      while true
        invariant fuel <= n && Idle()
        invariant Kept(old(lost), old(weak), old(heap))
        invariant wasPanic && !lost ==> panicMode && error == was
        invariant !wasPanic && panicMode && !lost ==> total == Fail(error)
        invariant !panicMode && !lost ==> Here() == c && total == AtLoopHead(e, c, heap, fuel, v, first)
        decreases fuel, first
      {
        if e.While? {
          var cond := EvalExpr(e.wcond, weakRef, fuel);
          if !IsTrue(cond) {
            return;
          }
        }
        if !first {
          if fuel == 0 {
            v := Error(OutOfFuel);
            return;
          }
          fuel := fuel - 1;
        }
        first := false;
        var done;
        v, done := ExecuteBody(e.wbody, weakRef, fuel);
        if done {
          return;
        }
        if e.DoWhile? {
          var cond := EvalExpr(e.wcond, weakRef, fuel);
          if !IsTrue(cond) {
            return;
          }
        }
      }
    }

    method ExecItem(item: Item, weakRef: bool, n: nat) returns (v: Value)
      requires WellFormedItem(item) && Idle()
      modifies this
      ensures Kept(old(lost), old(weak), old(heap))
      ensures Did(EvalItem(item, old(Here()), old(heap), n), v, old(Here()), old(panicMode), old(error))
      decreases n, item, 2
    {
      hide Honest, StoreFacts.AllAnnotated, StoreFacts.Step, Store.Create, StoreFacts.Annotated, Reference.Eval,
        Reference.EvalPrints, Reference.EvalExtend;
      match item {
        case ExprItem(e) =>
          v := EvalExpr(e, weakRef, n);
        case Decl(name, ty, e) =>
          v := EvalExpr(e, weakRef, n);
          var ok := CreateEnv(name, ty, v, n);
          var stop := Checked(ok, DeclareFailed);
        case Print(es) =>
          ExecutePrint(es, weakRef, n);
          v := P(Null);
        case ReturnItem(value) =>
          v := P(Null);
          if value.Some? {
            v := EvalExpr(value.value, weakRef, n);
          }
          signal := Some(Return);
        case BreakItem(value) =>
          v := P(Null);
          if value.Some? {
            v := EvalExpr(value.value, weakRef, n);
          }
          signal := Some(Break);
        case ContinueItem =>
          signal := Some(Continue);
          v := P(Null);
        case Extend(_, _) =>
          v := ExecuteExtend(item, n);
        case Interface(name, contract) =>
          v := InterfaceV(TInterface(contract));
          var ok := CreateEnv(name, TInterface(contract), v, n);
          var stop := Checked(ok, DeclareFailed);
        case ErrorItem =>
          v := P(Null);
      }
    }

    /**
    `interpreter_print_value`: the scope of a function, type or instance is read, and for an instance those of its
    fields' values. Nothing but fuel stops it from going round in an instance that contains itself.
    */
    method PrintValue(v: Value, n: nat) returns (s: Option<Shown>)
      requires Honest()
      modifies this`met, this`lost
      ensures Kept(old(lost), old(weak), old(heap))
      ensures !lost ==> s == Show(heap, v, n)
      decreases n, 0
    {
      hide Honest, StoreFacts.AllAnnotated;
      match v {
        case P(p) => s := Some(ShownPrim(p));
        case FnV(closure, _, ty, _) =>
          var vars := ReadScope(closure, false);
          var sigs := PrintSignatures(vars);
          s := Some(ShownFn(sigs, ty));
        case TypeV(closure) =>
          var vars := ReadScope(closure, false);
          var sigs := PrintSignatures(vars);
          s := Some(ShownType(sigs));
        case InstV(closure, _, name, weakRef) =>
          var vars := ReadScope(closure, weakRef);
          if n == 0 {
            return None;
          }
          var fields := PrintFields(vars, n - 1);
          s := if fields.None? then None else Some(ShownInst(name, fields.value));
        case _ => s := Some(ShownNothing);
      }
    }

    method PrintSignatures(vars: seq<Env>) returns (sigs: seq<Sig>)
      ensures sigs == Signatures(vars)
    {
      sigs := [];
      var i := 0;
      while i < |vars|
        invariant 0 <= i == |sigs| <= |vars|
        invariant forall j :: 0 <= j < i ==> sigs[j] == Sig(vars[j].name, vars[j].ty)
      {
        sigs := sigs + [Sig(vars[i].name, vars[i].ty)];
        i := i + 1;
      }
    }

    method PrintFields(vars: seq<Env>, n: nat) returns (fields: Option<seq<Field>>)
      requires Honest()
      modifies this`met, this`lost
      ensures Kept(old(lost), old(weak), old(heap))
      ensures !lost ==> fields == ShowFields(heap, vars, n)
      decreases n, 1
    {
      hide Honest, StoreFacts.AllAnnotated, Store.Show;
      var done: seq<Field> := [];
      assert vars[0..] == vars;
      FollowNone(ShowFields(heap, vars, n));
      var i := 0;
      while i < |vars|
        invariant 0 <= i <= |vars| && Kept(old(lost), old(weak), old(heap))
        invariant !lost ==> ShowFields(heap, vars, n) == Follow(done, ShowFields(heap, vars[i..], n))
      {
        assert vars[i..][0] == vars[i] && vars[i..][1..] == vars[i + 1..];
        if vars[i].name != "self" {
          var s := PrintValue(vars[i].value, n);
          if s.None? {
            return None;
          }
          FollowOne(done, Field(vars[i].name, vars[i].ty, s.value), ShowFields(heap, vars[i + 1..], n));
          done := done + [Field(vars[i].name, vars[i].ty, s.value)];
        }
        i := i + 1;
      }
      assert vars[|vars|..] == [] && done + [] == done;
      fields := Some(done);
    }

    /** `execute_print_item`; printing appends to the output. */
    method ExecutePrint(es: seq<Expr>, weakRef: bool, n: nat)
      requires QuietAll(es) && Idle()
      modifies this
      ensures Kept(old(lost), old(weak), old(heap))
      ensures Did(EvalPrints(es, old(Here()), old(heap), n), P(Null), old(Here()), old(panicMode), old(error))
      decreases n, es, 1
    {
      hide Honest, StoreFacts.AllAnnotated, StoreFacts.Step, SameFlags, EvalPrint;
      FlagsCompose();
      ghost var c, h, wasPanic, was := Here(), heap, panicMode, error;
      ghost var total := EvalPrints(es, c, h, n);
      assert es[0..] == es;
      var i := 0;
      while i < |es|
        invariant 0 <= i <= |es| && QuietAll(es[i..])
        invariant Kept(old(lost), old(weak), old(heap))
        invariant wasPanic && !lost ==> panicMode && error == was
        invariant !wasPanic && panicMode && !lost ==> total == Fail(error)
        invariant !panicMode && !lost ==> signal == None && Here() == c && total == EvalPrints(es[i..], c, heap, n)
      {
        assert es[i..][0] == es[i] && es[i..][1..] == es[i + 1..];
        PrintsUnfold(es[i..], Here(), heap, n);
        PrintOne(es[i], weakRef, n);
        i := i + 1;
      }
    }

    method PrintOne(e: Expr, weakRef: bool, n: nat)
      requires Quiet(e) && Idle()
      modifies this
      ensures Kept(old(lost), old(weak), old(heap))
      ensures Did(EvalPrint(e, old(Here()), old(heap), n), P(Null), old(Here()), old(panicMode), old(error))
      decreases n, e, 5
    {
      hide Honest, StoreFacts.AllAnnotated, StoreFacts.Step, SameFlags;
      FlagsCompose();
      NeverAbrupt(e);
      var v := EvalExpr(e, weakRef, n);
      var shown := PrintValue(v, n);
      if shown.None? {
        var x := Error(OutOfFuel);
      } else {
        Emit(shown.value);
      }
    }

    method Emit(s: Shown)
      modifies this`heap
      ensures heap == Printed(old(heap), s) && (AllAnnotated(old(heap)) ==> AllAnnotated(heap))
      ensures SameFlags(old(heap), heap, weak, weak)
    {
      PrintedAnnotated(heap, s);
      heap := Printed(heap, s);
    }

    /** `execute_extend`: the members are executed with the type's scope as the current one. */
    method ExecuteExtend(item: Item, n: nat) returns (v: Value)
      requires item.Extend? && WellFormedItem(item) && Idle()
      modifies this
      ensures Kept(old(lost), old(weak), old(heap))
      ensures Did(EvalExtend(item, old(Here()), old(heap), n), v, old(Here()), old(panicMode), old(error))
      decreases n, item, 1
    {
      hide Honest, StoreFacts.AllAnnotated, StoreFacts.Step;
      v := GetEnv(item.tname);
      if !v.TypeV? {
        v := Error(NotAType);
        return;
      }
      var saved := current;
      current := v.closure;
      var stop := ExecuteMembers(item.members, n);
      if stop {
        v := ErrorV;
        return;
      }
      current := saved;
    }

    /** The loop over member items; a pending signal stops it with an error. */
    method ExecuteMembers(members: seq<Item>, n: nat) returns (stop: bool)
      requires WellFormedItems(members) && Idle()
      modifies this
      ensures Kept(old(lost), old(weak), old(heap))
      ensures stop ==> panicMode
      ensures Did(EvalMembers(members, old(Here()), old(heap), n), P(Null), old(Here()), old(panicMode), old(error))
      decreases n, members, 1
    {
      hide Honest, StoreFacts.AllAnnotated, StoreFacts.Step;
      ghost var c, h, wasPanic, was := Here(), heap, panicMode, error;
      ghost var total := EvalMembers(members, c, h, n);
      assert members[0..] == members;
      var i := 0;
      while i < |members|
        invariant 0 <= i <= |members| && WellFormedItems(members[i..])
        invariant Kept(old(lost), old(weak), old(heap))
        invariant wasPanic && !lost ==> panicMode && error == was
        invariant !wasPanic && panicMode && !lost ==> total == Fail(error)
        invariant !panicMode && !lost ==>
                    signal == None && Here() == c && total == EvalMembers(members[i..], c, heap, n)
      {
        assert members[i..][0] == members[i] && members[i..][1..] == members[i + 1..];
        var v := ExecItem(members[i], true, n);
        if signal != None {
          v := Error(SignalNotNone);
          return true;
        }
        i := i + 1;
      }
      stop := false;
    }

    /** `interpreter_eval_expr`: dispatch on the kind of expression. */
    method EvalExpr(e: Expr, weakRef: bool, n: nat) returns (v: Value)
      requires WellFormed(e) && Idle()
      modifies this
      ensures Kept(old(lost), old(weak), old(heap))
      ensures Did(Eval(e, old(Here()), old(heap), n), v, old(Here()), old(panicMode), old(error))
      decreases n, e, 4
    {
      hide SameFlags, Honest, StoreFacts.AllAnnotated, StoreFacts.Step, Reference.Sound, Reference.EvalBlock,
        Reference.EvalCall, Reference.EvalBinary, Reference.EvalAssign, Reference.EvalCompound, Reference.EvalIf,
        Reference.EvalWhile, Reference.EvalFor, Reference.EvalFn, Reference.EvalType, Reference.EvalInst,
        Reference.EvalMember, StoreFacts.Annotated;
      FlagsStay(heap, weak);
      match e {
        case Lit(p) => v := P(p);
        case Inert => v := P(Null);
        case Ident(name) => v := GetEnv(name);
        case Self =>
          v := GetEnv("self");
          if !v.InstV? {
            v := Error(SelfError);
          }
        case Unary(op, a) => v := ExecuteUnary(e, weakRef, n);
        case Binary(_, _, _) => v := ExecuteBinary(e, weakRef, n);
        case Assign(_, _) => v := ExecuteAssign(e, weakRef, n);
        case Compound(_, _, _) => v := ExecuteCompound(e, weakRef, n);
        case If(_, _, _) => v := ExecuteIf(e, weakRef, n);
        case While(_, _) => v := ExecuteWhile(e, weakRef, n);
        case DoWhile(_, _) => v := ExecuteWhile(e, weakRef, n);
        case For(_, _, _, _) => v := ExecuteFor(e, weakRef, n);
        case FnExpr(_, _, _, _) => v := ExecuteFn(e, weakRef, n);
        case TypeExpr(_, _) => v := ExecuteType(e, weakRef, n);
        case InstExpr(_, _, _) => v := ExecuteInst(e, weakRef, n);
        case Block(items) => v := ExecuteBareBlock(items, weakRef, n);
        case Call(_, _) => v := ExecuteCall(e, weakRef, n);
        case Member(_, _) => v := ExecuteMemberGet(e, weakRef, n);
      }
    }

    /** A block on its own captures `break` only. */
    method ExecuteBareBlock(items: seq<Item>, weakRef: bool, n: nat) returns (v: Value)
      requires WellFormedItems(items) && Idle()
      modifies this
      ensures Kept(old(lost), old(weak), old(heap))
      ensures Did(Escape(EvalBlock(items, old(Here()), old(heap), n), Break), v, old(Here()),
                  old(panicMode), old(error))
      decreases n, items, 2
    {
      EverySignal(ItemsSignals(items));
      v := ExecuteBlock(items, {Break}, {Return, Continue}, weakRef, n);
    }

    /** `execute_unary_op`. */
    method ExecuteUnary(e: Expr, weakRef: bool, n: nat) returns (v: Value)
      requires e.Unary? && WellFormed(e) && Idle()
      modifies this
      ensures Kept(old(lost), old(weak), old(heap))
      ensures Did(Eval(e, old(Here()), old(heap), n), v, old(Here()), old(panicMode), old(error))
      decreases n, e, 0
    {
      hide Honest, StoreFacts.AllAnnotated, StoreFacts.Step, Reference.Sound;
      assert Quiet(e.operand);
      NeverAbrupt(e.operand);
      v := EvalExpr(e.operand, weakRef, n);
      match e.uop {
        case Plus =>
        case Not => v := P(Bool(!IsTrue(v)));
        case _ =>
          if v.P? {
            v := P(ops.unary(e.uop, v.p));
          }
      }
    }

    /** `execute_for_expr`. */
    method ExecuteFor(e: Expr, weakRef: bool, n: nat) returns (v: Value)
      requires e.For? && WellFormed(e) && Idle()
      modifies this
      ensures Kept(old(lost), old(weak), old(heap))
      ensures Did(EvalFor(e, old(Here()), old(heap), n), v, old(Here()), old(panicMode), old(error))
      decreases n, e, 3
    {
      hide Honest, StoreFacts.AllAnnotated, StoreFacts.Step, Reference.EvalForIn;
      ghost var c, h := Here(), heap;
      PushScope(false);
      ghost var total := EvalForIn(e, Here(), heap, n);
      var stop;
      v, stop := RunFor(e, n);
      if stop {
        return;
      }
      if !total.Fail? {
        PoppedTo(c, c.(env := |h.scopes|), h, false, total, ExprSignals(e));
      }
      DowngradeParent(current, weakRef);
      PopScope();
    }

    /** The initializer and the loop. */
    method RunFor(e: Expr, n: nat) returns (v: Value, stop: bool)
      requires e.For? && WellFormed(e) && Idle()
      modifies this
      ensures Kept(old(lost), old(weak), old(heap))
      ensures stop ==> panicMode
      ensures Did(EvalForIn(e, old(Here()), old(heap), n), v, old(Here()), old(panicMode), old(error))
      decreases n, e, 2
    {
      hide Honest, StoreFacts.AllAnnotated, StoreFacts.Step;
      v := P(Null);
      stop := ExecuteInit(e.init, n);
      if stop {
        v := ErrorV;
        return;
      }
      v := ExecuteForLoop(e, n);
    }

    method ExecuteInit(init: Option<Item>, n: nat) returns (stop: bool)
      requires (init.Some? ==> WellFormedItem(init.value)) && Idle()
      modifies this
      ensures Kept(old(lost), old(weak), old(heap))
      ensures stop ==> panicMode
      ensures exists v :: Did(EvalInit(init, old(Here()), old(heap), n), v, old(Here()), old(panicMode), old(error))
      ensures stop && !lost ==> EvalInit(init, old(Here()), old(heap), n).Fail? || old(panicMode)
      decreases n, init
    {
      hide Honest, StoreFacts.AllAnnotated, StoreFacts.Step;
      stop := false;
      ghost var r, c, p, was := EvalInit(init, Here(), heap, n), Here(), panicMode, error;
      if init.Some? {
        var v := ExecItem(init.value, false, n);
        if signal != None {
          v := Error(SignalNotNone);
          stop := true;
        }
        assert Did(r, v, c, p, was);
      } else {
        assert Did(r, P(Null), c, p, was);
      }
    }

    /** The loop itself, in the scope that has been pushed for it. */
    method ExecuteForLoop(e: Expr, n: nat) returns (v: Value)
      requires e.For? && WellFormed(e) && Idle()
      modifies this
      ensures Kept(old(lost), old(weak), old(heap))
      ensures Did(AtForHead(e, old(Here()), old(heap), n, P(Null), true), v, old(Here()), old(panicMode), old(error))
      decreases n, e, 1
    {
      hide SameFlags, Honest, StoreFacts.AllAnnotated, StoreFacts.Step, Reference.Sound, StoreFacts.Annotated,
        Reference.Eval,
        Reference.EvalBlock;
      FlagsCompose();
      ghost var c, h, wasPanic, was := Here(), heap, panicMode, error;
      ghost var total := AtForHead(e, c, h, n, P(Null), true);
      NeverAbruptOption(e.fcond);
      NeverAbruptOption(e.update);
      v := P(Null);
      var fuel: nat := n;
      var first := true;
      while true
        invariant fuel <= n && Idle()
        invariant Kept(old(lost), old(weak), old(heap))
        invariant wasPanic && !lost ==> panicMode && error == was
        invariant !wasPanic && panicMode && !lost ==> total == Fail(error)
        invariant !panicMode && !lost ==> Here() == c && total == AtForHead(e, c, heap, fuel, v, first)
        decreases fuel, first
      {
        if e.fcond.Some? {
          var cond := EvalExpr(e.fcond.value, false, fuel);
          if !IsTrue(cond) {
            return;
          }
        }
        if !first {
          if fuel == 0 {
            v := Error(OutOfFuel);
            return;
          }
          fuel := fuel - 1;
        }
        first := false;
        ForRoundUnfolds(e, Here(), heap, fuel);
        var done;
        v, done := ExecuteBody(e.fbody, false, fuel);
        if done {
          return;
        }
        if e.update.Some? {
          var u := EvalExpr(e.update.value, false, fuel);
        }
      }
    }

    /** `execute_binary_op`: the logical operators evaluate their right side only when it matters. */
    method ExecuteBinary(e: Expr, weakRef: bool, n: nat) returns (v: Value)
      requires e.Binary? && WellFormed(e) && Idle()
      modifies this
      ensures Kept(old(lost), old(weak), old(heap))
      ensures Did(EvalBinary(e, old(Here()), old(heap), n), v, old(Here()), old(panicMode), old(error))
      decreases n, e, 0
    {
      hide Honest, StoreFacts.AllAnnotated, StoreFacts.Step;
      assert Quiet(e.left) && Quiet(e.right);
      var left := EvalExpr(e.left, weakRef, n);
      if e.bop.Or? {
        var b := IsTrue(left);
        if !b {
          var right := EvalExpr(e.right, weakRef, n);
          b := IsTrue(right);
        }
        return P(Bool(b));
      }
      if e.bop.And? {
        var b := IsTrue(left);
        if b {
          var right := EvalExpr(e.right, weakRef, n);
          b := IsTrue(right);
        }
        return P(Bool(b));
      }
      var right := EvalExpr(e.right, weakRef, n);
      v := P(ops.binary(e.bop, left, right));
    }

    /** `execute_assign_expr`: the value first, then the owner of a member target, then the write. */
    method ExecuteAssign(e: Expr, weakRef: bool, n: nat) returns (v: Value)
      requires e.Assign? && WellFormed(e) && Idle()
      modifies this
      ensures Kept(old(lost), old(weak), old(heap))
      ensures Did(EvalAssign(e, old(Here()), old(heap), n), v, old(Here()), old(panicMode), old(error))
      decreases n, e, 1
    {
      hide Honest, StoreFacts.AllAnnotated, StoreFacts.Step, Store.Set, AssignedMember, StoreFacts.Annotated;
      AssignUnfolds(e, Here(), heap, n);
      assert e.target.Member? ==> Quiet(e.target.owner) && Quiet(e.value);
      v := EvalExpr(e.value, weakRef, n);
      if e.target.Ident? {
        var ok := SetEnv(e.target.name, v, n);
        var stop := Checked(ok, SetFailed);
      } else {
        AssignMember(e, v, weakRef, n);
      }
    }

    method AssignMember(e: Expr, v: Value, weakRef: bool, n: nat)
      requires e.Assign? && e.target.Member? && WellFormed(e) && Idle()
      modifies this
      ensures Kept(old(lost), old(weak), old(heap))
      ensures Did(AssignedMember(e, v, old(Here()), old(heap), n), v, old(Here()), old(panicMode), old(error))
      decreases n, e, 0
    {
      hide Honest, StoreFacts.AllAnnotated, StoreFacts.Step, Store.SetMember, StoreFacts.Annotated;
      assert Quiet(e.target.owner);
      NeverAbrupt(e.target.owner);
      var owner := EvalExpr(e.target.owner, weakRef, n);
      var ok := SetMemberEnv(owner, e.target.field, v, n);
      var stop := Checked(ok, SetFailed);
    }

    /** `execute_compound_binary_op`: read, compute, write back. */
    method ExecuteCompound(e: Expr, weakRef: bool, n: nat) returns (v: Value)
      requires e.Compound? && WellFormed(e) && Idle()
      modifies this
      ensures Kept(old(lost), old(weak), old(heap))
      ensures Did(EvalCompound(e, old(Here()), old(heap), n), v, old(Here()), old(panicMode), old(error))
      decreases n, e, 0
    {
      hide SameFlags, Honest, StoreFacts.AllAnnotated, StoreFacts.Step, Store.Set, Store.Get, StoreFacts.Annotated;
      FlagsCompose();
      assert Quiet(e.cvalue);
      var left := GetEnv(e.cname);
      var right := EvalExpr(e.cvalue, weakRef, n);
      v := P(ops.binary(e.cop, left, right));
      var ok := SetEnv(e.cname, v, n);
      var stop := Checked(ok, SetFailed);
    }

    /** The sugar name of a function, type or instance expression. */
    method BindName(name: string, ty: Ty, v: Value, n: nat)
      requires Idle()
      modifies this
      ensures Kept(old(lost), old(weak), old(heap))
      ensures Did(Named(old(Here()), old(heap), name, ty, v, n), v, old(Here()), old(panicMode), old(error))
    {
      if name != "" {
        var ok := CreateEnv(name, ty, v, n);
        var stop := Checked(ok, DeclareFailed);
      }
    }

    /** `execute_fn_expr`. */
    method ExecuteFn(e: Expr, weakRef: bool, n: nat) returns (v: Value)
      requires e.FnExpr? && WellFormed(e) && Idle()
      modifies this
      ensures Kept(old(lost), old(weak), old(heap))
      ensures Did(EvalFn(e, old(Here()), old(heap), n), v, old(Here()), old(panicMode), old(error))
      ensures !panicMode && !lost ==> v.FnV? && (v.closure in weak <==> weakRef)
      decreases n, e, 0
    {
      hide Honest, StoreFacts.AllAnnotated, StoreFacts.Step;
      ghost var c, h := Here(), heap;
      PushScope(false);
      ghost var params := EvalParams(e.params, Here(), heap, n);
      var stop := DeclareParams(e.params, n);
      if stop {
        v := ErrorV;
        return;
      }
      var body: Body := e.body;
      v := FnV(current, body, e.fty, None);
      if !params.Fail? {
        PoppedTo(c, c.(env := |h.scopes|), h, false, params, {});
      }
      PopScope();
      DowngradeParent(v.closure, weakRef);
      BindName(e.fname, e.fty, v, n);
    }

    /** A parameter gets a checked binding in the current scope. */
    method BindParam(name: string, ty: Ty, v: Value, n: nat) returns (stop: bool)
      requires Idle()
      modifies this
      ensures Kept(old(lost), old(weak), old(heap))
      ensures stop ==> panicMode
      ensures Did(Stored(Create(old(Here()), old(heap), name, ty, v, n), v, ParamFailed), v, old(Here()),
                  old(panicMode), old(error))
    {
      var ok := CreateEnv(name, ty, v, n);
      stop := Checked(ok, ParamFailed);
    }

    method DeclareParams(params: seq<Param>, n: nat) returns (stop: bool)
      requires QuietParams(params) && Idle()
      modifies this
      ensures Kept(old(lost), old(weak), old(heap))
      ensures stop ==> panicMode
      ensures Did(EvalParams(params, old(Here()), old(heap), n), P(Null), old(Here()), old(panicMode), old(error))
      decreases n, params
    {
      hide Honest, StoreFacts.AllAnnotated, StoreFacts.Step, Reference.Eval, Store.Create, StoreFacts.Annotated;
      ghost var c, h, wasPanic, was := Here(), heap, panicMode, error;
      ghost var total := EvalParams(params, c, h, n);
      assert params[0..] == params;
      var i := 0;
      while i < |params|
        invariant 0 <= i <= |params| && QuietParams(params[i..])
        invariant Kept(old(lost), old(weak), old(heap))
        invariant wasPanic && !lost ==> panicMode && error == was
        invariant !wasPanic && panicMode && !lost ==> total == Fail(error)
        invariant !panicMode && !lost ==> signal == None && Here() == c && total == EvalParams(params[i..], c, heap, n)
      {
        assert params[i..][0] == params[i] && params[i..][1..] == params[i + 1..];
        var p := params[i];
        var v := P(Unknown);
        if p.default.Some? {
          v := EvalExpr(p.default.value, false, n);
        }
        stop := BindParam(p.name, p.ty, v, n);
        if stop {
          return;
        }
        i := i + 1;
      }
      stop := false;
    }

    /** `execute_type_declaration`. */
    method ExecuteType(e: Expr, weakRef: bool, n: nat) returns (v: Value)
      requires e.TypeExpr? && WellFormed(e) && Idle()
      modifies this
      ensures Kept(old(lost), old(weak), old(heap))
      ensures Did(EvalType(e, old(Here()), old(heap), n), v, old(Here()), old(panicMode), old(error))
      ensures !panicMode && !lost ==> v.TypeV? && (v.closure in weak <==> weakRef)
      decreases n, e, 0
    {
      hide Honest, StoreFacts.AllAnnotated, StoreFacts.Step;
      ghost var c, h := Here(), heap;
      PushScope(true);
      ghost var members := EvalMembers(e.members, Here(), heap, n);
      var stop := ExecuteMembers(e.members, n);
      if stop {
        v := ErrorV;
        return;
      }
      v := TypeV(current);
      if !members.Fail? {
        PoppedTo(c, c.(env := |h.scopes|), h, true, members, {});
      }
      PopScope();
      DowngradeParent(v.closure, weakRef);
      BindName(e.tname, TType, v, n);
    }

    // -------------------------------------------------------------------------------------------------
    // Instances and members

    /** One initial member value; the `value` member of a builtin type must have that type's own kind. */
    method InitializeMember(owner: Value, name: string, v: Value, n: nat) returns (stop: bool)
      requires owner.InstV? && Idle()
      modifies this
      ensures Kept(old(lost), old(weak), old(heap))
      ensures stop ==> panicMode
      ensures Did(Initialize(owner, name, v, old(Here()), old(heap), n), owner, old(Here()),
                  old(panicMode), old(error))
    {
      if IsBuiltin(owner.tyName) && name == "value" {
        if !(v.P? && BuiltinName(v.p) == Some(owner.tyName)) {
          var x := Error(BadValueMember);
          return true;
        }
      }
      var ok := SetMemberEnv(owner, name, v, n);
      stop := Checked(ok, InitFailed);
    }

    method CreateSelf(owner: Value, n: nat) returns (stop: bool)
      requires owner.InstV? && Idle()
      modifies this
      ensures Kept(old(lost), old(weak), old(heap))
      ensures stop ==> panicMode
      ensures Did(BindSelf(owner, old(Here()), old(heap), n), owner, old(Here()), old(panicMode), old(error))
    {
      var self := owner.(weakRef := true);
      var ok := CreateEnv("self", TNamed(owner.tyName), self, n);
      stop := Checked(ok, SelfFailed);
    }

    method InitializeMembers(inits: seq<Init>, owner: Value, n: nat) returns (stop: bool)
      requires QuietInits(inits) && owner.InstV? && Idle()
      modifies this
      ensures Kept(old(lost), old(weak), old(heap))
      ensures stop ==> panicMode
      ensures Did(EvalInits(inits, owner, old(Here()), old(heap), n), owner, old(Here()), old(panicMode), old(error))
      decreases n, inits
    {
      hide Honest, StoreFacts.AllAnnotated, StoreFacts.Step, Reference.Sound;
      ghost var c, h, wasPanic, was := Here(), heap, panicMode, error;
      ghost var total := EvalInits(inits, owner, c, h, n);
      assert inits[0..] == inits;
      var i := 0;
      while i < |inits|
        invariant 0 <= i <= |inits| && QuietInits(inits[i..])
        invariant Kept(old(lost), old(weak), old(heap))
        invariant wasPanic && !lost ==> panicMode && error == was
        invariant !wasPanic && panicMode && !lost ==> total == Fail(error)
        invariant !panicMode && !lost ==>
                    signal == None && Here() == c && total == EvalInits(inits[i..], owner, c, heap, n)
      {
        assert inits[i..][0] == inits[i] && inits[i..][1..] == inits[i + 1..];
        assert Quiet(inits[i].value);
        NeverAbrupt(inits[i].value);
        var v := EvalExpr(inits[i].value, true, n);
        stop := InitializeMember(owner, inits[i].name, v, n);
        if stop {
          return;
        }
        i := i + 1;
      }
      stop := false;
    }

    /** The initial members and `self`. */
    method FillInstance(e: Expr, owner: Value, n: nat) returns (stop: bool)
      requires e.InstExpr? && WellFormed(e) && owner.InstV? && Idle()
      modifies this
      ensures Kept(old(lost), old(weak), old(heap))
      ensures stop ==> panicMode
      ensures Did(EvalInstIn(e, owner, old(Here()), old(heap), n), owner, old(Here()), old(panicMode), old(error))
      decreases n, e, 1
    {
      hide Honest, StoreFacts.AllAnnotated, StoreFacts.Step, Reference.Sound, Reference.OwnerSound;
      OwnerQuiet(Here(), heap, EvalInits(e.inits, owner, Here(), heap, n), owner);
      stop := InitializeMembers(e.inits, owner, n);
      if !stop {
        stop := CreateSelf(owner, n);
      }
    }

    /** `execute_inst_creation`. */
    method ExecuteInst(e: Expr, weakRef: bool, n: nat) returns (v: Value)
      requires e.InstExpr? && WellFormed(e) && Idle()
      modifies this
      ensures Kept(old(lost), old(weak), old(heap))
      ensures Did(EvalInst(e, old(Here()), old(heap), n), v, old(Here()), old(panicMode), old(error))
      ensures !panicMode && !lost ==> v.InstV? && !v.weakRef && (v.closure in weak <==> weakRef)
      decreases n, e, 2
    {
      hide Reference.EvalInstIn, Honest, StoreFacts.AllAnnotated, StoreFacts.Step, Reference.Sound,
        Reference.OwnerSound;
      ghost var c, h := Here(), heap;
      var t := GetEnv(e.ity);
      if !t.TypeV? {
        v := Error(NotAType);
        return;
      }
      PushScope(true);
      ghost var d := Here();
      v := InstV(current, t.closure, e.ity, false);
      ghost var total := EvalInstIn(e, v, d, heap, n);
      OwnerQuiet(d, heap, total, v);
      var stop := FillInstance(e, v, n);
      if stop {
        v := ErrorV;
        return;
      }
      if total.Normal? {
        PoppedToOwner(c, d, h, total, v);
      }
      PopScope();
      DowngradeParent(v.closure, weakRef);
      BindName(e.iname, TNamed(e.ity), v, n);
    }

    /** `execute_member_get`: a primitive is wrapped in an instance of its builtin type first. */
    method ExecuteMemberGet(e: Expr, weakRef: bool, n: nat) returns (v: Value)
      requires e.Member? && WellFormed(e) && Idle()
      modifies this
      ensures Kept(old(lost), old(weak), old(heap))
      ensures Did(EvalMember(e, old(Here()), old(heap), n), v, old(Here()), old(panicMode), old(error))
      decreases n, e, 0
    {
      hide Honest, StoreFacts.AllAnnotated, StoreFacts.Step, Reference.Sound, Reference.Boxed, Store.GetMember,
        StoreFacts.Annotated;
      assert Quiet(e.owner);
      NeverAbrupt(e.owner);
      var owner := EvalExpr(e.owner, weakRef, n);
      BoxedQuiet(owner, Here(), heap, n);
      owner := BoxPrimitive(owner, weakRef, n);
      v := GetMemberValue(owner, e.field);
      if owner.InstV? && v.FnV? {
        v := v.(instance := Some(owner.closure));
      }
      if v == P(Unknown) {
        v := Error(NoMember);
      }
    }

    method FillBox(v: Value, owner: Value, n: nat) returns (stop: bool)
      requires owner.InstV? && Idle()
      modifies this
      ensures Kept(old(lost), old(weak), old(heap))
      ensures stop ==> panicMode
      ensures Did(BoxIn(v, owner, old(Here()), old(heap), n), owner, old(Here()), old(panicMode), old(error))
    {
      hide Honest, StoreFacts.AllAnnotated, StoreFacts.Step, Store.SetMember, Store.Create;
      stop := InitializeMember(owner, "value", v, n);
      if !stop {
        stop := CreateSelf(owner, n);
      }
    }

    /** A primitive becomes an instance of its builtin type. */
    method BoxPrimitive(v: Value, weakRef: bool, n: nat) returns (owner: Value)
      requires Idle()
      modifies this
      ensures Kept(old(lost), old(weak), old(heap))
      ensures Did(Boxed(v, old(Here()), old(heap), n), owner, old(Here()), old(panicMode), old(error))
    {
      hide Reference.BoxIn, Honest, StoreFacts.AllAnnotated, StoreFacts.Step, Reference.Sound, Reference.OwnerSound,
        Store.SetMember, Store.Create, StoreFacts.Annotated, StoreFacts.Good;
      if v.TypeV? || v.InstV? {
        return v;
      }
      if !v.P? || BuiltinName(v.p).None? {
        owner := Error(NoMember);
        return;
      }
      var ity := BuiltinName(v.p).value;
      var t := GetEnv(ity);
      if !t.TypeV? {
        owner := Error(NotAType);
        return;
      }
      owner := MakeBox(v, t, ity, weakRef, n);
    }

    method MakeBox(v: Value, t: Value, ity: string, weakRef: bool, n: nat) returns (owner: Value)
      requires v.P? && t.TypeV? && Idle()
      modifies this
      ensures Kept(old(lost), old(weak), old(heap))
      ensures var r := |old(heap).scopes|;
              var d, k := old(Here()).(env := r), Push(old(heap), old(current), true);
              Did(BoxIn(v, InstV(r, t.closure, ity, false), d, k, n), owner, old(Here()), old(panicMode), old(error))
      ensures !panicMode && !lost ==> owner.InstV? && !owner.weakRef && (owner.closure in weak <==> weakRef)
    {
      hide Reference.BoxIn, Honest, StoreFacts.AllAnnotated, StoreFacts.Step, Reference.Sound, Reference.OwnerSound;
      ghost var c, h := Here(), heap;
      PushScope(true);
      ghost var d := Here();
      owner := InstV(current, t.closure, ity, false);
      ghost var total := BoxIn(v, owner, d, heap, n);
      BoxInSound(v, owner, d, heap, n);
      OwnerQuiet(d, heap, total, owner);
      var stop := FillBox(v, owner, n);
      if stop {
        owner := ErrorV;
        return;
      }
      if total.Normal? {
        PoppedToOwner(c, d, h, total, owner);
      }
      PopScope();
      DowngradeParent(owner.closure, weakRef);
    }

    // -------------------------------------------------------------------------------------------------
    // Calls

    /** `execute_call_expr`. */
    method ExecuteCall(e: Expr, weakRef: bool, n: nat) returns (v: Value)
      requires e.Call? && WellFormed(e) && Idle()
      modifies this
      ensures Kept(old(lost), old(weak), old(heap))
      ensures Did(EvalCall(e, old(Here()), old(heap), n), v, old(Here()), old(panicMode), old(error))
      decreases n, e, 0
    {
      hide Honest, StoreFacts.AllAnnotated, StoreFacts.Step, Reference.Sound;
      assert Quiet(e.callee);
      NeverAbrupt(e.callee);
      CallInvokes(e, Here(), heap, n);
      var fn := EvalExpr(e.callee, weakRef, n);
      if !fn.FnV? {
        v := Error(NotAFunction);
        return;
      }
      v := Invoke(fn, e.args, n);
    }

    /** The call once the callee is known: a parameter scope below the caller, then the body below the closure. */
    method Invoke(fn: Value, args: seq<Expr>, n: nat) returns (v: Value)
      requires fn.FnV? && QuietArgs(args, false) && Idle()
      modifies this
      ensures Kept(old(lost), old(weak), old(heap))
      ensures Did(Invoked(fn, args, old(Here()), old(heap), n), v, old(Here()), old(panicMode), old(error))
      decreases n, args, 3
    {
      hide Honest, StoreFacts.AllAnnotated, StoreFacts.Step, Reference.Sound, Reference.EvalBinding,
        Reference.EvalBlock, StoreFacts.Keeps, StoreFacts.Good, StoreFacts.CtxGood;
      ghost var c, k := Here(), heap;
      var previous := instance;
      ghost var d, l := CalleeCtx(c, k, fn), CalleeStore(c, k, fn);
      ghost var bound := EvalBinding(args, fn.closure, d, l, n);
      SoundQuiet(d, l, bound);
      var stop := OpenCall(fn, args, n);
      if stop {
        v := ErrorV;
        return;
      }
      if bound.Normal? {
        PoppedTo(c, d, CountCall(k, fn.instance), false, bound, {});
      }
      var caller := EnterClosure(fn.closure);
      if n == 0 {
        v := Error(OutOfFuel);
        return;
      }
      v := RunBody(fn.body, n - 1);
      current := caller;
      instance := previous;
    }

    /** The parameter scope becomes current and its bindings are made, with the callee's instance in force. */
    method OpenCall(fn: Value, args: seq<Expr>, n: nat) returns (stop: bool)
      requires fn.FnV? && QuietArgs(args, false) && Idle()
      modifies this
      ensures Kept(old(lost), old(weak), old(heap))
      ensures stop ==> panicMode
      ensures var d := CalleeCtx(old(Here()), old(heap), fn);
              Did(EvalBinding(args, fn.closure, d, CalleeStore(old(Here()), old(heap), fn), n), P(Null), d,
                  old(panicMode), old(error))
      decreases n, args, 2
    {
      hide Honest, StoreFacts.AllAnnotated, StoreFacts.Step, Reference.Sound, Reference.EvalBinding;
      RetainInstance(fn.instance);
      PushScope(false);
      stop := BindParameters(args, fn.closure, n);
    }

    /** The parameter scope, which stays current, moves from the caller's scope to the closure. */
    method EnterClosure(closure: Ref) returns (caller: Ref)
      requires Idle()
      modifies this`heap, this`current
      ensures AllAnnotated(old(heap)) ==> AllAnnotated(heap)
      ensures current == old(current) && caller == ParentOf(old(heap), current)
      ensures current < |old(heap).scopes| ==> heap == SetParent(old(heap), current, closure)
    {
      var params := current;
      PopScope();
      if params < |heap.scopes| {
        SetParentAnnotated(heap, params, closure);
        heap := SetParent(heap, params, closure);
      }
      caller := current;
      current := params;
    }

    /** The body of a function captures `return`; well-formed bodies raise nothing else. */
    method RunBody(body: Body, n: nat) returns (v: Value)
      requires Idle()
      modifies this
      ensures Kept(old(lost), old(weak), old(heap))
      ensures Did(Escape(EvalBlock(body, old(Here()), old(heap), n), Return), v, old(Here()),
                  old(panicMode), old(error))
      decreases n, body, 2
    {
      v := ExecuteBlock(body, {Return}, {}, false, n);
    }

    /** The bindings of the parameter scope, which is the current one. */
    method BindParameters(args: seq<Expr>, closure: Ref, n: nat) returns (stop: bool)
      requires QuietArgs(args, false) && Idle() && current < |heap.scopes|
      modifies this
      ensures Kept(old(lost), old(weak), old(heap))
      ensures stop ==> panicMode
      ensures Did(EvalBinding(args, closure, old(Here()), old(heap), n), P(Null), old(Here()),
                  old(panicMode), old(error))
      decreases n, args, 1
    {
      hide Honest, StoreFacts.AllAnnotated, StoreFacts.Step, Reference.Sound;
      var params := ReadScope(closure, false);
      var count := |params|;
      if count < |args| {
        var v := Error(ParamCount);
        return true;
      }
      SoundQuiet(Here(), heap, EvalArgs(args, 0, closure, false, Here(), heap, n));
      stop := PassArguments(args, closure, n);
      if !stop {
        stop := UseDefaults(closure, count, n);
      }
    }

    /** The argument loop; an argument is evaluated with the earlier ones already bound. */
    method PassArguments(args: seq<Expr>, closure: Ref, n: nat) returns (stop: bool)
      requires QuietArgs(args, false) && Idle()
      modifies this
      ensures Kept(old(lost), old(weak), old(heap))
      ensures stop ==> panicMode
      ensures Did(EvalArgs(args, 0, closure, false, old(Here()), old(heap), n), P(Null), old(Here()),
                  old(panicMode), old(error))
      decreases n, args, 0
    {
      hide Honest, StoreFacts.AllAnnotated, StoreFacts.Step, Reference.Sound;
      ghost var c, h, wasPanic, was := Here(), heap, panicMode, error;
      ghost var total := EvalArgs(args, 0, closure, false, c, h, n);
      assert args[0..] == args;
      var named := false;
      var i := 0;
      while i < |args|
        invariant 0 <= i <= |args| && QuietArgs(args[i..], named)
        invariant Kept(old(lost), old(weak), old(heap))
        invariant wasPanic && !lost ==> panicMode && error == was
        invariant !wasPanic && panicMode && !lost ==> total == Fail(error)
        invariant !panicMode && !lost ==>
                    signal == None && Here() == c && total == EvalArgs(args[i..], i, closure, named, c, heap, n)
      {
        assert args[i..][0] == args[i] && args[i..][1..] == args[i + 1..];
        assert QuietArg(args[i]);
        SoundQuiet(Here(), heap, EvalArg(args[i], i, closure, Here(), heap, n));
        stop := PassArgument(args[i], i, closure, n);
        if stop {
          return;
        }
        named := args[i].Assign?;
        i := i + 1;
      }
      stop := false;
    }

    method PassArgument(a: Expr, i: nat, closure: Ref, n: nat) returns (stop: bool)
      requires QuietArg(a) && Idle()
      modifies this
      ensures Kept(old(lost), old(weak), old(heap))
      ensures stop ==> panicMode
      ensures exists v ::
                Did(EvalArg(a, i, closure, old(Here()), old(heap), n), v, old(Here()), old(panicMode), old(error))
      decreases n, a, 5
    {
      hide SameFlags, Honest, StoreFacts.AllAnnotated, StoreFacts.Step, Reference.Sound;
      FlagsCompose();
      ghost var r, c, p, was := EvalArg(a, i, closure, Here(), heap, n), Here(), panicMode, error;
      var value := if a.Assign? then a.value else a;
      assert Quiet(value);
      NeverAbrupt(value);
      var param := FindParam(a, i, closure);
      if param.None? {
        var v := Error(NoSuchParam);
        assert Did(r, v, c, p, was);
        return true;
      }
      var v := EvalExpr(value, true, n);
      stop := BindParam(param.value.name, param.value.ty, v, n);
      assert Did(r, v, c, p, was);
    }

    /** The callee's binding for an argument: by name, or by position. */
    method FindParam(a: Expr, i: nat, closure: Ref) returns (p: Option<Env>)
      requires QuietArg(a) && Honest()
      modifies this`met, this`lost
      ensures Kept(old(lost), old(weak), old(heap))
      ensures !lost ==> p == ParamFor(a, i, closure, heap)
    {
      hide Honest, StoreFacts.AllAnnotated;
      if a.Assign? {
        var found := ScopeLookup(closure, a.target.name, false);
        return if found then Some(Binding(heap, closure, a.target.name)) else None;
      }
      var params := ReadScope(closure, false);
      p := if i < |params| then Some(params[i]) else None;
    }

    /** The loop over the callee's parameters that fills in what no argument was given for. */
    method UseDefaults(closure: Ref, count: nat, n: nat) returns (stop: bool)
      requires Idle()
      modifies this
      ensures Kept(old(lost), old(weak), old(heap))
      ensures stop ==> panicMode
      ensures Did(FillDefaults(closure, 0, count, old(Here()), old(heap), n), P(Null), old(Here()),
                  old(panicMode), old(error))
    {
      hide Honest, StoreFacts.AllAnnotated, StoreFacts.Annotated, Reference.FillDefaults, FillDefault;
      ghost var c, h, wasPanic, was := Here(), heap, panicMode, error;
      ghost var total := FillDefaults(closure, 0, count, c, h, n);
      var i := 0;
      while i < count
        invariant Kept(old(lost), old(weak), old(heap))
        invariant wasPanic && !lost ==> panicMode && error == was
        invariant !wasPanic && panicMode && !lost ==> total == Fail(error)
        invariant !panicMode && !lost ==>
                    signal == None && Here() == c && total == FillDefaults(closure, i, count, c, heap, n)
        decreases count - i
      {
        FillUnfolds(closure, i, count, Here(), heap, n);
        var params := ReadScope(closure, false);
        if i >= |params| {
          return false;
        }
        stop := UseDefault(params[i], n);
        if stop {
          return;
        }
        i := i + 1;
      }
      FillUnfolds(closure, i, count, Here(), heap, n);
      stop := false;
    }

    method UseDefault(p: Env, n: nat) returns (stop: bool)
      requires Idle()
      modifies this
      ensures Kept(old(lost), old(weak), old(heap))
      ensures stop ==> panicMode
      ensures Did(FillDefault(p, old(Here()), old(heap), n), P(Null), old(Here()), old(panicMode), old(error))
    {
      hide Honest, StoreFacts.AllAnnotated;
      stop := false;
      var given := ScopeLookup(current, p.name, false);
      if !given {
        if p.value == P(Unknown) {
          var v := Error(ParamMissing);
          return true;
        }
        stop := BindParam(p.name, p.ty, p.value, n);
      }
    }

    // -------------------------------------------------------------------------------------------------
    // Top level

    /**
    `snuk_interpreter_exec_item`: run one top-level item. A success or a failure without a pending signal leaves the
    interpreter ready for the next one, with the error flag cleared. A signal that reaches the top level is an error;
    it stays pending, and so does panic mode.
    */
    method ExecTopItem(item: Item, n: nat) returns (v: Value)
      requires WellFormedItem(item) && Idle()
      modifies this
      ensures Intact(old(lost), old(heap)) && Idle()
      ensures !lost ==> (panicMode <==> signal != None)
      ensures old(panicMode) && !lost ==> error == old(error)
      ensures !old(panicMode) && !lost ==>
                match EvalItem(item, old(Here()), old(heap), n)
                case Fail(m) => error == m
                case Abrupt(s, _, k) =>
                  error == SignalNotNone && signal == Some(s) && heap == k && Here() == old(Here())
                case Normal(w, k) => v == w && heap == k && Here() == old(Here()) && signal == None && !panicMode
    {
      hide Honest, StoreFacts.AllAnnotated, StoreFacts.Step;
      v := ExecItem(item, true, n);
      if signal != None {
        v := Error(SignalNotNone);
        return;
      }
      panicMode := false;
    }

    /**
    The loop of the runtime: one item after the other, going on behind a failed one with the store, the current scope
    and the instance it left behind. Where no item fails this is `Run`.
    */
    method RunAll(program: seq<Item>, n: nat) returns (values: seq<Value>)
      requires WellFormedItems(program) && Idle()
      modifies this
      ensures Intact(old(lost), old(heap)) && Idle() && |values| == |program|
      ensures var r := Run(program, old(Here()), old(heap), n);
              !old(panicMode) && !lost && r.Normal? ==> !panicMode && heap == r.h && Here() == old(Here())
    {
      hide Honest, StoreFacts.AllAnnotated, StoreFacts.Step, Reference.Sound;
      ghost var c, h, wasPanic := Here(), heap, panicMode;
      ghost var total := Run(program, c, h, n);
      assert program[0..] == program;
      values := [];
      var i := 0;
      while i < |program|
        invariant 0 <= i == |values| <= |program| && WellFormedItems(program[i..])
        invariant Intact(old(lost), old(heap)) && Idle()
        invariant !wasPanic && !lost && total.Normal? ==>
                    !panicMode && Here() == c && total == Run(program[i..], c, heap, n)
      {
        assert program[i..][0] == program[i] && program[i..][1..] == program[i + 1..];
        var v := ExecTopItem(program[i], n);
        values := values + [v];
        i := i + 1;
      }
    }
  }
}
