/**
Reasoning about conditionals and loops without looking at how they are evaluated: what a loop leaves behind when its
rounds keep a property, and loops as one round followed by a loop.
*/
module LoopRules {
  import opened Wrappers
  import opened Types
  import opened Syntax
  import opened Store
  import opened StoreFacts
  import opened Reference
  import opened Fuel

  type Property = Heap -> bool

  /** What is known of the store after a round: ended or continued, left by `break`, left by `return`. */
  datatype After = After(next: Property, broken: Property, returned: Property)

  /** An outcome of a loop's body and what is known of its store. */
  predicate RoundMeets(r: Res, after: After) {
    match r
    case Fail(_) => true
    case Normal(_, k) => after.next(k)
    case Abrupt(s, _, k) =>
      if s.Continue? then after.next(k) else if s.Break? then after.broken(k) else after.returned(k)
  }

  /** With any fuel. */
  ghost predicate BodyMeets(body: seq<Item>, c: Ctx, h: Heap, after: After)
    requires WellFormedItems(body)
  {
    forall n: nat :: RoundMeets(EvalBlock(body, c, h, n), after)
  }

  /** From a store with the property, the test comes out as `value` and leaves `k`. */
  ghost predicate Tested(test: Option<Expr>, c: Ctx, inv: Property, value: bool, k: Heap)
    requires test.Some? ==> Quiet(test.value)
  {
    exists h: Heap, n: nat ::
      inv(h) && EvalCond(test, c, h, n).Normal? && EvalCond(test, c, h, n).h == k
      && IsTrue(EvalCond(test, c, h, n).v) == value
  }

  /** Every round that follows a true test takes the property to `after`. */
  ghost predicate RoundsMeet(test: Option<Expr>, body: seq<Item>, c: Ctx, inv: Property, after: After)
    requires (test.Some? ==> Quiet(test.value)) && WellFormedItems(body)
  {
    forall k: Heap :: Tested(test, c, inv, true, k) ==> BodyMeets(body, c, k, after)
  }

  /**
  What a loop leaves behind: after a `return` what is known after a `return` in a round, otherwise what is known after
  a `break`, or a store with the property in which the test has come out false.
  */
  ghost predicate LoopMeets(r: Res, test: Option<Expr>, c: Ctx, inv: Property, after: After)
    requires test.Some? ==> Quiet(test.value)
  {
    match r
    case Fail(_) => true
    case Normal(_, k) => after.broken(k) || Tested(test, c, inv, false, k)
    case Abrupt(s, _, k) => s.Return? && after.returned(k)
  }

  // ---------------------------------------------------------------------------------------------------
  // Conditionals

  /** What the else part, or its absence, leads to with any fuel. */
  ghost predicate ElseMeets(els: Option<Expr>, c: Ctx, h: Heap, after: After)
    requires els.Some? ==> (els.value.If? || els.value.Block?) && WellFormed(els.value)
  {
    if els.None? then after.next(h)
    else if els.value.Block? then BodyMeets(els.value.items, c, h, after)
    else forall n: nat :: RoundMeets(Eval(els.value, c, h, n), after)
  }

  /** The first branch starts where the test has come out true, the other one where it has come out false. */
  lemma IfRule(e: Expr, c: Ctx, h: Heap, n: nat, inv: Property, after: After)
    requires e.If? && WellFormed(e) && inv(h)
    requires RoundsMeet(Some(e.cond), e.thenItems, c, inv, after)
    requires forall k: Heap :: Tested(Some(e.cond), c, inv, false, k) ==> ElseMeets(e.els, c, k, after)
    ensures RoundMeets(Eval(e, c, h, n), after)
  {
    hide Sound;
    var t := EvalCond(Some(e.cond), c, h, n);
    SoundQuiet(c, h, t);
    assert t == Eval(e.cond, c, h, n);
    if t.Normal? {
      assert Tested(Some(e.cond), c, inv, IsTrue(t.v), t.h);
      if IsTrue(t.v) {
        assert RoundMeets(EvalBlock(e.thenItems, c, t.h, n), after);
      } else if e.els.Some? {
        assert ElseMeets(e.els, c, t.h, after);
        if e.els.value.Block? {
          assert RoundMeets(EvalBlock(e.els.value.items, c, t.h, n), after);
        } else {
          assert RoundMeets(Eval(e.els.value, c, t.h, n), after);
        }
        assert EvalIf(e, c, h, n) == EvalElse(e.els.value, c, t.h, n);
      }
    }
  }

  // ---------------------------------------------------------------------------------------------------
  // While and do-while

  lemma {:induction false} RoundRule(e: Expr, c: Ctx, h: Heap, n: nat, after: After)
    requires (e.While? || e.DoWhile?) && WellFormed(e) && BodyMeets(e.wbody, c, h, after)
    requires RoundsMeet(Some(e.wcond), e.wbody, c, after.next, after)
    ensures LoopMeets(EvalRound(e, c, h, n), Some(e.wcond), c, after.next, after)
    decreases n
  {
    hide Sound;
    assert RoundMeets(EvalBlock(e.wbody, c, h, n), after);
    var r := Escape(EvalBlock(e.wbody, c, h, n), Continue);
    if r.Normal? {
      var t := EvalCond(Some(e.wcond), c, r.h, n);
      SoundQuiet(c, r.h, t);
      assert t == Eval(e.wcond, c, r.h, n);
      if t.Normal? {
        assert Tested(Some(e.wcond), c, after.next, IsTrue(t.v), t.h);
        if IsTrue(t.v) && n > 0 {
          RoundRule(e, c, t.h, n - 1, after);
        }
      }
    }
  }

  /** A while loop that starts in a store with the property. */
  lemma WhileRule(test: Expr, body: seq<Item>, c: Ctx, h: Heap, n: nat, after: After)
    requires Quiet(test) && WellFormedItems(body) && after.next(h)
    requires RoundsMeet(Some(test), body, c, after.next, after)
    ensures LoopMeets(Eval(While(test, body), c, h, n), Some(test), c, after.next, after)
  {
    hide Sound, EvalRound;
    var t := EvalCond(Some(test), c, h, n);
    SoundQuiet(c, h, t);
    assert t == Eval(test, c, h, n);
    if t.Normal? {
      assert Tested(Some(test), c, after.next, IsTrue(t.v), t.h);
      if IsTrue(t.v) {
        RoundRule(While(test, body), c, t.h, n, after);
      }
    }
  }

  /** A do-while loop: the first round comes without a test. */
  lemma DoWhileRule(test: Expr, body: seq<Item>, c: Ctx, h: Heap, n: nat, after: After)
    requires Quiet(test) && WellFormedItems(body) && BodyMeets(body, c, h, after)
    requires RoundsMeet(Some(test), body, c, after.next, after)
    ensures LoopMeets(Eval(DoWhile(test, body), c, h, n), Some(test), c, after.next, after)
  {
    RoundRule(DoWhile(test, body), c, h, n, after);
  }

  // ---------------------------------------------------------------------------------------------------
  // For

  /** The update takes what is known after a round back to the property. */
  ghost predicate UpdateKeeps(update: Option<Expr>, c: Ctx, before: Property, inv: Property)
    requires update.Some? ==> Quiet(update.value)
  {
    forall h: Heap, n: nat :: before(h) && EvalCond(update, c, h, n).Normal? ==> inv(EvalCond(update, c, h, n).h)
  }

  lemma {:induction false} ForRoundRule(e: Expr, c: Ctx, h: Heap, n: nat, inv: Property, after: After)
    requires e.For? && WellFormed(e) && BodyMeets(e.fbody, c, h, after)
    requires UpdateKeeps(e.update, c, after.next, inv) && RoundsMeet(e.fcond, e.fbody, c, inv, after)
    ensures LoopMeets(EvalForRound(e, c, h, n), e.fcond, c, inv, after)
    decreases n
  {
    hide Sound;
    assert RoundMeets(EvalBlock(e.fbody, c, h, n), after);
    var r := Escape(EvalBlock(e.fbody, c, h, n), Continue);
    if r.Normal? {
      var u := EvalCond(e.update, c, r.h, n);
      SoundQuiet(c, r.h, u);
      if u.Normal? {
        var t := EvalCond(e.fcond, c, u.h, n);
        SoundQuiet(c, u.h, t);
        if t.Normal? {
          assert Tested(e.fcond, c, inv, IsTrue(t.v), t.h);
          if IsTrue(t.v) && n > 0 {
            ForRoundRule(e, c, t.h, n - 1, inv, after);
          }
        }
      }
    }
  }

  /** A for loop runs in a scope of its own; its initializer leaves a store with the property. */
  lemma ForRule(e: Expr, c: Ctx, h: Heap, n: nat, inv: Property, after: After)
    requires e.For? && WellFormed(e)
    requires var d := c.(env := |h.scopes|);
             && (forall m: nat :: EvalInit(e.init, d, Push(h, c.env, false), m).Normal? ==>
                                    inv(EvalInit(e.init, d, Push(h, c.env, false), m).h))
             && UpdateKeeps(e.update, d, after.next, inv) && RoundsMeet(e.fcond, e.fbody, d, inv, after)
    ensures LoopMeets(Eval(e, c, h, n), e.fcond, c.(env := |h.scopes|), inv, after)
  {
    hide Sound, EvalForRound, UpdateKeeps;
    var d := c.(env := |h.scopes|);
    assert Eval(e, c, h, n) == EvalForIn(e, d, Push(h, c.env, false), n);
    var i := EvalInit(e.init, d, Push(h, c.env, false), n);
    SoundQuiet(d, Push(h, c.env, false), i);
    if i.Normal? {
      var t := EvalCond(e.fcond, d, i.h, n);
      SoundQuiet(d, i.h, t);
      if t.Normal? {
        assert Tested(e.fcond, d, inv, IsTrue(t.v), t.h);
        if IsTrue(t.v) {
          ForRoundRule(e, d, t.h, n, inv, after);
        }
      }
    }
  }

  /** Without a condition, a for loop whose rounds never break never ends normally. */
  lemma EndlessFor(e: Expr, c: Ctx, h: Heap, n: nat)
    requires e.For? && WellFormed(e) && e.fcond.None? && Break !in ItemsSignals(e.fbody)
    ensures !Eval(e, c, h, n).Normal?
  {
    var d := c.(env := |h.scopes|);
    var after := After(_ => true, _ => false, _ => true);
    forall k: Heap ensures BodyMeets(e.fbody, d, k, after) {
      forall m: nat ensures RoundMeets(EvalBlock(e.fbody, d, k, m), after) {
        assert Sound(d, k, EvalBlock(e.fbody, d, k, m), ItemsSignals(e.fbody));
      }
    }
    ForRule(e, c, h, n, after.next, after);
  }

  // ---------------------------------------------------------------------------------------------------
  // A loop is a round and a loop

  /** The same outcome but for the value of a normal one. */
  predicate Alike(r: Res, s: Res) {
    if r.Normal? then s.Normal? && s.h == r.h else r == s
  }

  /** `r` has run out of fuel or is like `s`. */
  predicate Upto(r: Res, s: Res) {
    r == Fail(OutOfFuel) || Alike(r, s)
  }

  /** `{ b }` and then `while t { b }`, where `continue` in `b` goes on and `break` ends the whole. */
  function BodyThenWhile(test: Expr, body: seq<Item>, c: Ctx, h: Heap, n: nat): Res
    requires Quiet(test) && WellFormedItems(body)
  {
    var r := EvalBlock(body, c, h, n);
    if r.Normal? || (r.Abrupt? && r.signal.Continue?) then Eval(While(test, body), c, r.h, n)
    else if r.Abrupt? && r.signal.Break? then Normal(r.v, r.h)
    else r
  }

  /** `if t { b; while t { b } }`, without a scope of its own for the branch. */
  function IfThenWhile(test: Expr, body: seq<Item>, c: Ctx, h: Heap, n: nat): Res
    requires Quiet(test) && WellFormedItems(body)
  {
    var (v, k) :- Eval(test, c, h, n);
    if IsTrue(v) then BodyThenWhile(test, body, c, k, n) else Normal(P(Null), k)
  }

  lemma WhileIs(test: Expr, body: seq<Item>, c: Ctx, h: Heap, n: nat)
    requires Quiet(test) && WellFormedItems(body)
    ensures var t := Eval(test, c, h, n);
            Eval(While(test, body), c, h, n) ==
            if !t.Normal? then t
            else if IsTrue(t.v) then EvalRound(While(test, body), c, t.h, n) else Normal(P(Null), t.h)
  {
    hide Sound, EvalRound;
  }

  /** A round, from its body, the test behind that, and what the next rounds do. */
  function Round(body: Res, test: Res, next: Res): Res {
    if body.Normal? || (body.Abrupt? && body.signal.Continue?) then
      if !test.Normal? then test else if IsTrue(test.v) then next else Normal(body.v, test.h)
    else Escape(body, Break)
  }

  /** The test behind a body, if it comes to that. */
  function TestBehind(test: Expr, body: Res, c: Ctx, n: nat): Res
    requires Quiet(test)
  {
    if body.Fail? then body else Eval(test, c, body.h, n)
  }

  function NextRounds(e: Expr, test: Res, c: Ctx, n: nat): Res
    requires (e.While? || e.DoWhile?) && WellFormed(e)
  {
    if n == 0 then Fail(OutOfFuel) else if test.Normal? then EvalRound(e, c, test.h, n - 1) else test
  }

  lemma RoundIs(e: Expr, test: Expr, body: seq<Item>, c: Ctx, h: Heap, n: nat)
    requires Quiet(test) && WellFormedItems(body) && (e == While(test, body) || e == DoWhile(test, body))
    ensures WellFormed(e)
    ensures var b := EvalBlock(body, c, h, n);
            var t := TestBehind(test, b, c, n);
            EvalRound(e, c, h, n) == Round(b, t, NextRounds(e, t, c, n))
  {
    hide Sound;
  }

  lemma {:induction false} SameRounds(test: Expr, body: seq<Item>, c: Ctx, h: Heap, n: nat)
    requires Quiet(test) && WellFormedItems(body)
    ensures EvalRound(DoWhile(test, body), c, h, n) == EvalRound(While(test, body), c, h, n)
    decreases n
  {
    RoundIs(DoWhile(test, body), test, body, c, h, n);
    RoundIs(While(test, body), test, body, c, h, n);
    hide Sound, EvalRound, EvalBlock, TestBehind, WellFormed, Quiet, WellFormedItems;
    var t := TestBehind(test, EvalBlock(body, c, h, n), c, n);
    if t.Normal? && n > 0 {
      SameRounds(test, body, c, t.h, n - 1);
    }
  }

  /** A body and the loop behind it are like a round with as much fuel for the next rounds as for this one. */
  lemma BodyThenWhileIs(test: Expr, body: seq<Item>, c: Ctx, h: Heap, n: nat)
    requires Quiet(test) && WellFormedItems(body)
    ensures var b := EvalBlock(body, c, h, n);
            var t := TestBehind(test, b, c, n);
            Alike(BodyThenWhile(test, body, c, h, n), Round(b, t, NextRounds(While(test, body), t, c, n + 1)))
  {
    var b := EvalBlock(body, c, h, n);
    if !b.Fail? {
      WhileIs(test, body, c, b.h, n);
    }
    assert WellFormed(While(test, body));
    hide Sound, EvalRound, EvalBlock, Eval, WellFormed, Quiet, WellFormedItems;
  }

  lemma MoreRounds(b: Res, t: Res, x: Res, d: Res, u: Res, y: Res)
    requires More(b, d) && (b == d ==> More(t, u)) && (b == d && t == u ==> More(x, y))
    ensures More(Round(b, t, x), Round(d, u, y))
  {
  }

  lemma NextMore(e: Expr, t: Res, c: Ctx, n: nat)
    requires (e.While? || e.DoWhile?) && WellFormed(e)
    ensures More(NextRounds(e, t, c, n), NextRounds(e, t, c, n + 1))
  {
    hide Sound, EvalRound;
    if t.Normal? && n > 0 {
      RoundMore(e, c, t.h, n - 1, n);
    }
  }

  lemma BodyAndTestMore(test: Expr, body: seq<Item>, c: Ctx, h: Heap, n: nat)
    requires Quiet(test) && WellFormedItems(body)
    ensures var b, d := EvalBlock(body, c, h, n), EvalBlock(body, c, h, n + 1);
            More(b, d) && (b == d ==> More(TestBehind(test, b, c, n), TestBehind(test, d, c, n + 1)))
  {
    BlockMore(body, c, h, n, n + 1);
    var b := EvalBlock(body, c, h, n);
    if !b.Fail? {
      EvalMore(test, c, b.h, n, n + 1);
    }
    hide Sound, EvalBlock, Eval, WellFormed, Quiet, WellFormedItems;
  }

  lemma LoopIsWellFormed(test: Expr, body: seq<Item>)
    requires Quiet(test) && WellFormedItems(body)
    ensures WellFormed(While(test, body))
  {
  }

  /** A round and what follows it, with one unit of fuel more or less. */
  lemma RoundUnfolds(test: Expr, body: seq<Item>, c: Ctx, h: Heap, n: nat)
    requires Quiet(test) && WellFormedItems(body)
    ensures Upto(EvalRound(While(test, body), c, h, n), BodyThenWhile(test, body, c, h, n))
    ensures Upto(BodyThenWhile(test, body, c, h, n), EvalRound(While(test, body), c, h, n + 1))
  {
    LoopIsWellFormed(test, body);
    hide Sound, EvalRound, EvalBlock, Eval, WellFormed, Quiet, WellFormedItems, BodyThenWhile, NextRounds, Round,
      TestBehind;
    var loop := While(test, body);
    var b, d := EvalBlock(body, c, h, n), EvalBlock(body, c, h, n + 1);
    var t, u := TestBehind(test, b, c, n), TestBehind(test, d, c, n + 1);
    RoundIs(loop, test, body, c, h, n);
    RoundIs(loop, test, body, c, h, n + 1);
    BodyThenWhileIs(test, body, c, h, n);
    BodyAndTestMore(test, body, c, h, n);
    NextMore(loop, t, c, n);
    MoreRounds(b, t, NextRounds(loop, t, c, n), b, t, NextRounds(loop, t, c, n + 1));
    MoreRounds(b, t, NextRounds(loop, t, c, n + 1), d, u, NextRounds(loop, u, c, n + 1));
  }

  /** `do { b } while t` is `{ b }` and then `while t { b }`. */
  lemma DoIsBodyThenWhile(test: Expr, body: seq<Item>, c: Ctx, h: Heap, n: nat)
    requires Quiet(test) && WellFormedItems(body)
    ensures Upto(Eval(DoWhile(test, body), c, h, n), BodyThenWhile(test, body, c, h, n))
    ensures Upto(BodyThenWhile(test, body, c, h, n), Eval(DoWhile(test, body), c, h, n + 1))
  {
    hide Sound, EvalRound, BodyThenWhile, Upto;
    SameRounds(test, body, c, h, n);
    SameRounds(test, body, c, h, n + 1);
    RoundUnfolds(test, body, c, h, n);
  }

  /** `while t { b }` is `if t { b; while t { b } }`. */
  lemma WhileUnfolds(test: Expr, body: seq<Item>, c: Ctx, h: Heap, n: nat)
    requires Quiet(test) && WellFormedItems(body)
    ensures Upto(Eval(While(test, body), c, h, n), IfThenWhile(test, body, c, h, n))
    ensures Upto(IfThenWhile(test, body, c, h, n), Eval(While(test, body), c, h, n + 1))
  {
    WhileIs(test, body, c, h, n);
    WhileIs(test, body, c, h, n + 1);
    EvalMore(test, c, h, n, n + 1);
    hide Sound, EvalRound, Eval, BodyThenWhile, WellFormed, Quiet, WellFormedItems;
    var t := Eval(test, c, h, n);
    if t.Normal? {
      RoundUnfolds(test, body, c, t.h, n);
    }
  }
}
