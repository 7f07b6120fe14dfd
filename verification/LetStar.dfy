/**
Arguments are evaluated one after the other inside the half-filled parameter scope. This is the same as evaluating
them all in the caller's scope as long as none of them mentions a parameter bound before it.
*/
module LetStar {
  import opened Wrappers
  import opened Types
  import opened Syntax
  import opened Store
  import opened StoreFacts
  import opened Reference
  import opened CallBinding

  /** Literals, names and operators. */
  predicate Operator(e: Expr) {
    match e
    case Lit(_) => true
    case Ident(_) => true
    case Unary(_, a) => Operator(a)
    case Binary(_, l, r) => Operator(l) && Operator(r)
    case _ => false
  }

  function FreeNames(e: Expr): set<string> {
    match e
    case Ident(x) => {x}
    case Unary(_, a) => FreeNames(a)
    case Binary(_, l, r) => FreeNames(l) + FreeNames(r)
    case _ => {}
  }

  /** The value of an operator expression depends only on the values of its free names, and nothing is changed. */
  lemma {:induction false} Coincidence(e: Expr, c: Ctx, h: Heap, d: Ctx, k: Heap, n: nat)
    requires Operator(e) && WellFormed(e) && c.ops == d.ops
    requires forall x :: x in FreeNames(e) ==> Get(c, h, x) == Get(d, k, x)
    ensures Eval(e, c, h, n).Normal? && Eval(e, c, h, n).h == h
    ensures Eval(e, d, k, n).Normal? && Eval(e, d, k, n).h == k
    ensures Eval(e, c, h, n).v == Eval(e, d, k, n).v
  {
    hide Step, Get;
    match e
    case Lit(_) =>
    case Ident(x) => assert x in FreeNames(e);
    case Unary(_, a) =>
      assert Quiet(a);
      Coincidence(a, c, h, d, k, n);
    case Binary(_, l, r) =>
      assert Quiet(l) && Quiet(r);
      Coincidence(l, c, h, d, k, n);
      Coincidence(r, c, h, d, k, n);
  }

  /** `h` with one more scope on top, a child of `parent`. */
  function Topped(h: Heap, parent: Ref, vars: seq<Env>): Heap {
    h.(scopes := h.scopes + [Scope(vars, Some(parent), false)])
  }

  lemma {:induction false} FindUpBelow(h: Heap, parent: Ref, vars: seq<Env>, r: Ref, name: string)
    requires r < |h.scopes|
    ensures FindUp(Topped(h, parent, vars), r, name) == FindUp(h, r, name)
    ensures var at := FindUp(h, r, name);
            at.Some? ==>
              at.value < |h.scopes| && Binding(Topped(h, parent, vars), at.value, name) == Binding(h, at.value, name)
    decreases r
  {
    var s := h.scopes[r];
    assert Topped(h, parent, vars).scopes[r] == s;
    if !Has(h, r, name) && s.parent.Some? && s.parent.value < r {
      FindUpBelow(h, parent, vars, s.parent.value, name);
    }
  }

  /** From the parameter scope a name that is not bound there means what it means to the caller. */
  lemma SeenThrough(c: Ctx, h: Heap, vars: seq<Env>, name: string)
    requires c.inst == None && c.env < |h.scopes| && name !in Names(vars)
    ensures Get(c.(env := |h.scopes|), Topped(h, c.env, vars), name) == Get(c, h, name)
  {
    var k := Topped(h, c.env, vars);
    FindUpBelow(h, c.env, vars, c.env, name);
    assert k.scopes[|h.scopes|].vars == vars;
    assert forall j :: 0 <= j < |vars| ==> vars[j].name in Names(vars);
  }

  /**
  The arguments, all evaluated in the caller's scope `c` and store `h`, and then bound one after the other in the
  parameter scope on top of it, which starts with `vars`.
  */
  function Simultaneous(args: seq<Expr>, i: nat, f: Ref, c: Ctx, h: Heap, vars: seq<Env>, n: nat): Res
    requires forall j :: 0 <= j < |args| ==> QuietArg(args[j]) && WellFormed(ValueOf(args[j]))
  {
    if args == [] then Normal(P(Null), Topped(h, c.env, vars))
    else
      match ParamFor(args[0], i, f, h)
      case None => Fail(NoSuchParam)
      case Some(p) =>
        var (v, _) :- Eval(ValueOf(args[0]), c, h, n);
        match Create(c.(env := |h.scopes|), Topped(h, c.env, vars), p.name, p.ty, v, n)
        case Starved => Fail(OutOfFuel)
        case Refused => Fail(ParamFailed)
        case Written(_) => Simultaneous(args[1..], i + 1, f, c, h, vars + [Env(p.name, p.ty, v)], n)
  }

  /** No argument mentions a parameter that `bound` or an earlier argument has bound. */
  predicate Independent(args: seq<Expr>, i: nat, params: seq<Env>, bound: set<string>) {
    args != [] && ParamIndex(args[0], i, params) < |params| ==>
      && FreeNames(ValueOf(args[0])) !! bound
      && Independent(args[1..], i + 1, params, bound + {params[ParamIndex(args[0], i, params)].name})
  }

  lemma {:induction false} ArgsWellFormed(args: seq<Expr>, named: bool)
    requires QuietArgs(args, named)
    ensures forall j :: 0 <= j < |args| ==> QuietArg(args[j]) && WellFormed(ValueOf(args[j]))
  {
    if args != [] {
      assert QuietArg(args[0]);
      assert Quiet(ValueOf(args[0]));
      ArgsWellFormed(args[1..], args[0].Assign?);
      forall j | 0 <= j < |args| ensures QuietArg(args[j]) && WellFormed(ValueOf(args[j])) {
        assert j > 0 ==> args[1..][j - 1] == args[j];
      }
    }
  }

  /** Sequential evaluation of independent operator arguments is simultaneous evaluation, failures included. */
  lemma {:induction false} SequentialIsSimultaneous(args: seq<Expr>, i: nat, f: Ref, named: bool,
                                                    c: Ctx, h: Heap, vars: seq<Env>, n: nat)
    requires QuietArgs(args, named) && forall j :: 0 <= j < |args| ==> Operator(ValueOf(args[j]))
    requires c.inst == None && c.env < |h.scopes| && f < |h.scopes|
    requires Independent(args, i, h.scopes[f].vars, Names(vars))
    ensures forall j :: 0 <= j < |args| ==> QuietArg(args[j]) && WellFormed(ValueOf(args[j]))
    ensures EvalArgs(args, i, f, named, c.(env := |h.scopes|), Topped(h, c.env, vars), n) ==
            Simultaneous(args, i, f, c, h, vars, n)
    decreases args
  {
    hide Step, Sound, Operator, Get, Eval, EvalArg;
    ArgsWellFormed(args, named);
    if args != [] {
      forall j | 0 <= j < |args| - 1 ensures Operator(ValueOf(args[1..][j])) {
        assert args[1..][j] == args[j + 1];
      }
      OneArgument(args[0], i, f, c, h, vars, n);
      var p := ParamFor(args[0], i, f, h);
      var first := EvalArg(args[0], i, f, c.(env := |h.scopes|), Topped(h, c.env, vars), n);
      if first.Normal? {
        var b := Env(p.value.name, p.value.ty, Eval(ValueOf(args[0]), c, h, n).v);
        ParamHasIndex(args[0], i, f, h);
        NamesSnoc(vars, b);
        SequentialIsSimultaneous(args[1..], i + 1, f, args[0].Assign?, c, h, vars + [b], n);
      }
    }
  }

  lemma ParamHasIndex(a: Expr, i: nat, f: Ref, h: Heap)
    requires QuietArg(a) && f < |h.scopes|
    ensures ParamFor(a, i, f, h).Some? <==> ParamIndex(a, i, h.scopes[f].vars) < |h.scopes[f].vars|
    ensures ParamFor(a, i, f, h).Some? ==>
              ParamFor(a, i, f, h).value == h.scopes[f].vars[ParamIndex(a, i, h.scopes[f].vars)]
  {
  }

  lemma NamesSnoc(vars: seq<Env>, b: Env)
    ensures Names(vars + [b]) == Names(vars) + {b.name}
  {
    forall j | 0 <= j < |vars| ensures vars[j].name in Names(vars + [b]) {
      assert (vars + [b])[j] == vars[j];
    }
    assert (vars + [b])[|vars|] == b;
  }

  /** One argument: its value is the caller's, and binding it in the parameter scope decides whether it succeeds. */
  lemma OneArgument(a: Expr, i: nat, f: Ref, c: Ctx, h: Heap, vars: seq<Env>, n: nat)
    requires QuietArg(a) && Operator(ValueOf(a)) && WellFormed(ValueOf(a))
    requires c.inst == None && c.env < |h.scopes| && f < |h.scopes|
    requires ParamIndex(a, i, h.scopes[f].vars) < |h.scopes[f].vars| ==> FreeNames(ValueOf(a)) !! Names(vars)
    ensures Eval(ValueOf(a), c, h, n).Normal?
    ensures var d, k, p := c.(env := |h.scopes|), Topped(h, c.env, vars), ParamFor(a, i, f, h);
            var r := EvalArg(a, i, f, d, k, n);
            if p.None? then r == Fail(NoSuchParam)
            else
              var v := Eval(ValueOf(a), c, h, n).v;
              && r == Stored(Create(d, k, p.value.name, p.value.ty, v, n), v, ParamFailed)
              && (r.Normal? ==> r.h == Topped(h, c.env, vars + [Env(p.value.name, p.value.ty, v)]))
  {
    hide Step, Sound;
    var d, k, e := c.(env := |h.scopes|), Topped(h, c.env, vars), ValueOf(a);
    assert Quiet(e);
    assert k.scopes[f] == h.scopes[f];
    ParamHasIndex(a, i, f, h);
    Coincidence(e, c, h, c, h, n);
    var p := ParamFor(a, i, f, h);
    if p.Some? {
      forall x | x in FreeNames(e) ensures Get(d, k, x) == Get(c, h, x) {
        SeenThrough(c, h, vars, x);
      }
      Coincidence(e, c, h, d, k, n);
      var b := Env(p.value.name, p.value.ty, Eval(e, c, h, n).v);
      assert AddVar(k, |h.scopes|, b).scopes == Topped(h, c.env, vars + [b]).scopes;
    }
  }

  /** The condition matters: with `a` bound by the first argument, the second one no longer sees the caller's `a`. */
  lemma EarlierArgumentIsSeen(ops: Ops, n: nat)
    ensures var x, y := Env("a", TAny, P(Int(5))), Env("b", TAny, P(Unknown));
            var h := Heap([Scope([x], None, false), Scope([x, y], Some(0), false)], [], 0);
            var c := Ctx(0, None, ops);
            var args := [Lit(Int(1)), Ident("a")];
            && QuietArgs(args, false)
            && Eval(args[1], c, h, n) == Normal(P(Int(5)), h)
            && EvalArg(args[1], 1, 1, c.(env := 2), Topped(h, 0, [x.(value := P(Int(1)))]), n).Normal?
            && EvalArg(args[1], 1, 1, c.(env := 2), Topped(h, 0, [x.(value := P(Int(1)))]), n).v == P(Int(1))
  {
    var x, y := Env("a", TAny, P(Int(5))), Env("b", TAny, P(Unknown));
    var h := Heap([Scope([x], None, false), Scope([x, y], Some(0), false)], [], 0);
    var args := [Lit(Int(1)), Ident("a")];
    assert Quiet(args[0]) && Quiet(args[1]);
    assert args[1..] == [Ident("a")] && args[1..][1..] == [];
    assert Find(h.scopes[0].vars, "a") == 0;
    assert FindUp(h, 0, "a") == Some(0);
    var one := x.(value := P(Int(1)));
    var k := Topped(h, 0, [one]);
    assert k.scopes[2].vars == [one] && Find([one], "a") == 0;
    assert FindUp(k, 2, "a") == Some(2);
    assert "b" != "a";
    assert Find([one], "b") == 1;
  }
}
