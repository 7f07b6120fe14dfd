/**
What a successful call binds: exactly the callee's parameters, each once, to the value of its argument or to its
default.
*/
module CallBinding {
  import opened Wrappers
  import opened Types
  import opened Syntax
  import opened Store
  import opened StoreFacts
  import opened Reference
  import opened Scoping

  predicate SameParam(a: Env, b: Env) {
    a.name == b.name && a.ty == b.ty
  }

  /** Same names and annotations in the same order; the values may differ. */
  predicate SameSignature(a: seq<Env>, b: seq<Env>) {
    |a| == |b| && forall j :: 0 <= j < |a| ==> SameParam(a[j], b[j])
  }

  /** `bound` holds one binding for each argument, made for the argument's parameter. */
  predicate Matches(args: seq<Expr>, i: nat, params: seq<Env>, bound: seq<Env>) {
    && |args| <= |bound|
    && forall j :: 0 <= j < |args| ==>
         ParamIndex(args[j], i + j, params) < |params|
         && SameParam(params[ParamIndex(args[j], i + j, params)], bound[j])
  }

  function ValueOf(a: Expr): Expr {
    if a.Assign? then a.value else a
  }

  /** What the argument evaluates to in the store `h`. */
  function ValueIn(a: Expr, c: Ctx, h: Heap, n: nat): Value
    requires QuietArg(a)
  {
    assert Quiet(ValueOf(a));
    var r := Eval(ValueOf(a), c, h, n);
    if r.Normal? then r.v else P(Unknown)
  }

  predicate DeclareNothing(args: seq<Expr>) {
    forall j :: 0 <= j < |args| ==> !Declares(ValueOf(args[j]))
  }

  /** The parameter an argument is for. */
  function ParamIndex(a: Expr, i: nat, params: seq<Env>): nat {
    if a.Assign? && a.target.Ident? then Find(params, a.target.name) else i
  }

  /** A plain closure scope `f` and a plain parameter scope `c.env` of a good store. */
  predicate Calling(f: Ref, c: Ctx, h: Heap) {
    && Good(h) && CtxGood(c, h) && f < |h.scopes| && f != c.env
    && !h.scopes[f].ofObject && !h.scopes[c.env].ofObject
  }

  lemma {:induction false} FindSame(a: seq<Env>, b: seq<Env>, name: string)
    requires SameSignature(a, b)
    ensures Find(a, name) == Find(b, name)
  {
    if a != [] && a[0].name != name {
      FindSame(a[1..], b[1..], name);
    }
  }

  lemma SignaturesKept(f: Ref, c: Ctx, h: Heap, r: Res)
    requires Calling(f, c, h) && Local(h, r) && Sound(c, h, r, {}) && r.Normal?
    ensures Calling(f, c, r.h)
    ensures SameSignature(Vars(h, f), Vars(r.h, f)) && SameSignature(Vars(h, c.env), Vars(r.h, c.env))
  {
    assert ScopeGrows(h.scopes[f], r.h.scopes[f]) && ScopeGrows(h.scopes[c.env], r.h.scopes[c.env]);
  }

  /** One argument adds one binding, with the name and annotation of its parameter and the value of the argument. */
  lemma ArgumentBinds(a: Expr, i: nat, f: Ref, c: Ctx, h: Heap, n: nat)
    requires QuietArg(a) && !Declares(ValueOf(a)) && Calling(f, c, h)
    requires EvalArg(a, i, f, c, h, n).Normal?
    ensures var k := EvalArg(a, i, f, c, h, n).h;
            var q, old_ := ParamIndex(a, i, Vars(h, f)), |Vars(h, c.env)|;
            && Calling(f, c, k) && SameSignature(Vars(h, f), Vars(k, f)) && q < |Vars(h, f)|
            && |Vars(k, c.env)| == old_ + 1 && SameSignature(Vars(h, c.env), Vars(k, c.env)[..old_])
            && SameParam(Vars(h, f)[q], Vars(k, c.env)[old_])
            && Vars(k, c.env)[old_].value == ValueIn(a, c, h, n)
  {
    var e := ValueOf(a);
    assert Quiet(e);
    ExpressionLocal(e, c, h, n);
    var r := Eval(e, c, h, n);
    SoundQuiet(c, h, r);
    SignaturesKept(f, c, h, r);
    var p := ParamFor(a, i, f, h).value;
    CreateOk(c, r.h, p.name, p.ty, r.v, n);
  }

  lemma {:induction false} ArgumentsBind(args: seq<Expr>, i: nat, f: Ref, named: bool, c: Ctx, h: Heap, n: nat)
    requires QuietArgs(args, named) && DeclareNothing(args) && Calling(f, c, h)
    requires EvalArgs(args, i, f, named, c, h, n).Normal?
    ensures var k := EvalArgs(args, i, f, named, c, h, n).h;
            var old_ := |Vars(h, c.env)|;
            && Calling(f, c, k) && SameSignature(Vars(h, f), Vars(k, f))
            && |Vars(k, c.env)| == old_ + |args| && SameSignature(Vars(h, c.env), Vars(k, c.env)[..old_])
            && Matches(args, i, Vars(h, f), Vars(k, c.env)[old_..])
    decreases args
  {
    hide Calling, Step, Eval, EvalArg;
    if args == [] {
      assert Vars(h, c.env)[..|Vars(h, c.env)|] == Vars(h, c.env);
    } else {
      assert QuietArg(args[0]) && !Declares(ValueOf(args[0]));
      ArgumentBinds(args[0], i, f, c, h, n);
      var l := EvalArg(args[0], i, f, c, h, n).h;
      assert forall j :: 0 <= j < |args| - 1 ==> args[1..][j] == args[j + 1];
      ArgumentsBind(args[1..], i + 1, f, args[0].Assign?, c, l, n);
      var k := EvalArgs(args, i, f, named, c, h, n).h;
      MatchesOneMore(args, i, Vars(h, f), Vars(l, f), Vars(h, c.env), Vars(l, c.env), Vars(k, c.env));
    }
  }

  // ---------------------------------------------------------------------------------------------------
  // Values

  /** The store in which argument `j` is evaluated: the earlier ones are bound. */
  function StoreBefore(args: seq<Expr>, i: nat, f: Ref, named: bool, c: Ctx, h: Heap, n: nat, j: nat): Heap
    requires QuietArgs(args, named) && j <= |args|
  {
    if j == 0 then h
    else
      assert QuietArg(args[0]);
      var r := EvalArg(args[0], i, f, c, h, n);
      if r.Fail? then h else StoreBefore(args[1..], i + 1, f, args[0].Assign?, c, r.h, n, j - 1)
  }

  lemma {:induction false} EachIsQuiet(args: seq<Expr>, named: bool, j: nat)
    requires QuietArgs(args, named) && j < |args|
    ensures QuietArg(args[j])
  {
    if j > 0 {
      EachIsQuiet(args[1..], args[0].Assign?, j - 1);
    }
  }

  /** The value of argument `j` at the moment it is bound. */
  function ArgumentValue(args: seq<Expr>, i: nat, f: Ref, named: bool, c: Ctx, h: Heap, n: nat, j: nat): Value
    requires QuietArgs(args, named) && j < |args|
  {
    EachIsQuiet(args, named, j);
    ValueIn(args[j], c, StoreBefore(args, i, f, named, c, h, n, j), n)
  }

  /** An expression that cannot change an existing binding: no assignment, call, block, loop or declaration in it. */
  predicate WriteFree(e: Expr) {
    match e
    case Lit(_) => true
    case Inert => true
    case Ident(_) => true
    case Self => true
    case Unary(_, a) => WriteFree(a)
    case Binary(_, l, r) => WriteFree(l) && WriteFree(r)
    case Member(owner, _) => WriteFree(owner)
    case FnExpr(params, _, name, _) =>
      name == "" && forall p :: p in params && p.default.Some? ==> WriteFree(p.default.value)
    case _ => false
  }

  /** Every scope that exists in `h` is the same in `k`. */
  predicate Untouched(h: Heap, k: Heap) {
    |h.scopes| <= |k.scopes| && forall i :: 0 <= i < |h.scopes| ==> k.scopes[i] == h.scopes[i]
  }

  lemma {:induction false} WriteFreeTouchesNothing(e: Expr, c: Ctx, h: Heap, n: nat)
    requires WellFormed(e) && WriteFree(e) && Eval(e, c, h, n).Normal?
    ensures Untouched(h, Eval(e, c, h, n).h)
    decreases e, 1
  {
    hide Step, Sound;
    match e {
      case Unary(_, a) =>
        assert Quiet(a);
        WriteFreeTouchesNothing(a, c, h, n);
      case Binary(_, l, r) =>
        assert Quiet(l) && Quiet(r);
        WriteFreeTouchesNothing(l, c, h, n);
        var k := Eval(l, c, h, n).h;
        if Eval(r, c, k, n).Normal? {
          WriteFreeTouchesNothing(r, c, k, n);
        }
      case Member(owner, _) =>
        assert Quiet(owner);
        WriteFreeTouchesNothing(owner, c, h, n);
        var r := Eval(owner, c, h, n);
        BoxTouchesNothing(r.v, c, r.h, n);
      case FnExpr(params, _, _, _) =>
        ParamsTouchNothing(params, c.(env := |h.scopes|), |h.scopes|, Push(h, c.env, false), n);
      case _ =>
    }
  }

  /** Boxing works in the new instance's scope alone. */
  lemma BoxTouchesNothing(v: Value, c: Ctx, h: Heap, n: nat)
    requires Boxed(v, c, h, n).Normal?
    ensures Untouched(h, Boxed(v, c, h, n).h)
  {
    hide Step;
  }

  /** Parameters are declared in scope `r` alone, and their defaults touch nothing. */
  lemma {:induction false} ParamsTouchNothing(params: seq<Param>, c: Ctx, r: Ref, h: Heap, n: nat)
    requires QuietParams(params) && c.env == r < |h.scopes|
    requires forall p :: p in params && p.default.Some? ==> WriteFree(p.default.value)
    requires EvalParams(params, c, h, n).Normal?
    ensures var k := EvalParams(params, c, h, n).h;
            |h.scopes| <= |k.scopes| && forall i :: 0 <= i < |h.scopes| && i != r ==> k.scopes[i] == h.scopes[i]
    decreases params, 0
  {
    hide Step, Sound;
    if params != [] {
      var p := params[0];
      if p.default.Some? {
        WriteFreeTouchesNothing(p.default.value, c, h, n);
      }
      var v := EvalDefault(p, c, h, n);
      var u := Create(c, v.h, p.name, p.ty, v.v, n);
      ParamsTouchNothing(params[1..], c, r, u.h, n);
    }
  }

  /** Arguments that cannot write leave what was bound before them alone. */
  lemma {:induction false} LaterArgumentsKeep(args: seq<Expr>, i: nat, f: Ref, named: bool, c: Ctx, h: Heap, n: nat)
    requires QuietArgs(args, named) && c.env < |h.scopes|
    requires forall j :: 0 <= j < |args| ==> WriteFree(ValueOf(args[j]))
    requires EvalArgs(args, i, f, named, c, h, n).Normal?
    ensures Vars(h, c.env) <= Vars(EvalArgs(args, i, f, named, c, h, n).h, c.env)
    decreases args
  {
    hide Step, Sound, WriteFree, EvalArg;
    if args != [] {
      assert QuietArg(args[0]);
      var first := EvalArg(args[0], i, f, c, h, n);
      WriteFreeArgument(args[0], i, f, c, h, n);
      forall j | 0 <= j < |args| - 1 ensures WriteFree(ValueOf(args[1..][j])) {
        assert args[1..][j] == args[j + 1];
      }
      LaterArgumentsKeep(args[1..], i + 1, f, args[0].Assign?, c, first.h, n);
    }
  }

  lemma WriteFreeArgument(a: Expr, i: nat, f: Ref, c: Ctx, h: Heap, n: nat)
    requires QuietArg(a) && WriteFree(ValueOf(a)) && c.env < |h.scopes| && EvalArg(a, i, f, c, h, n).Normal?
    ensures var k := EvalArg(a, i, f, c, h, n).h;
            c.env < |k.scopes| && Vars(h, c.env) <= Vars(k, c.env)
  {
    hide Step, Sound, WriteFree;
    var e := ValueOf(a);
    assert Quiet(e);
    WriteFreeTouchesNothing(e, c, h, n);
  }

  /**
  An argument is bound to its value in the store that the earlier arguments left. It keeps that value unless a later
  argument assigns it, which none does that cannot write.
  */
  lemma {:induction false} ArgumentHasValue(
    args: seq<Expr>, i: nat, f: Ref, named: bool, c: Ctx, h: Heap, n: nat, j: nat)
    requires QuietArgs(args, named) && DeclareNothing(args) && Calling(f, c, h)
    requires EvalArgs(args, i, f, named, c, h, n).Normal?
    requires j < |args| && forall m :: j < m < |args| ==> WriteFree(ValueOf(args[m]))
    ensures var k := EvalArgs(args, i, f, named, c, h, n).h;
            && |Vars(k, c.env)| == |Vars(h, c.env)| + |args|
            && Vars(k, c.env)[|Vars(h, c.env)| + j].value == ArgumentValue(args, i, f, named, c, h, n, j)
    decreases args
  {
    hide Calling, Step, Eval, EvalArg, WriteFree, ValueIn, Sound, Matches, SameSignature, SameParam, ParamIndex,
      Declares, StoreBefore, ArgumentValue;
    ArgumentsBind(args, i, f, named, c, h, n);
    assert QuietArg(args[0]) && !Declares(ValueOf(args[0]));
    ArgumentBinds(args[0], i, f, c, h, n);
    var l := EvalArg(args[0], i, f, c, h, n).h;
    assert forall m :: 0 <= m < |args| - 1 ==> args[1..][m] == args[m + 1];
    if j == 0 {
      FirstArgumentHasValue(args, i, f, named, c, h, n);
    } else {
      ArgumentHasValue(args[1..], i + 1, f, args[0].Assign?, c, l, n, j - 1);
      ValueShifts(args, i, f, named, c, h, n, j);
    }
  }

  lemma FirstArgumentHasValue(args: seq<Expr>, i: nat, f: Ref, named: bool, c: Ctx, h: Heap, n: nat)
    requires QuietArgs(args, named) && args != [] && !Declares(ValueOf(args[0])) && Calling(f, c, h)
    requires EvalArgs(args, i, f, named, c, h, n).Normal?
    requires forall m :: 0 < m < |args| ==> WriteFree(ValueOf(args[m]))
    ensures var k := EvalArgs(args, i, f, named, c, h, n).h;
            && |Vars(h, c.env)| < |Vars(k, c.env)|
            && Vars(k, c.env)[|Vars(h, c.env)|].value == ArgumentValue(args, i, f, named, c, h, n, 0)
  {
    hide Calling, Step, Eval, EvalArg, WriteFree, ValueIn;
    assert QuietArg(args[0]);
    ArgumentBinds(args[0], i, f, c, h, n);
    var l := EvalArg(args[0], i, f, c, h, n).h;
    forall m | 0 <= m < |args| - 1 ensures WriteFree(ValueOf(args[1..][m])) {
      assert args[1..][m] == args[m + 1];
    }
    EnvInRange(f, c, l);
    LaterArgumentsKeep(args[1..], i + 1, f, args[0].Assign?, c, l, n);
  }

  lemma EnvInRange(f: Ref, c: Ctx, h: Heap)
    requires Calling(f, c, h)
    ensures c.env < |h.scopes|
  {
  }

  lemma ValueShifts(args: seq<Expr>, i: nat, f: Ref, named: bool, c: Ctx, h: Heap, n: nat, j: nat)
    requires QuietArgs(args, named) && 0 < j < |args| && QuietArg(args[0])
    requires EvalArg(args[0], i, f, c, h, n).Normal?
    ensures ArgumentValue(args, i, f, named, c, h, n, j) ==
            ArgumentValue(args[1..], i + 1, f, args[0].Assign?, c, EvalArg(args[0], i, f, c, h, n).h, n, j - 1)
  {
    hide EvalArg, ValueIn, QuietArg;
    assert args[1..][j - 1] == args[j];
  }

  lemma MatchesOneMore(args: seq<Expr>, i: nat, params: seq<Env>, later: seq<Env>,
                       x: seq<Env>, y: seq<Env>, z: seq<Env>)
    requires args != [] && SameSignature(params, later) && |x| < |y| == |x| + 1 <= |z|
    requires ParamIndex(args[0], i, params) < |params| && SameParam(params[ParamIndex(args[0], i, params)], y[|x|])
    requires SameSignature(x, y[..|x|]) && SameSignature(y, z[..|y|])
    requires Matches(args[1..], i + 1, later, z[|y|..])
    ensures SameSignature(x, z[..|x|]) && Matches(args, i, params, z[|x|..])
  {
    forall j | 0 <= j < |args|
      ensures ParamIndex(args[j], i + j, params) < |params|
      ensures SameParam(params[ParamIndex(args[j], i + j, params)], z[|x|..][j])
    {
      if args[j].Assign? && args[j].target.Ident? {
        FindSame(params, later, args[j].target.name);
      }
      if j == 0 {
        assert SameParam(y[|x|], z[..|y|][|x|]);
      } else {
        assert args[1..][j - 1] == args[j] && z[|y|..][j - 1] == z[|x|..][j];
        var q := ParamIndex(args[1..][j - 1], i + 1 + (j - 1), later);
        assert q == ParamIndex(args[j], i + j, params) && SameParam(params[q], later[q]);
      }
    }
    forall j | 0 <= j < |x| ensures SameParam(x[j], z[..|x|][j]) {
      assert SameParam(x[j], y[..|x|][j]) && SameParam(y[j], z[..|y|][j]);
    }
  }

  /** The defaults: existing bindings stay, parameters from `i` on end up bound, to their default if they were not. */
  lemma {:induction false} DefaultsFill(f: Ref, i: nat, c: Ctx, h: Heap, n: nat)
    requires Calling(f, c, h)
    requires FillDefaults(f, i, |Vars(h, f)|, c, h, n).Normal?
    ensures var k := FillDefaults(f, i, |Vars(h, f)|, c, h, n).h;
            && Calling(f, c, k) && Vars(k, f) == Vars(h, f) && Vars(h, c.env) <= Vars(k, c.env)
            && (forall q :: i <= q < |Vars(h, f)| ==> Has(k, c.env, Vars(h, f)[q].name))
            && (forall j :: |Vars(h, c.env)| <= j < |Vars(k, c.env)| ==>
                  Vars(k, c.env)[j] in Vars(h, f) && Vars(k, c.env)[j].value != P(Unknown))
    decreases |Vars(h, f)| - i
  {
    if i < |Vars(h, f)| {
      var p := Vars(h, f)[i];
      if Has(h, c.env, p.name) {
        DefaultsFill(f, i + 1, c, h, n);
        var k := FillDefaults(f, i, |Vars(h, f)|, c, h, n).h;
        HasKept(Vars(h, c.env), Vars(k, c.env), p.name);
      } else {
        var u := Create(c, h, p.name, p.ty, p.value, n);
        DefaultStep(f, i, c, h, n);
        DefaultsFill(f, i + 1, c, u.h, n);
        var k := FillDefaults(f, i, |Vars(h, f)|, c, h, n).h;
        HasKept(Vars(u.h, c.env), Vars(k, c.env), p.name);
      }
    }
  }

  lemma DefaultStep(f: Ref, i: nat, c: Ctx, h: Heap, n: nat)
    requires Calling(f, c, h) && i < |Vars(h, f)|
    requires var p := Vars(h, f)[i]; Create(c, h, p.name, p.ty, p.value, n).Written?
    ensures var p := Vars(h, f)[i];
            var u := Create(c, h, p.name, p.ty, p.value, n);
            && Calling(f, c, u.h) && Vars(u.h, f) == Vars(h, f) && Vars(u.h, c.env) == Vars(h, c.env) + [p]
            && Find(Vars(u.h, c.env), p.name) < |Vars(u.h, c.env)|
  {
    var p := Vars(h, f)[i];
    assert ScopeGood(h, f);
    assert EnvGood(h, p);
    CreateOk(c, h, p.name, p.ty, p.value, n);
    FindAtEnd(Vars(h, c.env), p);
  }

  lemma {:induction false} FindAtEnd(vars: seq<Env>, p: Env)
    ensures Find(vars + [p], p.name) <= |vars|
  {
    if vars != [] {
      FindAtEnd(vars[1..], p);
      assert (vars + [p])[1..] == vars[1..] + [p];
    }
  }

  lemma {:induction false} HasKept(a: seq<Env>, b: seq<Env>, name: string)
    requires a <= b && Find(a, name) < |a|
    ensures Find(b, name) < |b|
  {
    if a[0].name != name {
      HasKept(a[1..], b[1..], name);
    }
  }

  function Names(vars: seq<Env>): set<string> {
    set j | 0 <= j < |vars| :: vars[j].name
  }

  lemma {:induction false} DistinctCount(vars: seq<Env>)
    requires Distinct(vars)
    ensures |Names(vars)| == |vars|
  {
    if vars != [] {
      var rest := vars[..|vars| - 1];
      DistinctCount(rest);
      assert Names(vars) == Names(rest) + {vars[|vars| - 1].name};
    }
  }

  /** The names the arguments are for. */
  function Given(args: seq<Expr>, params: seq<Env>): set<string> {
    set j | 0 <= j < |args| && ParamIndex(args[j], j, params) < |params| :: params[ParamIndex(args[j], j, params)].name
  }

  /** The parameter scope starts with the arguments' bindings; the rest are defaults. */
  lemma BoundParameters(args: seq<Expr>, f: Ref, c: Ctx, h: Heap, n: nat)
    requires QuietArgs(args, false) && DeclareNothing(args) && Calling(f, c, h) && Vars(h, c.env) == []
    requires EvalBinding(args, f, c, h, n).Normal?
    ensures var m := EvalBinding(args, f, c, h, n).h;
            && Calling(f, c, m) && SameSignature(Vars(h, f), Vars(m, f))
            && Matches(args, 0, Vars(h, f), Vars(m, c.env))
            && (forall q :: 0 <= q < |Vars(h, f)| ==> Find(Vars(m, c.env), Vars(h, f)[q].name) < |Vars(m, c.env)|)
            && (forall j :: |args| <= j < |Vars(m, c.env)| ==>
                  Vars(m, c.env)[j] in Vars(m, f) && Vars(m, c.env)[j].value != P(Unknown))
  {
    var m := EvalBinding(args, f, c, h, n).h;
    hide Calling, Step, EvalArgs, FillDefaults;
    ArgumentsBind(args, 0, f, false, c, h, n);
    var k := EvalArgs(args, 0, f, false, c, h, n).h;
    assert Vars(k, c.env)[0..] == Vars(k, c.env);
    DefaultsFill(f, 0, c, k, n);
    forall q | 0 <= q < |Vars(h, f)| ensures Find(Vars(m, c.env), Vars(h, f)[q].name) < |Vars(m, c.env)| {
      assert SameParam(Vars(h, f)[q], Vars(k, f)[q]) && Has(m, c.env, Vars(k, f)[q].name);
    }
    forall j | 0 <= j < |args| ensures SameParam(Vars(h, f)[ParamIndex(args[j], j, Vars(h, f))], Vars(m, c.env)[j]) {
      assert Vars(m, c.env)[j] == Vars(k, c.env)[j];
    }
  }

  /**
  A successful call binds exactly the callee's parameter names, each once and respecting its annotation. The
  arguments are for different parameters. Argument `j` makes the `j`-th binding, with the value it has in the store
  that the arguments before it left; no default changes it, and no later argument does that cannot write. Every
  parameter without an argument has its default, which exists.
  */
  lemma CallBindsParameters(args: seq<Expr>, f: Ref, c: Ctx, h: Heap, n: nat)
    requires QuietArgs(args, false) && DeclareNothing(args) && Calling(f, c, h) && Vars(h, c.env) == []
    requires EvalBinding(args, f, c, h, n).Normal?
    ensures var m := EvalBinding(args, f, c, h, n).h;
            && Names(Vars(m, c.env)) == Names(Vars(h, f)) && |Vars(m, c.env)| == |Vars(h, f)|
            && (forall b :: b in Vars(m, c.env) ==> Annotated(b.ty, b.value))
            && Matches(args, 0, Vars(h, f), Vars(m, c.env))
            && |Given(args, Vars(h, f))| == |args|
            && (forall j :: 0 <= j < |args| && (forall i :: j < i < |args| ==> WriteFree(ValueOf(args[i]))) ==>
                  Vars(m, c.env)[j].value == ArgumentValue(args, 0, f, false, c, h, n, j))
            && (forall q :: 0 <= q < |Vars(m, f)| && Vars(m, f)[q].name !in Given(args, Vars(h, f)) ==>
                  Vars(m, f)[q] in Vars(m, c.env) && Vars(m, f)[q].value != P(Unknown))
  {
    BoundParameters(args, f, c, h, n);
    var m := EvalBinding(args, f, c, h, n).h;
    assert ScopeGood(h, f) && ScopeGood(m, c.env) && ScopeGood(m, f);
    forall b | b in Vars(m, c.env) ensures Annotated(b.ty, b.value) {
      var j :| 0 <= j < |Vars(m, c.env)| && Vars(m, c.env)[j] == b;
      assert EnvGood(m, Vars(m, c.env)[j]);
    }
    ExactNames(args, Vars(h, f), Vars(m, f), Vars(m, c.env));
    DefaultsKept(args, Vars(h, f), Vars(m, f), Vars(m, c.env));
    forall j | 0 <= j < |args| && (forall i :: j < i < |args| ==> WriteFree(ValueOf(args[i])))
      ensures Vars(m, c.env)[j].value == ArgumentValue(args, 0, f, false, c, h, n, j)
    {
      BoundValue(args, f, c, h, n, j);
    }
  }

  /** The defaults come after the arguments and leave them alone. */
  lemma BoundValue(args: seq<Expr>, f: Ref, c: Ctx, h: Heap, n: nat, j: nat)
    requires QuietArgs(args, false) && DeclareNothing(args) && Calling(f, c, h) && Vars(h, c.env) == []
    requires EvalBinding(args, f, c, h, n).Normal?
    requires j < |args| && forall i :: j < i < |args| ==> WriteFree(ValueOf(args[i]))
    ensures var m := EvalBinding(args, f, c, h, n).h;
            |args| <= |Vars(m, c.env)| && Vars(m, c.env)[j].value == ArgumentValue(args, 0, f, false, c, h, n, j)
  {
    hide Calling, Step, EvalArgs, FillDefaults, WriteFree, ArgumentValue;
    var k := EvalArgs(args, 0, f, false, c, h, n).h;
    ArgumentsBind(args, 0, f, false, c, h, n);
    ArgumentHasValue(args, 0, f, false, c, h, n, j);
    DefaultsFill(f, 0, c, k, n);
  }

  /** A later argument that does assign: `f(1, 0 + (a = 9))` leaves the parameter `a` at 9. */
  lemma LaterArgumentOverwrites(ops: Ops, n: nat)
    ensures var x, y := Env("a", TAny, P(Unknown)), Env("b", TAny, P(Unknown));
            var h := Heap([Scope([x, y], None, false), Scope([], None, false)], [], 0);
            var args := [Lit(Int(1)), Binary(Add, Lit(Int(0)), Assign(Ident("a"), Lit(Int(9))))];
            && QuietArgs(args, false) && EvalArgs(args, 0, 0, false, Ctx(1, None, ops), h, n).Normal?
            && ArgumentValue(args, 0, 0, false, Ctx(1, None, ops), h, n, 0) == P(Int(1))
            && |Vars(EvalArgs(args, 0, 0, false, Ctx(1, None, ops), h, n).h, 1)| == 2
            && Vars(EvalArgs(args, 0, 0, false, Ctx(1, None, ops), h, n).h, 1)[0] == x.(value := P(Int(9)))
  {
    hide Step, Sound, Eval, EvalBinary, EvalAssign, EvalArg, EvalArgs, ValueIn, FindUp, IsOfType;
    var x, y := Env("a", TAny, P(Unknown)), Env("b", TAny, P(Unknown));
    var c, h := Ctx(1, None, ops), Heap([Scope([x, y], None, false), Scope([], None, false)], [], 0);
    var set9 := Assign(Ident("a"), Lit(Int(9)));
    var second := Binary(Add, Lit(Int(0)), set9);
    var args := [Lit(Int(1)), second];
    assert Quiet(args[0]) && Quiet(set9) && Quiet(second);
    assert args[1..] == [second] && args[1..][1..] == [];
    var one, nine := x.(value := P(Int(1))), x.(value := P(Int(9)));
    assert Find([x, y], "a") == 0 && Find([one], "a") == 0 && "b" != "a" && Find([nine], "b") == 1;
    var k, l := AddVar(h, 1, one), SetVar(AddVar(h, 1, one), 1, 0, P(Int(9)));
    assert k.scopes[1].vars == [one] && l.scopes[1].vars == [nine];
    ArgumentMakes(args[0], 0, 0, c, h, n, x, P(Int(1)), h) by {
      assert Eval(args[0], c, h, n) == Normal(P(Int(1)), h) by { LiteralIs(Int(1), c, h, n); }
    }
    var sum := P(ops.binary(Add, P(Int(0)), P(Int(9))));
    AssignedSum(c, k, "a", n);
    ArgumentMakes(second, 1, 0, c, k, n, y, sum, l);
    TwoQuiet(args[0], second);
    TwoArguments(args[0], second, 0, c, h, n, k, AddVar(l, 1, y.(value := sum)));
  }

  lemma TwoQuiet(a: Expr, b: Expr)
    requires QuietArg(a) && QuietArg(b) && (a.Assign? ==> b.Assign?)
    ensures QuietArgs([a, b], false)
  {
    hide QuietArg;
    assert QuietArgs([], b.Assign?);
    assert [b][1..] == [];
    assert QuietArgs([b], a.Assign?);
    assert [a, b][1..] == [b];
  }

  lemma TwoArguments(a: Expr, b: Expr, f: Ref, c: Ctx, h: Heap, n: nat, k: Heap, l: Heap)
    requires QuietArgs([a, b], false) && QuietArg(a) && QuietArg(b)
    requires EvalArg(a, 0, f, c, h, n).Normal? && EvalArg(a, 0, f, c, h, n).h == k
    requires EvalArg(b, 1, f, c, k, n).Normal? && EvalArg(b, 1, f, c, k, n).h == l
    ensures EvalArgs([a, b], 0, f, false, c, h, n) == Normal(P(Null), l)
  {
    hide Step, Sound, EvalArg;
    assert [a, b][1..] == [b] && [b][1..] == [];
    assert EvalArgs([], 2, f, b.Assign?, c, l, n) == Normal(P(Null), l);
    assert EvalArgs([b], 1, f, a.Assign?, c, k, n) == Normal(P(Null), l);
  }

  lemma LiteralIs(p: Prim, c: Ctx, h: Heap, n: nat)
    ensures Eval(Lit(p), c, h, n) == Normal(P(p), h)
  {
    hide Step;
  }

  /** A positional argument for an unannotated parameter. */
  lemma ArgumentMakes(a: Expr, i: nat, f: Ref, c: Ctx, h: Heap, n: nat, p: Env, v: Value, k: Heap)
    requires QuietArg(a) && Quiet(a) && !a.Assign? && i < |Vars(h, f)| && Vars(h, f)[i] == p && p.ty == TAny
    requires Eval(a, c, h, n) == Normal(v, k) && c.env < |k.scopes| && !Has(k, c.env, p.name)
    ensures EvalArg(a, i, f, c, h, n) == Normal(v, AddVar(k, c.env, p.(value := v)))
    ensures ValueIn(a, c, h, n) == v
  {
    hide Step, Eval;
    assert IsOfType(c, k, v, TAny, n) == Yes;
  }

  lemma AssignedSum(c: Ctx, k: Heap, name: string, n: nat)
    requires c.inst == None && Has(k, c.env, name) && Binding(k, c.env, name).ty == TAny
    ensures var e := Binary(Add, Lit(Int(0)), Assign(Ident(name), Lit(Int(9))));
            && WellFormed(e)
            && Eval(e, c, k, n) == Normal(P(c.ops.binary(Add, P(Int(0)), P(Int(9)))),
                                          SetVar(k, c.env, Find(k.scopes[c.env].vars, name), P(Int(9))))
  {
    hide Step;
    var set9 := Assign(Ident(name), Lit(Int(9)));
    assert Quiet(Lit(Int(9))) && Quiet(Lit(Int(0)));
    assert WellFormed(set9) && ExprSignals(set9) == {};
    assert Quiet(set9);
    assert IsOfType(c, k, P(Int(9)), TAny, n) == Yes;
    assert Set(c, k, name, P(Int(9)), n) == Written(SetVar(k, c.env, Find(k.scopes[c.env].vars, name), P(Int(9))));
    LiteralIs(Int(0), c, k, n);
    LiteralIs(Int(9), c, k, n);
    var l := SetVar(k, c.env, Find(k.scopes[c.env].vars, name), P(Int(9)));
    assert EvalAssign(set9, c, k, n) == Normal(P(Int(9)), l);
    assert Eval(set9, c, k, n) == Normal(P(Int(9)), l);
    var e := Binary(Add, Lit(Int(0)), set9);
    assert WellFormed(e);
    assert EvalBinary(e, c, k, n) == Normal(P(c.ops.binary(Add, P(Int(0)), P(Int(9)))), l);
  }

  lemma ExactNames(args: seq<Expr>, params: seq<Env>, later: seq<Env>, bound: seq<Env>)
    requires Distinct(params) && Distinct(bound) && SameSignature(params, later) && Matches(args, 0, params, bound)
    requires forall q :: 0 <= q < |params| ==> Find(bound, params[q].name) < |bound|
    requires forall j :: |args| <= j < |bound| ==> bound[j] in later
    ensures Names(bound) == Names(params) && |bound| == |params| && |Given(args, params)| == |args|
  {
    BoundAreParameters(args, params, later, bound);
    ParametersAreBound(params, bound);
    GivenIsFirst(args, params, bound);
    assert |args| <= |bound|;
    hide Distinct, Names, Matches, SameSignature, Given, Find;
    SameCount(params, bound, |args|);
  }

  lemma SameCount(params: seq<Env>, bound: seq<Env>, n: nat)
    requires Distinct(params) && Distinct(bound) && Names(bound) == Names(params) && n <= |bound|
    ensures |bound| == |params| && |Names(bound[..n])| == n
  {
    assert Distinct(bound[..n]);
    DistinctCount(bound[..n]);
    DistinctCount(bound);
    DistinctCount(params);
  }

  lemma BoundAreParameters(args: seq<Expr>, params: seq<Env>, later: seq<Env>, bound: seq<Env>)
    requires SameSignature(params, later) && Matches(args, 0, params, bound)
    requires forall j :: |args| <= j < |bound| ==> bound[j] in later
    ensures Names(bound) <= Names(params)
  {
    forall j | 0 <= j < |bound| ensures bound[j].name in Names(params) {
      if j < |args| {
        assert SameParam(params[ParamIndex(args[j], j, params)], bound[j]);
      } else {
        var q :| 0 <= q < |later| && later[q] == bound[j];
        assert SameParam(params[q], later[q]);
      }
    }
  }

  lemma ParametersAreBound(params: seq<Env>, bound: seq<Env>)
    requires forall q :: 0 <= q < |params| ==> Find(bound, params[q].name) < |bound|
    ensures Names(params) <= Names(bound)
  {
    forall q | 0 <= q < |params| ensures params[q].name in Names(bound) {
      assert bound[Find(bound, params[q].name)].name == params[q].name;
    }
  }

  lemma GivenIsFirst(args: seq<Expr>, params: seq<Env>, bound: seq<Env>)
    requires Matches(args, 0, params, bound)
    ensures Given(args, params) == Names(bound[..|args|])
    ensures forall j :: 0 <= j < |args| ==> bound[j].name in Given(args, params)
  {
    var first := bound[..|args|];
    forall j | 0 <= j < |args|
      ensures first[j].name in Given(args, params) && params[ParamIndex(args[j], j, params)].name in Names(first)
    {
      assert SameParam(params[ParamIndex(args[j], 0 + j, params)], bound[j]);
      assert first[j] == bound[j];
    }
  }

  lemma DefaultsKept(args: seq<Expr>, params: seq<Env>, later: seq<Env>, bound: seq<Env>)
    requires Distinct(later) && SameSignature(params, later) && Matches(args, 0, params, bound)
    requires forall q :: 0 <= q < |params| ==> Find(bound, params[q].name) < |bound|
    requires forall j :: |args| <= j < |bound| ==> bound[j] in later && bound[j].value != P(Unknown)
    ensures forall q :: 0 <= q < |later| && later[q].name !in Given(args, params) ==>
              later[q] in bound && later[q].value != P(Unknown)
  {
    GivenIsFirst(args, params, bound);
    forall q | 0 <= q < |later| && later[q].name !in Given(args, params)
      ensures later[q] in bound && later[q].value != P(Unknown)
    {
      assert SameParam(params[q], later[q]);
      var j := Find(bound, params[q].name);
      assert j >= |args|;
      var p :| 0 <= p < |later| && later[p] == bound[j];
      assert p == q;
    }
  }

  // ---------------------------------------------------------------------------------------------------
  // Calls that fail

  /** The arguments before `j` are all bound. */
  predicate BoundUpTo(args: seq<Expr>, i: nat, f: Ref, named: bool, c: Ctx, h: Heap, n: nat, j: nat)
    requires QuietArgs(args, named) && j <= |args|
  {
    j > 0 ==>
      QuietArg(args[0]) && EvalArg(args[0], i, f, c, h, n).Normal? &&
      BoundUpTo(args[1..], i + 1, f, args[0].Assign?, c, EvalArg(args[0], i, f, c, h, n).h, n, j - 1)
  }

  /** A named argument for no parameter fails, wherever it stands. */
  lemma {:induction false} UnknownNameFails(
    args: seq<Expr>, i: nat, f: Ref, named: bool, c: Ctx, h: Heap, n: nat, j: nat)
    requires QuietArgs(args, named) && j < |args| && BoundUpTo(args, i, f, named, c, h, n, j)
    requires args[j].Assign? && args[j].target.Ident?
    requires !Has(StoreBefore(args, i, f, named, c, h, n, j), f, args[j].target.name)
    ensures EvalArgs(args, i, f, named, c, h, n) == Fail(NoSuchParam)
    decreases j
  {
    hide Step, Sound, Eval;
    assert QuietArg(args[0]);
    if j > 0 {
      assert args[1..][j - 1] == args[j];
      UnknownNameFails(args[1..], i + 1, f, args[0].Assign?, c, EvalArg(args[0], i, f, c, h, n).h, n, j - 1);
    }
  }

  /** The first parameter without an argument or a default fails. */
  lemma {:induction false} MissingParameterFails(f: Ref, i: nat, count: nat, c: Ctx, h: Heap, n: nat, q: nat)
    requires i <= q < count && q < |Vars(h, f)| && !Has(h, c.env, Vars(h, f)[q].name)
    requires Vars(h, f)[q].value == P(Unknown)
    requires forall p :: i <= p < q ==> Has(h, c.env, Vars(h, f)[p].name)
    ensures FillDefaults(f, i, count, c, h, n) == Fail(ParamMissing)
    decreases q - i
  {
    if i < q {
      MissingParameterFails(f, i + 1, count, c, h, n, q);
    }
  }

  /** Argument `j` is the first one in trouble: it is for a name that no parameter has. */
  predicate UnknownName(args: seq<Expr>, f: Ref, c: Ctx, h: Heap, n: nat, j: nat)
    requires QuietArgs(args, false)
  {
    && j < |args| && BoundUpTo(args, 0, f, false, c, h, n, j) && args[j].Assign? && args[j].target.Ident?
    && !Has(StoreBefore(args, 0, f, false, c, h, n, j), f, args[j].target.name)
  }

  /** With all arguments bound in `k`, parameter `q` is the first one without a binding, and it has no default. */
  predicate Unfilled(f: Ref, c: Ctx, k: Heap, q: nat) {
    && q < |Vars(k, f)| && !Has(k, c.env, Vars(k, f)[q].name) && Vars(k, f)[q].value == P(Unknown)
    && forall p :: 0 <= p < q ==> Has(k, c.env, Vars(k, f)[p].name)
  }

  /**
  A call fails with its own error for too many arguments, for a named argument that no parameter has, and for a
  parameter that neither an argument nor a default fills.
  */
  lemma BadArgumentsFail(args: seq<Expr>, f: Ref, c: Ctx, h: Heap, n: nat)
    requires QuietArgs(args, false) && c.env < |h.scopes|
    ensures |args| > |Vars(h, f)| ==> EvalBinding(args, f, c, h, n) == Fail(ParamCount)
    ensures |args| <= |Vars(h, f)| && (exists j: nat :: UnknownName(args, f, c, h, n, j)) ==>
              EvalBinding(args, f, c, h, n) == Fail(NoSuchParam)
    ensures var r := EvalArgs(args, 0, f, false, c, h, n);
            |args| <= |Vars(h, f)| && r.Normal? && (exists q: nat :: q < |Vars(h, f)| && Unfilled(f, c, r.h, q)) ==>
              EvalBinding(args, f, c, h, n) == Fail(ParamMissing)
  {
    hide Step, Sound, EvalArgs, FillDefaults, StoreBefore, BoundUpTo;
    if |args| <= |Vars(h, f)| {
      if j: nat :| UnknownName(args, f, c, h, n, j) {
        UnknownNameFails(args, 0, f, false, c, h, n, j);
      }
      var r := EvalArgs(args, 0, f, false, c, h, n);
      if r.Normal? {
        if q: nat :| q < |Vars(h, f)| && Unfilled(f, c, r.h, q) {
          MissingParameterFails(f, 0, |Vars(h, f)|, c, r.h, n, q);
        }
      }
    }
  }

  /** An argument that fails makes the call fail in the same way, wherever it stands. */
  lemma {:induction false} ArgumentFails(
    args: seq<Expr>, i: nat, f: Ref, named: bool, c: Ctx, h: Heap, n: nat, j: nat, e: Error)
    requires QuietArgs(args, named) && j < |args| && BoundUpTo(args, i, f, named, c, h, n, j) && QuietArg(args[j])
    requires EvalArg(args[j], i + j, f, c, StoreBefore(args, i, f, named, c, h, n, j), n) == Fail(e)
    ensures EvalArgs(args, i, f, named, c, h, n) == Fail(e)
    decreases j
  {
    hide Step, Sound, Eval, EvalArg;
    assert QuietArg(args[0]);
    if j > 0 {
      assert args[1..][j - 1] == args[j];
      ArgumentFails(args[1..], i + 1, f, args[0].Assign?, c, EvalArg(args[0], i, f, c, h, n).h, n, j - 1, e);
    }
  }

  lemma {:induction false} SameNameFound(a: seq<Env>, b: seq<Env>, name: string)
    requires |a| <= |b| && (forall j :: 0 <= j < |a| ==> b[j].name == a[j].name) && Find(a, name) < |a|
    ensures Find(b, name) < |b|
  {
    if a[0].name != name {
      SameNameFound(a[1..], b[1..], name);
    }
  }

  /** A second argument for the same parameter, by position and by name or twice by name, cannot be bound. */
  lemma RepeatedArgumentFails(args: seq<Expr>, f: Ref, c: Ctx, h: Heap, n: nat, j: nat)
    requires QuietArgs(args, false) && |args| <= |Vars(h, f)| && c.env < |h.scopes|
    requires j < |args| && BoundUpTo(args, 0, f, false, c, h, n, j) && QuietArg(args[j])
    requires var k := StoreBefore(args, 0, f, false, c, h, n, j);
             && ParamFor(args[j], j, f, k).Some? && Has(k, c.env, ParamFor(args[j], j, f, k).value.name)
             && Quiet(ValueOf(args[j])) && Eval(ValueOf(args[j]), c, k, n).Normal?
    ensures EvalBinding(args, f, c, h, n) in {Fail(ParamFailed), Fail(OutOfFuel)}
  {
    hide Step, EvalArgs, FillDefaults, StoreBefore, BoundUpTo;
    var k := StoreBefore(args, 0, f, false, c, h, n, j);
    var p, r := ParamFor(args[j], j, f, k).value, Eval(ValueOf(args[j]), c, k, n);
    ScopeStillHas(c, k, r, p.name);
    var failed := EvalArg(args[j], j, f, c, k, n);
    assert failed == Fail(ParamFailed) || failed == Fail(OutOfFuel);
    ArgumentFails(args, 0, f, false, c, h, n, j, failed.err);
  }

  lemma ScopeStillHas(c: Ctx, h: Heap, r: Res, name: string)
    requires Sound(c, h, r, {}) && r.Normal? && Has(h, c.env, name)
    ensures Has(r.h, c.env, name)
  {
    assert ScopeGrows(h.scopes[c.env], r.h.scopes[c.env]);
    SameNameFound(h.scopes[c.env].vars, r.h.scopes[c.env].vars, name);
  }
}
