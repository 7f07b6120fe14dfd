/**
The reference semantics: an evaluator without mutable state, in which every construct says what it does with the
outcome of its parts. An error or an abrupt outcome ends an operation at once (`:-`).
*/
module Reference {
  import opened Wrappers
  import opened Types
  import opened Syntax
  import opened Store
  import opened StoreFacts

  /** How an evaluation ends: in an error, on the way out of a construct, or with a value. */
  datatype Res =
    | Fail(err: Error)
    | Abrupt(signal: Signal, v: Value, h: Heap)
    | Normal(v: Value, h: Heap)
  {
    predicate IsFailure() {
      !Normal?
    }

    function PropagateFailure(): Res
      requires !Normal?
    {
      this
    }

    function Extract(): (Value, Heap)
      requires Normal?
    {
      (v, h)
    }
  }

  /** Only signals in `may` leave, and whatever happened kept the store (`Step`). */
  predicate Sound(c: Ctx, h: Heap, r: Res, may: set<Signal>) {
    match r
    case Fail(_) => true
    case Abrupt(s, v, k) => s in may && Step(c, h, k, v)
    case Normal(v, k) => Step(c, h, k, v)
  }

  lemma SoundPlain(c: Ctx, h: Heap, k: Heap, v: Value, w: Value)
    requires Step(c, h, k, v) && (w.P? || w.InterfaceV?)
    ensures Step(c, h, k, w)
  {
  }

  lemma SoundThen(c: Ctx, h: Heap, k: Heap, v: Value, r: Res, may: set<Signal>)
    requires Step(c, h, k, v) && Sound(c, k, r, may)
    ensures Sound(c, h, r, may)
  {
    if !r.Fail? {
      StepTransitive(c, h, k, r.h, v, r.v);
    }
  }

  lemma SoundQuiet(c: Ctx, h: Heap, r: Res)
    requires Sound(c, h, r, {})
    ensures !r.Abrupt?
  {
  }

  /** The outcome of a checked write that was tried with value `v`. */
  function Stored(u: Update, v: Value, refused: Error): Res {
    match u
    case Written(k) => Normal(v, k)
    case Refused => Fail(refused)
    case Starved => Fail(OutOfFuel)
  }

  lemma StoredSound(c: Ctx, h: Heap, k: Heap, u: Update, v: Value, refused: Error)
    requires Step(c, h, k, v) && WriteOk(c, k, v, u)
    ensures Sound(c, h, Stored(u, v, refused), {})
  {
    if u.Written? {
      WriteStep(c, h, k, u, v);
    }
  }

  // ---------------------------------------------------------------------------------------------------
  // Expressions

  function Eval(e: Expr, c: Ctx, h: Heap, n: nat): (r: Res)
    requires WellFormed(e)
    ensures Sound(c, h, r, ExprSignals(e))
    decreases n, e, 3
  {
    hide Step, Good, CtxGood;
    match e
    case Lit(p) => StepRefl(c, h, P(p)); Normal(P(p), h)
    case Inert => StepRefl(c, h, P(Null)); Normal(P(Null), h)
    case Ident(name) => ReadSound(c, h, name); Normal(Get(c, h, name), h)
    case Self =>
      ReadSound(c, h, "self");
      if Get(c, h, "self").InstV? then Normal(Get(c, h, "self"), h) else Fail(SelfError)
    case Unary(op, a) =>
      assert Quiet(a);
      var (v, k) :- Eval(a, c, h, n);
      UnarySound(c, h, k, op, v);
      Normal(ApplyUnary(c.ops, op, v), k)
    case Binary(_, _, _) => EvalBinary(e, c, h, n)
    case Assign(_, _) => EvalAssign(e, c, h, n)
    case Compound(_, _, _) => EvalCompound(e, c, h, n)
    case If(_, _, _) => EvalIf(e, c, h, n)
    case While(_, _) => EvalWhile(e, c, h, n)
    case DoWhile(_, _) => EvalWhile(e, c, h, n)
    case For(_, _, _, _) => EvalFor(e, c, h, n)
    case FnExpr(_, _, _, _) => EvalFn(e, c, h, n)
    case TypeExpr(_, _) => EvalType(e, c, h, n)
    case InstExpr(_, _, _) => EvalInst(e, c, h, n)
    case Block(items) => Escape(EvalBlock(items, c, h, n), Break)
    case Call(_, _) => EvalCall(e, c, h, n)
    case Member(_, _) => EvalMember(e, c, h, n)
  }

  /** A construct that catches one signal. */
  function Escape(r: Res, s: Signal): Res {
    if r.Abrupt? && r.signal == s then Normal(r.v, r.h) else r
  }

  lemma ReadSound(c: Ctx, h: Heap, name: string)
    ensures Step(c, h, h, Get(c, h, name))
  {
    if Good(h) {
      GetIsGood(c, h, name);
    }
    StepRefl(c, h, Get(c, h, name));
  }

  function ApplyUnary(ops: Ops, op: UnOp, v: Value): Value {
    match op
    case Plus => v
    case Not => P(Bool(!IsTrue(v)))
    case _ => if v.P? then P(ops.unary(op, v.p)) else v
  }

  lemma UnarySound(c: Ctx, h: Heap, k: Heap, op: UnOp, v: Value)
    requires Step(c, h, k, v)
    ensures Step(c, h, k, ApplyUnary(c.ops, op, v))
  {
  }

  function EvalBinary(e: Expr, c: Ctx, h: Heap, n: nat): (r: Res)
    requires e.Binary? && WellFormed(e)
    ensures Sound(c, h, r, {})
    decreases n, e, 0
  {
    hide Step;
    assert Quiet(e.left) && Quiet(e.right);
    var (v, k) :- Eval(e.left, c, h, n);
    if (e.bop.Or? && IsTrue(v)) || (e.bop.And? && !IsTrue(v)) then
      SoundPlain(c, h, k, v, P(Bool(e.bop.Or?)));
      Normal(P(Bool(e.bop.Or?)), k)
    else
      var (w, l) :- Eval(e.right, c, k, n);
      StepTransitive(c, h, k, l, v, w);
      var p := if e.bop.Or? || e.bop.And? then Bool(IsTrue(w)) else c.ops.binary(e.bop, v, w);
      SoundPlain(c, h, l, w, P(p));
      Normal(P(p), l)
  }

  /** The value is stored even when it was computed on the way out; the outcome then goes on. */
  function EvalAssign(e: Expr, c: Ctx, h: Heap, n: nat): (r: Res)
    requires e.Assign? && WellFormed(e)
    ensures Sound(c, h, r, ExprSignals(e))
    decreases n, e, 0
  {
    hide Step;
    assert e.target.Member? ==> Quiet(e.target.owner) && Quiet(e.value);
    var r := Eval(e.value, c, h, n);
    if r.Fail? then r
    else if e.target.Ident? then
      SetOk(c, r.h, e.target.name, r.v, n);
      StoredSound(c, h, r.h, Set(c, r.h, e.target.name, r.v, n), r.v, SetFailed);
      Resume(r, Stored(Set(c, r.h, e.target.name, r.v, n), r.v, SetFailed))
    else
      var (v, k) := (r.v, r.h);
      var (owner, l) :- Eval(e.target.owner, c, k, n);
      StepValue(c, h, k, l, v, owner);
      StepTransitive(c, h, k, l, v, owner);
      MemberWrite(c, h, l, owner, e.target.field, v, n);
      Stored(SetMember(c, l, owner, e.target.field, v, n), v, SetFailed)
  }

  /** Continue with the outcome of `r` after something was done with its value. */
  function Resume(r: Res, done: Res): Res
    requires !r.Fail?
  {
    if done.Normal? && r.Abrupt? then Abrupt(r.signal, done.v, done.h) else done
  }

  lemma MemberWrite(c: Ctx, h: Heap, l: Heap, owner: Value, field: string, v: Value, n: nat)
    requires Step(c, h, l, v) && Step(c, h, l, owner)
    ensures Sound(c, h, Stored(SetMember(c, l, owner, field, v, n), v, SetFailed), {})
  {
    var u := SetMember(c, l, owner, field, v, n);
    if Good(h) && CtxGood(c, h) {
      SetMemberOk(c, l, owner, field, v, n);
      StoredSound(c, h, l, u, v, SetFailed);
    } else if u.Written? {
      SetMemberKeeps(c, l, owner, field, v, n);
      KeepsTransitive(h, l, u.h);
    }
  }

  function EvalCompound(e: Expr, c: Ctx, h: Heap, n: nat): (r: Res)
    requires e.Compound? && WellFormed(e)
    ensures Sound(c, h, r, {})
    decreases n, e, 0
  {
    hide Step;
    assert Quiet(e.cvalue);
    var old_ := Get(c, h, e.cname);
    var (v, k) :- Eval(e.cvalue, c, h, n);
    var w := P(c.ops.binary(e.cop, old_, v));
    SoundPlain(c, h, k, v, w);
    SetOk(c, k, e.cname, w, n);
    StoredSound(c, h, k, Set(c, k, e.cname, w, n), w, SetFailed);
    Stored(Set(c, k, e.cname, w, n), w, SetFailed)
  }

  function EvalIf(e: Expr, c: Ctx, h: Heap, n: nat): (r: Res)
    requires e.If? && WellFormed(e)
    ensures Sound(c, h, r, ExprSignals(e))
    decreases n, e, 0
  {
    hide Step;
    assert Quiet(e.cond);
    var (v, k) :- Eval(e.cond, c, h, n);
    if IsTrue(v) then
      var r := EvalBlock(e.thenItems, c, k, n);
      SoundThen(c, h, k, v, r, ItemsSignals(e.thenItems));
      r
    else if e.els.None? then
      SoundPlain(c, h, k, v, P(Null));
      Normal(P(Null), k)
    else
      var r := EvalElse(e.els.value, c, k, n);
      SoundThen(c, h, k, v, r, ElseSignals(e.els.value));
      r
  }

  /** A chained `if`, or a block through which every signal passes. */
  function EvalElse(e: Expr, c: Ctx, h: Heap, n: nat): (r: Res)
    requires (e.If? || e.Block?) && WellFormed(e)
    ensures Sound(c, h, r, ElseSignals(e))
    decreases n, e, 1
  {
    if e.If? then EvalIf(e, c, h, n) else EvalBlock(e.items, c, h, n)
  }

  /** A while loop tests first; a do-while loop starts with a round. */
  function EvalWhile(e: Expr, c: Ctx, h: Heap, n: nat): (r: Res)
    requires (e.While? || e.DoWhile?) && WellFormed(e)
    ensures Sound(c, h, r, ExprSignals(e))
    decreases n, e, 1
  {
    hide Step;
    assert Quiet(e.wcond);
    if e.DoWhile? then EvalRound(e, c, h, n)
    else
      var (v, k) :- Eval(e.wcond, c, h, n);
      if IsTrue(v) then
        var r := EvalRound(e, c, k, n);
        SoundThen(c, h, k, v, r, ExprSignals(e));
        r
      else
        SoundPlain(c, h, k, v, P(Null));
        Normal(P(Null), k)
  }

  /** One run of the body, the test after it, and the rounds that follow while it holds. */
  function EvalRound(e: Expr, c: Ctx, h: Heap, n: nat): (r: Res)
    requires (e.While? || e.DoWhile?) && WellFormed(e)
    ensures Sound(c, h, r, ExprSignals(e))
    decreases n, e, 0
  {
    hide Step;
    assert Quiet(e.wcond);
    var r := Escape(EvalBlock(e.wbody, c, h, n), Continue);
    if !r.Normal? then Escape(r, Break)
    else
      var (v, k) :- Eval(e.wcond, c, r.h, n);
      StepTransitive(c, h, r.h, k, r.v, v);
      StepValue(c, h, r.h, k, r.v, v);
      if !IsTrue(v) then Normal(r.v, k)
      else if n == 0 then Fail(OutOfFuel)
      else
        var rest := EvalRound(e, c, k, n - 1);
        SoundThen(c, h, k, v, rest, ExprSignals(e));
        rest
  }

  /** An absent condition counts as true. */
  function EvalCond(cond: Option<Expr>, c: Ctx, h: Heap, n: nat): (r: Res)
    requires cond.Some? ==> Quiet(cond.value)
    ensures Sound(c, h, r, {})
    decreases n, cond
  {
    match cond
    case None => StepRefl(c, h, P(Bool(true))); Normal(P(Bool(true)), h)
    case Some(e) => Eval(e, c, h, n)
  }

  /** The loop runs in a scope of its own, which holds what the initializer declares. */
  function EvalFor(e: Expr, c: Ctx, h: Heap, n: nat): (r: Res)
    requires e.For? && WellFormed(e)
    ensures Sound(c, h, r, ExprSignals(e))
    decreases n, e, 2
  {
    hide Step;
    var d := c.(env := |h.scopes|);
    var k := Push(h, c.env, false);
    var r := EvalForIn(e, d, k, n);
    Inner(c, d, h, false, r, ExprSignals(e));
    r
  }

  function EvalForIn(e: Expr, c: Ctx, h: Heap, n: nat): (r: Res)
    requires e.For? && WellFormed(e)
    ensures Sound(c, h, r, ExprSignals(e))
    decreases n, e, 1
  {
    hide Step;
    var (v, k) :- EvalInit(e.init, c, h, n);
    var (b, l) :- EvalCond(e.fcond, c, k, n);
    StepTransitive(c, h, k, l, v, b);
    if IsTrue(b) then
      var r := EvalForRound(e, c, l, n);
      SoundThen(c, h, l, b, r, ExprSignals(e));
      r
    else
      SoundPlain(c, h, l, b, P(Null));
      Normal(P(Null), l)
  }

  /** A signal raised by the initializer is an error. */
  function EvalInit(init: Option<Item>, c: Ctx, h: Heap, n: nat): (r: Res)
    requires init.Some? ==> WellFormedItem(init.value)
    ensures Sound(c, h, r, {})
    decreases n, init
  {
    match init
    case None => StepRefl(c, h, P(Null)); Normal(P(Null), h)
    case Some(item) => NoSignal(EvalItem(item, c, h, n))
  }

  function NoSignal(r: Res): Res {
    if r.Abrupt? then Fail(SignalNotNone) else r
  }

  /** Body, update, test, and the rounds that follow while the test holds. */
  function EvalForRound(e: Expr, c: Ctx, h: Heap, n: nat): (r: Res)
    requires e.For? && WellFormed(e)
    ensures Sound(c, h, r, ExprSignals(e))
    decreases n, e, 0
  {
    hide Step;
    var r := Escape(EvalBlock(e.fbody, c, h, n), Continue);
    if !r.Normal? then Escape(r, Break)
    else
      var (u, k) :- EvalCond(e.update, c, r.h, n);
      var (v, l) :- EvalCond(e.fcond, c, k, n);
      StepTransitive(c, r.h, k, l, u, v);
      StepTransitive(c, h, r.h, l, r.v, v);
      StepValue(c, h, r.h, l, r.v, v);
      if !IsTrue(v) then Normal(r.v, l)
      else if n == 0 then Fail(OutOfFuel)
      else
        var rest := EvalForRound(e, c, l, n - 1);
        SoundThen(c, h, l, v, rest, ExprSignals(e));
        rest
  }

  /** What happens in a freshly pushed scope, seen from the scope it was pushed on. */
  lemma Inner(c: Ctx, d: Ctx, h: Heap, ofObject: bool, r: Res, may: set<Signal>)
    requires d.env == |h.scopes| && (d.inst == c.inst)
    requires Sound(d, Push(h, c.env, ofObject), r, may)
    ensures Sound(c, h, r, may)
  {
    if !r.Fail? {
      PushGood(c, h, ofObject);
      InnerStep(c, d, h, Push(h, c.env, ofObject), r.h, r.v);
    }
  }

  // ---------------------------------------------------------------------------------------------------
  // Blocks and items

  /** The items of a block, one after the other in a new scope; the last value is the block's. */
  function EvalBlock(items: seq<Item>, c: Ctx, h: Heap, n: nat): (r: Res)
    requires WellFormedItems(items)
    ensures Sound(c, h, r, ItemsSignals(items))
    decreases n, items, 1
  {
    var d := c.(env := |h.scopes|);
    var r := EvalItems(items, d, Push(h, c.env, false), n);
    Inner(c, d, h, false, r, ItemsSignals(items));
    r
  }

  function EvalItems(items: seq<Item>, c: Ctx, h: Heap, n: nat): (r: Res)
    requires WellFormedItems(items)
    ensures Sound(c, h, r, ItemsSignals(items))
    decreases n, items, 0
  {
    hide Step;
    if items == [] then StepRefl(c, h, P(Null)); Normal(P(Null), h)
    else
      var r := EvalItem(items[0], c, h, n);
      if !r.Normal? || |items| == 1 then r
      else
        var rest := EvalItems(items[1..], c, r.h, n);
        SoundThen(c, h, r.h, r.v, rest, ItemsSignals(items[1..]));
        rest
  }

  /** What is left of a block when the items before `j` are done and the latest value is `last`. */
  function FromItem(items: seq<Item>, j: nat, last: Value, c: Ctx, h: Heap, n: nat): Res
    requires WellFormedItems(items) && j <= |items|
  {
    SuffixWellFormed(items, j);
    if j == |items| then Normal(last, h) else EvalItems(items[j..], c, h, n)
  }

  lemma {:induction false} SuffixWellFormed(items: seq<Item>, j: nat)
    requires WellFormedItems(items) && j <= |items|
    ensures WellFormedItems(items[j..]) && ItemsSignals(items[j..]) <= ItemsSignals(items)
    ensures j < |items| ==> WellFormedItem(items[j]) && ItemSignals(items[j]) <= ItemsSignals(items)
  {
    if j > 0 {
      SuffixWellFormed(items[1..], j - 1);
      assert items[1..][j - 1..] == items[j..];
    } else {
      assert items[0..] == items;
    }
  }

  lemma FromItemStep(items: seq<Item>, j: nat, last: Value, c: Ctx, h: Heap, n: nat)
    requires WellFormedItems(items) && j < |items|
    ensures WellFormedItem(items[j]) && ItemSignals(items[j]) <= ItemsSignals(items)
    ensures var r := EvalItem(items[j], c, h, n);
            FromItem(items, j, last, c, h, n) == if r.Normal? then FromItem(items, j + 1, r.v, c, r.h, n) else r
  {
    SuffixWellFormed(items, j);
    assert items[j..][1..] == items[j + 1..];
  }

  lemma FromItemStart(items: seq<Item>, c: Ctx, h: Heap, n: nat)
    requires WellFormedItems(items)
    ensures FromItem(items, 0, P(Null), c, h, n) == EvalItems(items, c, h, n)
  {
    assert items[0..] == items;
  }

  function EvalItem(item: Item, c: Ctx, h: Heap, n: nat): (r: Res)
    requires WellFormedItem(item)
    ensures Sound(c, h, r, ItemSignals(item))
    decreases n, item, 1
  {
    hide Step;
    match item
    case ExprItem(e) => Eval(e, c, h, n)
    case Decl(name, ty, e) =>
      var r := Eval(e, c, h, n);
      if r.Fail? then r
      else
        CreateOk(c, r.h, name, ty, r.v, n);
        StoredSound(c, h, r.h, Create(c, r.h, name, ty, r.v, n), r.v, DeclareFailed);
        Resume(r, Stored(Create(c, r.h, name, ty, r.v, n), r.v, DeclareFailed))
    case Print(es) => EvalPrints(es, c, h, n)
    case ReturnItem(e) => Raise(EvalCarried(e, c, h, n), Return)
    case BreakItem(e) => Raise(EvalCarried(e, c, h, n), Break)
    case ContinueItem => StepRefl(c, h, P(Null)); Abrupt(Continue, P(Null), h)
    case Extend(name, members) => EvalExtend(item, c, h, n)
    case Interface(name, contract) =>
      var v := InterfaceV(TInterface(contract));
      StepRefl(c, h, v);
      CreateOk(c, h, name, TInterface(contract), v, n);
      StoredSound(c, h, h, Create(c, h, name, TInterface(contract), v, n), v, DeclareFailed);
      Stored(Create(c, h, name, TInterface(contract), v, n), v, DeclareFailed)
    case ErrorItem => StepRefl(c, h, P(Null)); Normal(P(Null), h)
  }

  function Raise(r: Res, s: Signal): Res {
    if r.Normal? then Abrupt(s, r.v, r.h) else r
  }

  /** The value carried by `return` or `break`, null when there is none. */
  function EvalCarried(e: Option<Expr>, c: Ctx, h: Heap, n: nat): (r: Res)
    requires e.Some? ==> Quiet(e.value)
    ensures Sound(c, h, r, {})
    decreases n, e
  {
    match e
    case None => StepRefl(c, h, P(Null)); Normal(P(Null), h)
    case Some(e) => Eval(e, c, h, n)
  }

  function EvalPrints(es: seq<Expr>, c: Ctx, h: Heap, n: nat): (r: Res)
    requires QuietAll(es)
    ensures Sound(c, h, r, {})
    decreases n, es
  {
    hide Step;
    if es == [] then StepRefl(c, h, P(Null)); Normal(P(Null), h)
    else
      assert Quiet(es[0]);
      var (v, k) :- Eval(es[0], c, h, n);
      match Show(k, v, n)
      case None => Fail(OutOfFuel)
      case Some(s) =>
        PrintStep(c, h, k, v, s);
        var r := EvalPrints(es[1..], c, Printed(k, s), n);
        SoundThen(c, h, Printed(k, s), P(Null), r, {});
        r
  }

  function Printed(h: Heap, s: Shown): Heap {
    h.(output := h.output + [s])
  }

  lemma PrintedAnnotated(h: Heap, s: Shown)
    ensures AllAnnotated(h) ==> AllAnnotated(Printed(h, s))
  {
    hide Annotated;
  }

  lemma PrintStep(c: Ctx, h: Heap, k: Heap, v: Value, s: Shown)
    requires Step(c, h, k, v)
    ensures Step(c, h, Printed(k, s), P(Null))
  {
    if Good(h) && CtxGood(c, h) {
      forall i | 0 <= i < |k.scopes| ensures ScopeGood(Printed(k, s), i) {
        assert ScopeGood(k, i);
        forall j | 0 <= j < |k.scopes[i].vars| ensures EnvGood(Printed(k, s), k.scopes[i].vars[j]) {
          assert EnvGood(k, k.scopes[i].vars[j]);
        }
      }
    }
  }

  /** The members of a type are declared in the scope the type's value names. */
  function EvalExtend(item: Item, c: Ctx, h: Heap, n: nat): (r: Res)
    requires item.Extend? && WellFormedItem(item)
    ensures Sound(c, h, r, {})
    decreases n, item, 0
  {
    hide Step;
    var v := Get(c, h, item.tname);
    if !v.TypeV? then Fail(NotAType)
    else
      var r := EvalMembers(item.members, c.(env := v.closure), h, n);
      ReadSound(c, h, item.tname);
      ExtendSound(c, h, v, r);
      if r.Normal? then Normal(v, r.h) else r
  }

  /** Members one after the other; a signal is an error. */
  function EvalMembers(members: seq<Item>, c: Ctx, h: Heap, n: nat): (r: Res)
    requires WellFormedItems(members)
    ensures Sound(c, h, r, {})
    decreases n, members, 0
  {
    hide Step;
    if members == [] then StepRefl(c, h, P(Null)); Normal(P(Null), h)
    else
      var (v, k) :- NoSignal(EvalItem(members[0], c, h, n));
      var r := EvalMembers(members[1..], c, k, n);
      SoundThen(c, h, k, v, r, {});
      r
  }

  lemma ExtendSound(c: Ctx, h: Heap, v: Value, r: Res)
    requires v.TypeV? && Step(c, h, h, v) && Sound(c.(env := v.closure), h, r, {})
    ensures r.Normal? ==> Step(c, h, r.h, v)
  {
    if r.Normal? && Good(h) && CtxGood(c, h) {
      ValueGoodKept(h, r.h, v);
    }
  }

  // ---------------------------------------------------------------------------------------------------
  // Functions, types, instances

  /** Bind the sugar name of a function, type or instance expression, if it has one. */
  function Named(c: Ctx, h: Heap, name: string, ty: Ty, v: Value, n: nat): Res {
    if name == "" then Normal(v, h) else Stored(Create(c, h, name, ty, v, n), v, DeclareFailed)
  }

  lemma NamedSound(c: Ctx, h: Heap, k: Heap, name: string, ty: Ty, v: Value, n: nat)
    requires Step(c, h, k, v)
    ensures Sound(c, h, Named(c, k, name, ty, v, n), {})
  {
    if name != "" {
      CreateOk(c, k, name, ty, v, n);
      StoredSound(c, h, k, Create(c, k, name, ty, v, n), v, DeclareFailed);
    }
  }

  /** A new scope that ends up as the closure of the value `v`. */
  lemma ClosureStep(c: Ctx, h: Heap, ofObject: bool, k: Heap, w: Value, v: Value)
    requires Step(c.(env := |h.scopes|), Push(h, c.env, ofObject), k, w)
    requires v == TypeV(|h.scopes|) ==> ofObject
    requires v == TypeV(|h.scopes|) || (v.FnV? && v.closure == |h.scopes| && v.instance == None)
    ensures Step(c, h, k, v)
  {
    PushGood(c, h, ofObject);
    InnerStep(c, c.(env := |h.scopes|), h, Push(h, c.env, ofObject), k, w);
    assert ScopeGrows(Push(h, c.env, ofObject).scopes[|h.scopes|], k.scopes[|h.scopes|]);
  }

  function EvalFn(e: Expr, c: Ctx, h: Heap, n: nat): (r: Res)
    requires e.FnExpr? && WellFormed(e)
    ensures Sound(c, h, r, {})
    decreases n, e, 0
  {
    hide Step;
    var r := |h.scopes|;
    var (w, k) :- EvalParams(e.params, c.(env := r), Push(h, c.env, false), n);
    var body: Body := e.body;
    var v := FnV(r, body, e.fty, None);
    ClosureStep(c, h, false, k, w, v);
    NamedSound(c, h, k, e.fname, e.fty, v, n);
    Named(c, k, e.fname, e.fty, v, n)
  }

  /** Parameters are declared in the closure scope with their default, or unknown when there is none. */
  function EvalParams(params: seq<Param>, c: Ctx, h: Heap, n: nat): (r: Res)
    requires QuietParams(params)
    ensures Sound(c, h, r, {})
    decreases n, params
  {
    hide Step;
    if params == [] then StepRefl(c, h, P(Null)); Normal(P(Null), h)
    else
      var p := params[0];
      var (v, k) :- EvalDefault(p, c, h, n);
      CreateOk(c, k, p.name, p.ty, v, n);
      StoredSound(c, h, k, Create(c, k, p.name, p.ty, v, n), v, ParamFailed);
      var (w, l) :- Stored(Create(c, k, p.name, p.ty, v, n), v, ParamFailed);
      var r := EvalParams(params[1..], c, l, n);
      SoundThen(c, h, l, w, r, {});
      r
  }

  function EvalDefault(p: Param, c: Ctx, h: Heap, n: nat): (r: Res)
    requires p.default.Some? ==> Quiet(p.default.value)
    ensures Sound(c, h, r, {})
    decreases n, p
  {
    match p.default
    case None => StepRefl(c, h, P(Unknown)); Normal(P(Unknown), h)
    case Some(e) => Eval(e, c, h, n)
  }

  function EvalType(e: Expr, c: Ctx, h: Heap, n: nat): (r: Res)
    requires e.TypeExpr? && WellFormed(e)
    ensures Sound(c, h, r, {})
    decreases n, e, 0
  {
    hide Step;
    var r := |h.scopes|;
    var (w, k) :- EvalMembers(e.members, c.(env := r), Push(h, c.env, true), n);
    var v := TypeV(r);
    ClosureStep(c, h, true, k, w, v);
    NamedSound(c, h, k, e.tname, TType, v, n);
    Named(c, k, e.tname, TType, v, n)
  }

  /** The result, if any, is `owner` again, and it stayed good. */
  predicate OwnerSound(c: Ctx, h: Heap, r: Res, owner: Value) {
    match r
    case Fail(_) => true
    case Abrupt(_, _, _) => false
    case Normal(v, k) => v == owner && Keeps(h, k) && (Step(c, h, h, owner) ==> Step(c, h, k, owner))
  }

  lemma OwnerRefl(c: Ctx, h: Heap, owner: Value)
    ensures OwnerSound(c, h, Normal(owner, h), owner)
  {
    assert Keeps(h, h);
  }

  lemma StepAtRest(c: Ctx, h: Heap, v: Value)
    ensures Step(c, h, h, v) <==> (Good(h) && CtxGood(c, h) ==> ValueGood(h, v))
  {
    assert Keeps(h, h);
  }

  lemma OwnerThen(c: Ctx, h: Heap, k: Heap, r: Res, owner: Value)
    requires OwnerSound(c, h, Normal(owner, k), owner) && OwnerSound(c, k, r, owner)
    ensures OwnerSound(c, h, r, owner)
  {
    if r.Normal? {
      KeepsTransitive(h, k, r.h);
      if Step(c, h, h, owner) {
        StepAtRest(c, k, owner);
        if Good(h) && CtxGood(c, h) {
          StepTransitive(c, h, k, r.h, owner, owner);
        }
      }
    }
  }

  /** Give the member `name` of a new instance its initial value. */
  function Initialize(owner: Value, name: string, v: Value, c: Ctx, h: Heap, n: nat): Res
    requires owner.InstV?
  {
    if IsBuiltin(owner.tyName) && name == "value" && !(v.P? && BuiltinName(v.p) == Some(owner.tyName)) then
      Fail(BadValueMember)
    else Stored(SetMember(c, h, owner, name, v, n), owner, InitFailed)
  }

  lemma InitializeSound(owner: Value, name: string, v: Value, c: Ctx, h: Heap, k: Heap, n: nat)
    requires owner.InstV? && Step(c, h, k, v)
    ensures OwnerSound(c, h, Initialize(owner, name, v, c, k, n), owner)
  {
    var u := SetMember(c, k, owner, name, v, n);
    if Initialize(owner, name, v, c, k, n).Normal? {
      SetMemberKeeps(c, k, owner, name, v, n);
      KeepsTransitive(h, k, u.h);
      StepAtRest(c, h, owner);
      if Step(c, h, h, owner) && Good(h) && CtxGood(c, h) {
        ValueGoodKept(h, k, owner);
        SetMemberOk(c, k, owner, name, v, n);
        SameNamesTransitive(h, k, u.h, Some(c.env));
        ValueGoodKept(k, u.h, owner);
      }
    }
  }

  function EvalInits(inits: seq<Init>, owner: Value, c: Ctx, h: Heap, n: nat): (r: Res)
    requires QuietInits(inits) && owner.InstV?
    ensures OwnerSound(c, h, r, owner)
    decreases n, inits, 0
  {
    hide Step, OwnerSound, Good;
    if inits == [] then OwnerRefl(c, h, owner); Normal(owner, h)
    else
      assert Quiet(inits[0].value);
      var first := EvalInit1(inits[0], owner, c, h, n);
      if !first.Normal? then first
      else
        assert first.v == owner by { NormalOwner(c, h, first, owner); }
        var r := EvalInits(inits[1..], owner, c, first.h, n);
        OwnerThen(c, h, first.h, r, owner);
        r
  }

  lemma NormalOwner(c: Ctx, h: Heap, r: Res, owner: Value)
    requires OwnerSound(c, h, r, owner) && r.Normal?
    ensures r.v == owner
  {
  }

  function EvalInit1(init: Init, owner: Value, c: Ctx, h: Heap, n: nat): (r: Res)
    requires Quiet(init.value) && owner.InstV?
    ensures OwnerSound(c, h, r, owner)
    decreases n, init
  {
    hide Step;
    var (v, k) :- Eval(init.value, c, h, n);
    InitializeSound(owner, init.name, v, c, h, k, n);
    Initialize(owner, init.name, v, c, k, n)
  }

  /** The last step of an instance: the constant `self` in its own scope, which holds the instance weakly. */
  function BindSelf(owner: Value, c: Ctx, h: Heap, n: nat): Res
    requires owner.InstV?
  {
    Stored(Create(c, h, "self", TNamed(owner.tyName), owner.(weakRef := true), n), owner, SelfFailed)
  }

  lemma BindSelfSound(owner: Value, c: Ctx, h: Heap, n: nat)
    requires owner.InstV?
    ensures OwnerSound(c, h, BindSelf(owner, c, h, n), owner)
  {
    var self := owner.(weakRef := true);
    var u := Create(c, h, "self", TNamed(owner.tyName), self, n);
    CreateOk(c, h, "self", TNamed(owner.tyName), self, n);
    if u.Written? && Step(c, h, h, owner) {
      WriteStep(c, h, h, u, owner);
    }
  }

  /** From the new instance scope back to the scope the instance was made in. */
  lemma InstanceStep(c: Ctx, d: Ctx, h: Heap, owner: Value, r: Res)
    requires d == c.(env := |h.scopes|) && owner.InstV? && owner.closure == |h.scopes|
    requires Good(h) ==> ValueGood(h, TypeV(owner.typeScope))
    requires OwnerSound(d, Push(h, c.env, true), r, owner)
    ensures r.Normal? ==> Step(c, h, r.h, owner)
  {
    var k := Push(h, c.env, true);
    PushGood(c, h, true);
    if r.Normal? {
      StepAtRest(d, k, owner);
      if Good(h) && CtxGood(c, h) {
        ValueGoodKept(h, k, TypeV(owner.typeScope));
        InnerStep(c, d, h, k, r.h, owner);
      } else {
        KeepsTransitive(h, k, r.h);
      }
    }
  }

  function EvalInst(e: Expr, c: Ctx, h: Heap, n: nat): (r: Res)
    requires e.InstExpr? && WellFormed(e)
    ensures Sound(c, h, r, {})
    decreases n, e, 0
  {
    hide Step, OwnerSound, Good;
    var t := Get(c, h, e.ity);
    if !t.TypeV? then Fail(NotAType)
    else
      var d := c.(env := |h.scopes|);
      var owner := InstV(|h.scopes|, t.closure, e.ity, false);
      var r := EvalInstIn(e, owner, d, Push(h, c.env, true), n);
      InstanceOf(c, h, e.ity, owner, r);
      if !r.Normal? then r
      else
        NamedSound(c, h, r.h, e.iname, TNamed(e.ity), owner, n);
        Named(c, r.h, e.iname, TNamed(e.ity), owner, n)
  }

  lemma InstanceOf(c: Ctx, h: Heap, ity: string, owner: Value, r: Res)
    requires Get(c, h, ity).TypeV? && owner == InstV(|h.scopes|, Get(c, h, ity).closure, ity, false)
    requires OwnerSound(c.(env := |h.scopes|), Push(h, c.env, true), r, owner)
    ensures r.Normal? ==> Step(c, h, r.h, owner)
    ensures !r.Abrupt?
  {
    if Good(h) {
      GetIsGood(c, h, ity);
    }
    InstanceStep(c, c.(env := |h.scopes|), h, owner, r);
  }

  function EvalInstIn(e: Expr, owner: Value, c: Ctx, h: Heap, n: nat): (r: Res)
    requires e.InstExpr? && WellFormed(e) && owner.InstV?
    ensures OwnerSound(c, h, r, owner)
    decreases n, e.inits, 1
  {
    hide Step, OwnerSound, Good;
    var inits := EvalInits(e.inits, owner, c, h, n);
    if !inits.Normal? then inits
    else
      NormalOwner(c, h, inits, owner);
      BindSelfSound(owner, c, inits.h, n);
      OwnerThen(c, h, inits.h, BindSelf(owner, c, inits.h, n), owner);
      BindSelf(owner, c, inits.h, n)
  }

  /** Member access on a primitive goes through a throw-away instance of its builtin type. */
  function Boxed(v: Value, c: Ctx, h: Heap, n: nat): Res {
    if v.TypeV? || v.InstV? then Normal(v, h)
    else if v.P? && BuiltinName(v.p).Some? then
      var ity := BuiltinName(v.p).value;
      var t := Get(c, h, ity);
      if !t.TypeV? then Fail(NotAType)
      else BoxIn(v, InstV(|h.scopes|, t.closure, ity, false), c.(env := |h.scopes|), Push(h, c.env, true), n)
    else Fail(NoMember)
  }

  function BoxIn(v: Value, owner: Value, c: Ctx, h: Heap, n: nat): Res
    requires owner.InstV?
  {
    var (w, k) :- Initialize(owner, "value", v, c, h, n);
    BindSelf(owner, c, k, n)
  }

  lemma BoxInSound(v: Value, owner: Value, c: Ctx, h: Heap, n: nat)
    requires owner.InstV? && (v.P? || v.InterfaceV?)
    ensures OwnerSound(c, h, BoxIn(v, owner, c, h, n), owner)
  {
    var first := Initialize(owner, "value", v, c, h, n);
    StepRefl(c, h, v);
    InitializeSound(owner, "value", v, c, h, h, n);
    if first.Normal? {
      BindSelfSound(owner, c, first.h, n);
      OwnerThen(c, h, first.h, BindSelf(owner, c, first.h, n), owner);
    }
  }

  lemma BoxedSound(v: Value, c: Ctx, h: Heap, n: nat)
    requires Good(h) && CtxGood(c, h) ==> ValueGood(h, v)
    ensures Sound(c, h, Boxed(v, c, h, n), {})
  {
    if v.TypeV? || v.InstV? {
      StepRefl(c, h, v);
    } else if v.P? && BuiltinName(v.p).Some? && Get(c, h, BuiltinName(v.p).value).TypeV? {
      var ity := BuiltinName(v.p).value;
      var d, k := c.(env := |h.scopes|), Push(h, c.env, true);
      var owner := InstV(|h.scopes|, Get(c, h, ity).closure, ity, false);
      BoxInSound(v, owner, d, k, n);
      InstanceOf(c, h, ity, owner, BoxIn(v, owner, d, k, n));
    }
  }

  function EvalMember(e: Expr, c: Ctx, h: Heap, n: nat): (r: Res)
    requires e.Member? && WellFormed(e)
    ensures Sound(c, h, r, {})
    decreases n, e, 0
  {
    hide Step;
    assert Quiet(e.owner);
    var (v, k) :- Eval(e.owner, c, h, n);
    assert Good(k) && CtxGood(c, k) ==> true;
    var (b, l) :- Boxed(v, c, k, n);
    MemberSound(c, h, k, v, n, e.field);
    var m := GetMember(l, b, e.field);
    if m == P(Unknown) then Fail(NoMember) else Normal(Bound(b, m), l)
  }

  /** A function read from an instance carries the instance's scope. */
  function Bound(owner: Value, m: Value): Value {
    if owner.InstV? && m.FnV? then m.(instance := Some(owner.closure)) else m
  }

  lemma MemberSound(c: Ctx, h: Heap, k: Heap, v: Value, n: nat, field: string)
    requires Step(c, h, k, v)
    ensures var b := Boxed(v, c, k, n);
            b.Normal? ==> Step(c, h, b.h, Bound(b.v, GetMember(b.h, b.v, field)))
    ensures !Boxed(v, c, k, n).Abrupt?
  {
    var b := Boxed(v, c, k, n);
    if b.Normal? {
      BoxedKeeps(v, c, k, n);
      KeepsTransitive(h, k, b.h);
      if Good(h) && CtxGood(c, h) {
        BoxedSound(v, c, k, n);
        StepTransitive(c, h, k, b.h, v, b.v);
        GetMemberIsGood(b.h, b.v, field);
      }
    }
  }

  lemma BoxedKeeps(v: Value, c: Ctx, h: Heap, n: nat)
    ensures Boxed(v, c, h, n).Normal? ==> Keeps(h, Boxed(v, c, h, n).h)
  {
    if v.P? {
      BoxedSound(v, c, h, n);
    }
    assert Keeps(h, h);
  }

  // ---------------------------------------------------------------------------------------------------
  // Calls

  /** Where the function `f` runs when it is called from `c`: in a new parameter scope, with its instance. */
  function CalleeCtx(c: Ctx, k: Heap, f: Value): Ctx
    requires f.FnV?
  {
    Ctx(|k.scopes|, Receiver(c.ops, k, f.instance), c.ops)
  }

  function CalleeStore(c: Ctx, k: Heap, f: Value): Heap
    requires f.FnV?
  {
    Push(CountCall(k, f.instance), c.env, false)
  }

  /**
  The parameter scope is a child of the caller's scope while the arguments are evaluated in it, and a child of
  the closure while the body runs below it. The callee's instance is in force throughout.
  */
  function EvalCall(e: Expr, c: Ctx, h: Heap, n: nat): (r: Res)
    requires e.Call? && WellFormed(e)
    ensures Sound(c, h, r, {})
    decreases n, e, 0
  {
    hide Step, Good, Keeps;
    assert Quiet(e.callee);
    var (f, k) :- Eval(e.callee, c, h, n);
    if !f.FnV? then Fail(NotAFunction)
    else
      var d := CalleeCtx(c, k, f);
      var p := EvalBinding(e.args, f.closure, d, CalleeStore(c, k, f), n);
      if !p.Normal? then p
      else if n == 0 then Fail(OutOfFuel)
      else
        var m := SetParent(p.h, d.env, f.closure);
        var r := EvalBlock(f.body, d, m, n - 1);
        CallSound(c, h, k, f, d, p, r);
        Escape(r, Return)
  }

  /** All of the parameter scope's bindings: the arguments, then the defaults of what they leave out. */
  function EvalBinding(args: seq<Expr>, closure: Ref, c: Ctx, h: Heap, n: nat): (r: Res)
    requires QuietArgs(args, false) && c.env < |h.scopes|
    ensures Sound(c, h, r, {}) && (r.Normal? ==> c.env < |r.h.scopes|)
    decreases n, args, 1
  {
    hide Step;
    var count := |Vars(h, closure)|;
    if count < |args| then Fail(ParamCount)
    else
      var (v, k) :- EvalArgs(args, 0, closure, false, c, h, n);
      FillSound(closure, 0, count, c, k, n);
      SoundThen(c, h, k, v, FillDefaults(closure, 0, count, c, k, n), {});
      BindingGrows(c, h, FillDefaults(closure, 0, count, c, k, n));
      FillDefaults(closure, 0, count, c, k, n)
  }

  lemma BindingGrows(c: Ctx, h: Heap, r: Res)
    requires Sound(c, h, r, {})
    ensures r.Normal? ==> |h.scopes| <= |r.h.scopes|
  {
  }

  /** Argument `i` and the following ones, each evaluated with the bindings made so far in view. */
  function EvalArgs(args: seq<Expr>, i: nat, closure: Ref, named: bool, c: Ctx, h: Heap, n: nat): (r: Res)
    requires QuietArgs(args, named)
    ensures Sound(c, h, r, {})
    decreases n, args, 0
  {
    hide Step;
    if args == [] then StepRefl(c, h, P(Null)); Normal(P(Null), h)
    else
      assert QuietArg(args[0]);
      var first := EvalArg(args[0], i, closure, c, h, n);
      if !first.Normal? then first
      else
        var r := EvalArgs(args[1..], i + 1, closure, args[0].Assign?, c, first.h, n);
        SoundThen(c, h, first.h, first.v, r, {});
        r
  }

  /** The callee's binding an argument is for: by name, or the `i`-th. */
  function ParamFor(a: Expr, i: nat, closure: Ref, h: Heap): Option<Env>
    requires QuietArg(a)
  {
    if a.Assign? then
      if Has(h, closure, a.target.name) then Some(Binding(h, closure, a.target.name)) else None
    else if i < |Vars(h, closure)| then Some(Vars(h, closure)[i]) else None
  }

  function EvalArg(a: Expr, i: nat, closure: Ref, c: Ctx, h: Heap, n: nat): (r: Res)
    requires QuietArg(a)
    ensures Sound(c, h, r, {})
    decreases n, a, 4
  {
    hide Step;
    match ParamFor(a, i, closure, h)
    case None => Fail(NoSuchParam)
    case Some(p) =>
      assert Quiet(if a.Assign? then a.value else a);
      var (v, k) :- if a.Assign? then Eval(a.value, c, h, n) else Eval(a, c, h, n);
      CreateOk(c, k, p.name, p.ty, v, n);
      StoredSound(c, h, k, Create(c, k, p.name, p.ty, v, n), v, ParamFailed);
      Stored(Create(c, k, p.name, p.ty, v, n), v, ParamFailed)
  }

  /** Parameters without an argument take their default; one without a default is an error. */
  function FillDefaults(closure: Ref, i: nat, count: nat, c: Ctx, h: Heap, n: nat): Res
    decreases count - i
  {
    if i >= count || i >= |Vars(h, closure)| then Normal(P(Null), h)
    else
      var p := Vars(h, closure)[i];
      if Has(h, c.env, p.name) then FillDefaults(closure, i + 1, count, c, h, n)
      else if p.value == P(Unknown) then Fail(ParamMissing)
      else
        var (v, k) :- Stored(Create(c, h, p.name, p.ty, p.value, n), p.value, ParamFailed);
        FillDefaults(closure, i + 1, count, c, k, n)
  }

  lemma {:induction false} FillSound(closure: Ref, i: nat, count: nat, c: Ctx, h: Heap, n: nat)
    ensures Sound(c, h, FillDefaults(closure, i, count, c, h, n), {})
    decreases count - i
  {
    if i >= count || i >= |Vars(h, closure)| {
      StepRefl(c, h, P(Null));
    } else {
      var p := Vars(h, closure)[i];
      if Has(h, c.env, p.name) {
        FillSound(closure, i + 1, count, c, h, n);
      } else {
        var u := Create(c, h, p.name, p.ty, p.value, n);
        if u.Written? {
          if Good(h) {
            assert ScopeGood(h, closure);
            assert EnvGood(h, p);
          }
          StepRefl(c, h, p.value);
          CreateOk(c, h, p.name, p.ty, p.value, n);
          WriteStep(c, h, h, u, p.value);
          FillSound(closure, i + 1, count, c, u.h, n);
          SoundThen(c, h, u.h, p.value, FillDefaults(closure, i + 1, count, c, u.h, n), {});
        }
      }
    }
  }

  lemma CountedIsSame(k: Heap, instance: Option<Ref>)
    ensures Good(CountCall(k, instance)) <==> Good(k)
  {
    var l := CountCall(k, instance);
    forall i | 0 <= i < |k.scopes| ensures ScopeGood(l, i) <==> ScopeGood(k, i) {
      assert l.scopes[i] == k.scopes[i];
      forall j | 0 <= j < |k.scopes[i].vars|
        ensures EnvGood(l, l.scopes[i].vars[j]) <==> EnvGood(k, k.scopes[i].vars[j])
      {
      }
    }
  }

  /** Re-parenting the parameter scope below the closure, which is older than it. */
  lemma Reparent(c: Ctx, k: Heap, f: Value, d: Ctx, l: Heap, w: Value)
    requires f.FnV? && d == CalleeCtx(c, k, f) && d.env < |l.scopes|
    requires Step(d, CalleeStore(c, k, f), l, w)
    ensures Keeps(k, SetParent(l, d.env, f.closure))
    ensures Good(k) && CtxGood(c, k) && ValueGood(k, f) ==>
              && SameNames(k, SetParent(l, d.env, f.closure), None)
              && Good(SetParent(l, d.env, f.closure)) && CtxGood(d, SetParent(l, d.env, f.closure))
  {
    var k0, m := CalleeStore(c, k, f), SetParent(l, d.env, f.closure);
    CountedIsSame(k, f.instance);
    PushGood(c, CountCall(k, f.instance), false);
    forall i | 0 <= i < |k.scopes| ensures ScopeGrows(k.scopes[i], m.scopes[i]) {
      assert ScopeGrows(k0.scopes[i], l.scopes[i]);
    }
    if Good(k) && CtxGood(c, k) && ValueGood(k, f) {
      forall i | 0 <= i < |m.scopes| ensures ScopeGood(m, i) {
        assert ScopeGood(l, i);
        forall j | 0 <= j < |m.scopes[i].vars| ensures EnvGood(m, m.scopes[i].vars[j]) {
          assert EnvGood(l, l.scopes[i].vars[j]);
        }
      }
    }
  }

  /** The call as a whole, seen from the caller. */
  lemma CallSound(c: Ctx, h: Heap, k: Heap, f: Value, d: Ctx, p: Res, r: Res)
    requires Step(c, h, k, f) && f.FnV? && d == CalleeCtx(c, k, f)
    requires Sound(d, CalleeStore(c, k, f), p, {}) && p.Normal? && d.env < |p.h.scopes|
    requires Sound(d, SetParent(p.h, d.env, f.closure), r, {Return})
    ensures Sound(c, h, Escape(r, Return), {})
  {
    if !r.Fail? {
      var m := SetParent(p.h, d.env, f.closure);
      Reparent(c, k, f, d, p.h, p.v);
      KeepsTransitive(k, m, r.h);
      if Good(h) && CtxGood(c, h) {
        InnerStep(c, d, k, m, r.h, r.v);
        StepTransitive(c, h, k, r.h, f, r.v);
      } else {
        KeepsTransitive(h, k, r.h);
      }
    }
  }

  // ---------------------------------------------------------------------------------------------------
  // Programs

  /** Top-level items one after the other, until the first error or stray signal. */
  function Run(program: seq<Item>, c: Ctx, h: Heap, n: nat): Res
    requires WellFormedItems(program)
  {
    if program == [] then Normal(P(Null), h)
    else
      var (v, k) :- EvalItem(program[0], c, h, n);
      Run(program[1..], c, k, n)
  }
}
