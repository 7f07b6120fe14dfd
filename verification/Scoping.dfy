/** What the reference semantics, and with it the interpreter, guarantees over whole evaluations. */
module Scoping {
  import opened Wrappers
  import opened Types
  import opened Syntax
  import opened Store
  import opened StoreFacts
  import opened Reference

  // ---------------------------------------------------------------------------------------------------
  // Signals

  /** Calls let no signal out, loops only `return`, and a bare block never `break`. */
  lemma SignalDiscipline(e: Expr, c: Ctx, h: Heap, n: nat)
    requires WellFormed(e) && Eval(e, c, h, n).Abrupt?
    ensures !e.Call?
    ensures e.While? || e.DoWhile? || e.For? ==> Eval(e, c, h, n).signal == Return
    ensures e.Block? ==> Eval(e, c, h, n).signal != Break
  {
    hide Step;
    assert Eval(e, c, h, n).signal in ExprSignals(e);
  }

  // ---------------------------------------------------------------------------------------------------
  // Names

  /** Does the expression bind a name in the scope it is evaluated in? */
  predicate Declares(e: Expr) {
    match e
    case Unary(_, a) => Declares(a)
    case Binary(_, l, r) => Declares(l) || Declares(r)
    case Assign(target, value) => Declares(value) || (target.Member? && Declares(target.owner))
    case Compound(_, _, value) => Declares(value)
    case If(cond, _, els) => Declares(cond) || (els.Some? && Declares(els.value))
    case While(cond, _) => Declares(cond)
    case DoWhile(cond, _) => Declares(cond)
    case FnExpr(_, _, name, _) => name != ""
    case TypeExpr(_, name) => name != ""
    case InstExpr(_, _, name) => name != ""
    case Call(callee, _) => Declares(callee)
    case Member(owner, _) => Declares(owner)
    case _ => false
  }

  /** No plain scope gains a name. */
  predicate Local(h: Heap, r: Res) {
    r.Fail? || (Keeps(h, r.h) && SameNames(h, r.h, None))
  }

  lemma LocalThen(h: Heap, k: Heap, v: Value, r: Res)
    requires Local(h, Normal(v, k)) && Local(k, r)
    ensures Local(h, r)
  {
    if !r.Fail? {
      KeepsTransitive(h, k, r.h);
      SameNamesTransitive(h, k, r.h, None);
    }
  }

  predicate Ready(c: Ctx, h: Heap) {
    Good(h) && CtxGood(c, h)
  }

  lemma StillReady(c: Ctx, h: Heap, r: Res, may: set<Signal>)
    requires Ready(c, h) && Sound(c, h, r, may)
    ensures !r.Fail? ==> Ready(c, r.h) && ValueGood(r.h, r.v)
  {
  }

  lemma LocalInner(c: Ctx, d: Ctx, h: Heap, ofObject: bool, r: Res, may: set<Signal>)
    requires Ready(c, h) && d == c.(env := |h.scopes|) && Sound(d, Push(h, c.env, ofObject), r, may)
    ensures Local(h, r)
  {
    PushGood(c, h, ofObject);
    if !r.Fail? {
      InnerStep(c, d, h, Push(h, c.env, ofObject), r.h, r.v);
    }
  }

  /** A block leaves the names of every existing plain scope alone, the current one included. */
  lemma BlockLocal(items: seq<Item>, c: Ctx, h: Heap, n: nat)
    requires WellFormedItems(items) && Ready(c, h)
    ensures Local(h, EvalBlock(items, c, h, n))
  {
    var d := c.(env := |h.scopes|);
    LocalInner(c, d, h, false, EvalItems(items, d, Push(h, c.env, false), n), ItemsSignals(items));
  }

  lemma SetLocal(c: Ctx, h: Heap, name: string, v: Value, n: nat, e: Error)
    ensures Local(h, Stored(Set(c, h, name, v, n), v, e))
  {
    var at := Lookup(c, h, name);
    if at.Some? {
      SetVarGood(h, at.value, Find(h.scopes[at.value].vars, name), v);
    }
  }

  lemma SetMemberLocal(c: Ctx, h: Heap, owner: Value, name: string, v: Value, n: nat, e: Error)
    requires ValueGood(h, owner)
    ensures Local(h, Stored(SetMember(c, h, owner, name, v, n), v, e))
  {
    var u := SetMember(c, h, owner, name, v, n);
    if u.Written? {
      var r := MemberAt(h, owner, name).value;
      if r == owner.closure {
        SetVarGood(h, r, Find(h.scopes[r].vars, name), v);
      } else {
        AddVarGood(h, owner.closure, Env(Binding(h, r, name).name, Binding(h, r, name).ty, v));
      }
    }
  }

  lemma LocalRefl(h: Heap, v: Value)
    ensures Local(h, Normal(v, h))
  {
  }

  /** An expression that declares nothing leaves the names of every plain scope alone. */
  lemma {:induction false} ExpressionLocal(e: Expr, c: Ctx, h: Heap, n: nat)
    requires WellFormed(e) && !Declares(e) && Ready(c, h)
    ensures Local(h, Eval(e, c, h, n))
    decreases n, e, 1
  {
    hide Step, Local, Good, CtxGood;
    match e {
      case Lit(p) => LocalRefl(h, P(p));
      case Inert => LocalRefl(h, P(Null));
      case Ident(name) => LocalRefl(h, Get(c, h, name));
      case Self => LocalRefl(h, Get(c, h, "self")); LocalFail(h, SelfError);
      case Unary(op, a) =>
        assert Quiet(a);
        ExpressionLocal(a, c, h, n);
        LocalValue(h, Eval(a, c, h, n));
      case Binary(_, l, r) =>
        BinaryLocal(e, c, h, n);
      case Assign(_, _) => AssignLocal(e, c, h, n);
      case Compound(_, name, value) =>
        assert Quiet(value);
        ExpressionLocal(value, c, h, n);
        var r := Eval(value, c, h, n);
        StillReady(c, h, r, {});
        LocalFail(h, OutOfFuel);
        if r.Normal? {
          var w := P(c.ops.binary(e.cop, Get(c, h, name), r.v));
          SetLocal(c, r.h, name, w, n, SetFailed);
          LocalThen(h, r.h, r.v, Stored(Set(c, r.h, name, w, n), w, SetFailed));
        }
      case If(_, _, _) => IfLocal(e, c, h, n);
      case While(_, _) => WhileLocal(e, c, h, n);
      case DoWhile(_, _) => WhileLocal(e, c, h, n);
      case For(_, _, _, _) =>
        var d := c.(env := |h.scopes|);
        LocalInner(c, d, h, false, EvalForIn(e, d, Push(h, c.env, false), n), ExprSignals(e));
      case FnExpr(_, _, _, _) =>
        var d := c.(env := |h.scopes|);
        var r := EvalParams(e.params, d, Push(h, c.env, false), n);
        LocalInner(c, d, h, false, r, {});
        LocalValue(h, r);
      case TypeExpr(_, _) =>
        var d := c.(env := |h.scopes|);
        var r := EvalMembers(e.members, d, Push(h, c.env, true), n);
        LocalInner(c, d, h, true, r, {});
        LocalValue(h, r);
      case InstExpr(_, _, _) => InstanceLocal(e, c, h, n);
      case Block(items) =>
        BlockLocal(items, c, h, n);
        LocalValue(h, EvalBlock(items, c, h, n));
      case Call(_, _) => CallLocal(e, c, h, n);
      case Member(_, _) => MemberLocal(e, c, h, n);
    }
  }

  lemma LocalFail(h: Heap, e: Error)
    ensures Local(h, Fail(e))
  {
  }

  /** Locality does not look at the value or at the kind of outcome. */
  lemma LocalValue(h: Heap, r: Res)
    requires Local(h, r)
    ensures !r.Fail? ==> forall v :: Local(h, Normal(v, r.h))
    ensures !r.Fail? ==> forall s, v :: Local(h, Abrupt(s, v, r.h))
    ensures forall e :: Local(h, Fail(e))
  {
  }

  lemma BinaryLocal(e: Expr, c: Ctx, h: Heap, n: nat)
    requires e.Binary? && WellFormed(e) && !Declares(e) && Ready(c, h)
    ensures Local(h, EvalBinary(e, c, h, n))
    decreases n, e, 0
  {
    hide Step, Local, Good, CtxGood;
    assert Quiet(e.left) && Quiet(e.right);
    ExpressionLocal(e.left, c, h, n);
    var r := Eval(e.left, c, h, n);
    LocalValue(h, r);
    if r.Normal? {
      StillReady(c, h, r, {});
      ExpressionLocal(e.right, c, r.h, n);
      var s := Eval(e.right, c, r.h, n);
      LocalThen(h, r.h, r.v, s);
      LocalValue(h, s);
    }
  }

  lemma AssignLocal(e: Expr, c: Ctx, h: Heap, n: nat)
    requires e.Assign? && WellFormed(e) && !Declares(e) && Ready(c, h)
    ensures Local(h, EvalAssign(e, c, h, n))
    decreases n, e, 0
  {
    hide Step, Local, Good, CtxGood;
    assert e.target.Member? ==> Quiet(e.target.owner) && Quiet(e.value);
    ExpressionLocal(e.value, c, h, n);
    var r := Eval(e.value, c, h, n);
    LocalValue(h, r);
    if !r.Fail? {
      StillReady(c, h, r, ExprSignals(e.value));
      if e.target.Ident? {
        var s := Stored(Set(c, r.h, e.target.name, r.v, n), r.v, SetFailed);
        SetLocal(c, r.h, e.target.name, r.v, n, SetFailed);
        LocalThen(h, r.h, r.v, s);
        LocalValue(h, s);
      } else {
        ExpressionLocal(e.target.owner, c, r.h, n);
        var o := Eval(e.target.owner, c, r.h, n);
        LocalThen(h, r.h, r.v, o);
        if o.Normal? {
          StillReady(c, r.h, o, {});
          SetMemberLocal(c, o.h, o.v, e.target.field, r.v, n, SetFailed);
          LocalThen(h, o.h, o.v, Stored(SetMember(c, o.h, o.v, e.target.field, r.v, n), r.v, SetFailed));
        }
      }
    }
  }

  lemma IfLocal(e: Expr, c: Ctx, h: Heap, n: nat)
    requires e.If? && WellFormed(e) && !Declares(e) && Ready(c, h)
    ensures Local(h, EvalIf(e, c, h, n))
    decreases n, e, 0
  {
    hide Step, Local, Good, CtxGood;
    assert Quiet(e.cond);
    ExpressionLocal(e.cond, c, h, n);
    var r := Eval(e.cond, c, h, n);
    LocalValue(h, r);
    if r.Normal? {
      StillReady(c, h, r, {});
      if IsTrue(r.v) {
        BlockLocal(e.thenItems, c, r.h, n);
        LocalThen(h, r.h, r.v, EvalBlock(e.thenItems, c, r.h, n));
      } else if e.els.Some? {
        if e.els.value.If? {
          IfLocal(e.els.value, c, r.h, n);
        } else {
          BlockLocal(e.els.value.items, c, r.h, n);
        }
        LocalThen(h, r.h, r.v, EvalElse(e.els.value, c, r.h, n));
      }
    }
  }

  lemma WhileLocal(e: Expr, c: Ctx, h: Heap, n: nat)
    requires (e.While? || e.DoWhile?) && WellFormed(e) && !Declares(e) && Ready(c, h)
    ensures Local(h, EvalWhile(e, c, h, n))
    decreases n, e, 0
  {
    hide Step, Local, Good, CtxGood;
    assert Quiet(e.wcond);
    if e.DoWhile? {
      RoundLocal(e, c, h, n);
    } else {
      ExpressionLocal(e.wcond, c, h, n);
      var r := Eval(e.wcond, c, h, n);
      LocalValue(h, r);
      if r.Normal? {
        StillReady(c, h, r, {});
        RoundLocal(e, c, r.h, n);
        LocalThen(h, r.h, r.v, EvalRound(e, c, r.h, n));
      }
    }
  }

  lemma RoundLocal(e: Expr, c: Ctx, h: Heap, n: nat)
    requires (e.While? || e.DoWhile?) && WellFormed(e) && !Declares(e) && Ready(c, h)
    ensures Local(h, EvalRound(e, c, h, n))
    decreases n, e.wcond, 5
  {
    hide Step, Local, Good, CtxGood;
    assert Quiet(e.wcond);
    BlockLocal(e.wbody, c, h, n);
    var b := EvalBlock(e.wbody, c, h, n);
    LocalValue(h, b);
    var r := Escape(b, Continue);
    if r.Normal? {
      StillReady(c, h, b, ItemsSignals(e.wbody));
      ExpressionLocal(e.wcond, c, r.h, n);
      var t := Eval(e.wcond, c, r.h, n);
      LocalThen(h, r.h, r.v, t);
      LocalValue(h, t);
      if t.Normal? && n > 0 {
        StillReady(c, r.h, t, {});
        RoundLocal(e, c, t.h, n - 1);
        LocalThen(h, t.h, t.v, EvalRound(e, c, t.h, n - 1));
      }
    }
  }

  lemma InstanceLocal(e: Expr, c: Ctx, h: Heap, n: nat)
    requires e.InstExpr? && e.iname == "" && WellFormed(e) && Ready(c, h)
    ensures Local(h, EvalInst(e, c, h, n))
  {
    var t := Get(c, h, e.ity);
    if t.TypeV? {
      GetIsGood(c, h, e.ity);
      var owner := InstV(|h.scopes|, t.closure, e.ity, false);
      OwnerLocal(c, h, owner, EvalInstIn(e, owner, c.(env := |h.scopes|), Push(h, c.env, true), n));
    }
  }

  lemma OwnerLocal(c: Ctx, h: Heap, owner: Value, r: Res)
    requires Ready(c, h) && owner.InstV? && owner.closure == |h.scopes| && ValueGood(h, TypeV(owner.typeScope))
    requires OwnerSound(c.(env := |h.scopes|), Push(h, c.env, true), r, owner)
    ensures Local(h, r)
  {
    var d, k := c.(env := |h.scopes|), Push(h, c.env, true);
    PushGood(c, h, true);
    if r.Normal? {
      ValueGoodKept(h, k, TypeV(owner.typeScope));
      StepAtRest(d, k, owner);
      InnerStep(c, d, h, k, r.h, owner);
    }
  }

  lemma MemberLocal(e: Expr, c: Ctx, h: Heap, n: nat)
    requires e.Member? && WellFormed(e) && !Declares(e) && Ready(c, h)
    ensures Local(h, EvalMember(e, c, h, n))
    decreases n, e, 0
  {
    hide Step, Local, Good, CtxGood;
    assert Quiet(e.owner);
    ExpressionLocal(e.owner, c, h, n);
    var r := Eval(e.owner, c, h, n);
    LocalValue(h, r);
    if r.Normal? {
      StillReady(c, h, r, {});
      BoxedLocal(r.v, c, r.h, n);
      LocalThen(h, r.h, r.v, Boxed(r.v, c, r.h, n));
      LocalValue(h, Boxed(r.v, c, r.h, n));
    }
  }

  lemma BoxedLocal(v: Value, c: Ctx, h: Heap, n: nat)
    requires Ready(c, h)
    ensures Local(h, Boxed(v, c, h, n))
  {
    if v.P? && BuiltinName(v.p).Some? && Get(c, h, BuiltinName(v.p).value).TypeV? {
      var ity := BuiltinName(v.p).value;
      var owner := InstV(|h.scopes|, Get(c, h, ity).closure, ity, false);
      GetIsGood(c, h, ity);
      BoxInSound(v, owner, c.(env := |h.scopes|), Push(h, c.env, true), n);
      OwnerLocal(c, h, owner, BoxIn(v, owner, c.(env := |h.scopes|), Push(h, c.env, true), n));
    }
  }

  lemma CallLocal(e: Expr, c: Ctx, h: Heap, n: nat)
    requires e.Call? && WellFormed(e) && !Declares(e) && Ready(c, h)
    ensures Local(h, EvalCall(e, c, h, n))
    decreases n, e, 0
  {
    hide Step, Local, Good, CtxGood;
    assert Quiet(e.callee);
    ExpressionLocal(e.callee, c, h, n);
    var f := Eval(e.callee, c, h, n);
    LocalValue(h, f);
    if f.Normal? && f.v.FnV? {
      StillReady(c, h, f, {});
      var d := CalleeCtx(c, f.h, f.v);
      var p := EvalBinding(e.args, f.v.closure, d, CalleeStore(c, f.h, f.v), n);
      SoundQuiet(d, CalleeStore(c, f.h, f.v), p);
      if p.Normal? && n > 0 {
        BodyLocal(c, f.h, f.v, d, p, n);
        LocalThen(h, f.h, f.v, EvalBlock(f.v.body, d, SetParent(p.h, d.env, f.v.closure), n - 1));
        LocalValue(h, EvalBlock(f.v.body, d, SetParent(p.h, d.env, f.v.closure), n - 1));
      }
    }
  }

  lemma BodyLocal(c: Ctx, k: Heap, f: Value, d: Ctx, p: Res, n: nat)
    requires Ready(c, k) && f.FnV? && ValueGood(k, f) && d == CalleeCtx(c, k, f) && n > 0
    requires Sound(d, CalleeStore(c, k, f), p, {}) && p.Normal? && d.env < |p.h.scopes|
    ensures Local(k, EvalBlock(f.body, d, SetParent(p.h, d.env, f.closure), n - 1))
  {
    var m := SetParent(p.h, d.env, f.closure);
    Reparent(c, k, f, d, p.h, p.v);
    var r := EvalBlock(f.body, d, m, n - 1);
    if !r.Fail? {
      InnerStep(c, d, k, m, r.h, r.v);
    }
  }

  // ---------------------------------------------------------------------------------------------------
  // Annotations over whole runs

  lemma {:induction false} RunIsGood(program: seq<Item>, c: Ctx, h: Heap, n: nat)
    requires WellFormedItems(program) && Ready(c, h)
    ensures Run(program, c, h, n).Normal? ==> Good(Run(program, c, h, n).h)
  {
    if program != [] {
      var r := EvalItem(program[0], c, h, n);
      if r.Normal? {
        RunIsGood(program[1..], c, r.h, n);
      }
    }
  }

  /**
  What annotation safety says of one binding: a builtin type or a function type holds null, unknown, or something
  that annotation admits.
  */
  lemma AnnotationsHold(h: Heap, r: Ref, j: nat)
    requires AllAnnotated(h) && r < |h.scopes| && j < |h.scopes[r].vars|
    ensures var b := h.scopes[r].vars[j];
            var v := b.value;
            v != P(Unknown) && v != P(Null) ==>
              && (b.ty == TNamed("int") && v.P? ==> v.p.Int?)
              && (b.ty == TNamed("float") && v.P? ==> v.p.Float?)
              && (b.ty == TNamed("bool") && v.P? ==> v.p.Bool?)
              && (b.ty == TNamed("str") && v.P? ==> v.p.Str?)
              && (b.ty.TNamed? && IsBuiltin(b.ty.name) ==> !v.FnV? && !v.InterfaceV?)
              && (b.ty.TFn? ==> v.FnV? && v.ty == b.ty)
              && (b.ty.TType? ==> v.TypeV?)
  {
    assert Annotated(h.scopes[r].vars[j].ty, h.scopes[r].vars[j].value);
  }

  // ---------------------------------------------------------------------------------------------------
  // Lookup in methods

  /** The parameters of a call, bound in the parameter scope. */
  function BoundCall(e: Expr, c: Ctx, h: Heap, n: nat): Res
    requires e.Call? && WellFormed(e) && Quiet(e.callee)
    requires Eval(e.callee, c, h, n).Normal? && Eval(e.callee, c, h, n).v.FnV?
  {
    var (f, k) := (Eval(e.callee, c, h, n).v, Eval(e.callee, c, h, n).h);
    EvalBinding(e.args, f.closure, CalleeCtx(c, k, f), CalleeStore(c, k, f), n)
  }

  /**
  A call of a method, that is of a function with an instance `i`, whose parameters have been bound in `p`. The body
  starts in a fresh scope. There a parameter's name means the parameter exactly when the instance does not have that
  name, or has died before the call: a field hides a parameter of the same name.
  */
  lemma FieldHidesParameter(e: Expr, c: Ctx, h: Heap, n: nat, i: Ref, name: string)
    requires e.Call? && WellFormed(e) && Quiet(e.callee) && Ready(c, h) && n > 0
    requires Eval(e.callee, c, h, n).Normal? && Eval(e.callee, c, h, n).v.FnV?
    requires Eval(e.callee, c, h, n).v.instance == Some(i)
    requires BoundCall(e, c, h, n).Normal? && Has(BoundCall(e, c, h, n).h, |Eval(e.callee, c, h, n).h.scopes|, name)
    ensures var (f, k) := (Eval(e.callee, c, h, n).v, Eval(e.callee, c, h, n).h);
            var p := |k.scopes|;
            var m := SetParent(BoundCall(e, c, h, n).h, p, f.closure);
            var start, b := Push(m, p, false), CalleeCtx(c, k, f).(env := |m.scopes|);
            var at := Lookup(b, start, name);
            && EvalCall(e, c, h, n) == Escape(EvalItems(f.body, b, start, n - 1), Return)
            && i < p && at == Some(if !c.ops.gone(k.methodCalls) && Has(m, i, name) then i else p)
  {
    hide Step;
    assert Quiet(e.callee);
    var r := Eval(e.callee, c, h, n);
    StillReady(c, h, r, {});
    var p := |r.h.scopes|;
    var m := SetParent(BoundCall(e, c, h, n).h, p, r.v.closure);
    SeenFromBody(m, p, Receiver(c.ops, r.h, r.v.instance), c.ops, name);
  }

  lemma SeenFromBody(m: Heap, p: Ref, i: Option<Ref>, ops: Ops, name: string)
    requires (i.Some? ==> i.value < p) && p < |m.scopes| && Has(m, p, name)
    ensures Lookup(Ctx(|m.scopes|, i, ops), Push(m, p, false), name)
         == Some(if i.Some? && Has(m, i.value, name) then i.value else p)
  {
    var start := Push(m, p, false);
    assert start.scopes[|m.scopes|].vars == [];
    assert start.scopes[p] == m.scopes[p] && (i.Some? ==> start.scopes[i.value] == m.scopes[i.value]);
    assert FindUp(start, p, name) == Some(p);
  }

  /**
  Hence a method `fn(x) { return x }` of an instance with a field `x` returns the field, whatever it is given, as long
  as the instance lives, and the parameter afterwards.
  */
  lemma MethodReturnsField(e: Expr, c: Ctx, h: Heap, n: nat, i: Ref, name: string)
    requires e.Call? && WellFormed(e) && Quiet(e.callee) && Ready(c, h) && n > 0
    requires Eval(e.callee, c, h, n).Normal? && Eval(e.callee, c, h, n).v.FnV?
    requires Eval(e.callee, c, h, n).v.instance == Some(i)
    requires Eval(e.callee, c, h, n).v.body == [ReturnItem(Some(Ident(name)))]
    requires BoundCall(e, c, h, n).Normal? && Has(BoundCall(e, c, h, n).h, i, name)
    requires Has(BoundCall(e, c, h, n).h, |Eval(e.callee, c, h, n).h.scopes|, name)
    ensures var (k, b) := (Eval(e.callee, c, h, n).h, BoundCall(e, c, h, n).h);
            && EvalCall(e, c, h, n).Normal?
            && EvalCall(e, c, h, n).v ==
               Binding(b, if c.ops.gone(k.methodCalls) then |k.scopes| else i, name).value
  {
    hide Step;
    FieldHidesParameter(e, c, h, n, i, name);
    var r := Eval(e.callee, c, h, n);
    var p := |r.h.scopes|;
    var m := SetParent(BoundCall(e, c, h, n).h, p, r.v.closure);
    ReturnsName(name, CalleeCtx(c, r.h, r.v).(env := |m.scopes|), Push(m, p, false), n - 1);
  }

  lemma ReturnsName(name: string, c: Ctx, h: Heap, n: nat)
    ensures WellFormedItems([ReturnItem(Some(Ident(name)))])
    ensures EvalItems([ReturnItem(Some(Ident(name)))], c, h, n) == Abrupt(Return, Get(c, h, name), h)
  {
    hide Step, Sound;
    var item := ReturnItem(Some(Ident(name)));
    assert Quiet(Ident(name)) && [item][1..] == [];
    assert Eval(Ident(name), c, h, n) == Normal(Get(c, h, name), h);
    assert EvalCarried(Some(Ident(name)), c, h, n) == Normal(Get(c, h, name), h);
    assert EvalItem(item, c, h, n) == Abrupt(Return, Get(c, h, name), h);
  }
}
