/**
Fuel only bounds how long an evaluation may take: an evaluation that does not run out of fuel has the same result
with any larger amount. `More` is that statement for one pair of results; the lemmas follow the evaluator.
*/
module Fuel {
  import opened Wrappers
  import opened Types
  import opened Syntax
  import opened Store
  import opened StoreFacts
  import opened Reference

  predicate More(r: Res, s: Res) {
    r == Fail(OutOfFuel) || r == s
  }

  predicate MoreWritten(u: Update, w: Update) {
    u == Starved || u == w
  }

  // ---------------------------------------------------------------------------------------------------
  // Checks and writes

  lemma {:induction false} CheckMore(c: Ctx, h: Heap, v: Value, ty: Ty, n: nat, m: nat)
    requires n <= m
    ensures IsOfType(c, h, v, ty, n) == NoFuel || IsOfType(c, h, v, ty, n) == IsOfType(c, h, v, ty, m)
    decreases n, 1
  {
    match ty
    case TNamed(name) =>
      var at := Lookup(c, h, name);
      if at.Some? && n > 0 {
        CheckMore(c, h, v, Binding(h, at.value, name).ty, n - 1, m - 1);
      }
    case TInterface(members) => MembersCheckMore(c, h, v, members, n, m);
    case _ =>
  }

  lemma {:induction false} MembersCheckMore(c: Ctx, h: Heap, v: Value, members: seq<Types.Member>, n: nat, m: nat)
    requires n <= m
    ensures HasMembers(c, h, v, members, n) == NoFuel
         || HasMembers(c, h, v, members, n) == HasMembers(c, h, v, members, m)
    decreases n, 0, members
  {
    if members != [] && n > 0 {
      var at := MemberAt(h, v, members[0].name);
      if at.Some? {
        CheckMore(c, h, Binding(h, at.value, members[0].name).value, members[0].ty, n - 1, m - 1);
        MembersCheckMore(c, h, v, members[1..], n, m);
      }
    }
  }

  lemma CreateMore(c: Ctx, h: Heap, name: string, ty: Ty, v: Value, n: nat, m: nat)
    requires n <= m
    ensures MoreWritten(Create(c, h, name, ty, v, n), Create(c, h, name, ty, v, m))
  {
    CheckMore(c, h, v, ty, n, m);
  }

  lemma SetMore(c: Ctx, h: Heap, name: string, v: Value, n: nat, m: nat)
    requires n <= m
    ensures MoreWritten(Set(c, h, name, v, n), Set(c, h, name, v, m))
  {
    var at := Lookup(c, h, name);
    if at.Some? {
      CheckMore(c, h, v, Binding(h, at.value, name).ty, n, m);
    }
  }

  lemma SetMemberMore(c: Ctx, h: Heap, owner: Value, name: string, v: Value, n: nat, m: nat)
    requires n <= m
    ensures MoreWritten(SetMember(c, h, owner, name, v, n), SetMember(c, h, owner, name, v, m))
  {
    var at := MemberAt(h, owner, name);
    if at.Some? {
      CheckMore(c, h, v, Binding(h, at.value, name).ty, n, m);
    }
  }

  lemma {:induction false} ShowMore(h: Heap, v: Value, n: nat, m: nat)
    requires n <= m
    ensures Show(h, v, n) == None || Show(h, v, n) == Show(h, v, m)
    decreases n, 0
  {
    if v.InstV? && n > 0 {
      ShowFieldsMore(h, Vars(h, v.closure), n - 1, m - 1);
    }
  }

  lemma {:induction false} ShowFieldsMore(h: Heap, vars: seq<Env>, n: nat, m: nat)
    requires n <= m
    ensures ShowFields(h, vars, n) == None || ShowFields(h, vars, n) == ShowFields(h, vars, m)
    decreases n, 1 + |vars|
  {
    if vars != [] {
      ShowMore(h, vars[0].value, n, m);
      ShowFieldsMore(h, vars[1..], n, m);
    }
  }

  // ---------------------------------------------------------------------------------------------------
  // Expressions

  lemma {:induction false} EvalMore(e: Expr, c: Ctx, h: Heap, n: nat, m: nat)
    requires n <= m && WellFormed(e)
    ensures More(Eval(e, c, h, n), Eval(e, c, h, m))
    decreases n, e, 3
  {
    hide Sound;
    match e
    case Unary(_, a) =>
      assert Quiet(a);
      EvalMore(a, c, h, n, m);
    case Binary(_, _, _) => BinaryMore(e, c, h, n, m);
    case Assign(_, _) => AssignMore(e, c, h, n, m);
    case Compound(op, x, value) =>
      assert Quiet(value);
      EvalMore(value, c, h, n, m);
      var r := Eval(value, c, h, n);
      if r.Normal? {
        SetMore(c, r.h, x, P(c.ops.binary(op, Get(c, h, x), r.v)), n, m);
      }
    case If(_, _, _) => IfMore(e, c, h, n, m);
    case While(_, _) => WhileMore(e, c, h, n, m);
    case DoWhile(_, _) => WhileMore(e, c, h, n, m);
    case For(_, _, _, _) => ForMore(e, c.(env := |h.scopes|), Push(h, c.env, false), n, m);
    case FnExpr(params, _, name, ty) =>
      ParamsMore(params, c.(env := |h.scopes|), Push(h, c.env, false), n, m);
      var r := EvalParams(params, c.(env := |h.scopes|), Push(h, c.env, false), n);
      if r.Normal? {
        CreateMore(c, r.h, name, ty, FnV(|h.scopes|, e.body, ty, None), n, m);
      }
    case TypeExpr(members, name) =>
      MembersMore(members, c.(env := |h.scopes|), Push(h, c.env, true), n, m);
      var r := EvalMembers(members, c.(env := |h.scopes|), Push(h, c.env, true), n);
      if r.Normal? {
        CreateMore(c, r.h, name, TType, TypeV(|h.scopes|), n, m);
      }
    case InstExpr(_, _, _) => InstMore(e, c, h, n, m);
    case Block(items) => BlockMore(items, c, h, n, m);
    case Call(_, _) => CallMore(e, c, h, n, m);
    case Member(owner, field) =>
      assert Quiet(owner);
      EvalMore(owner, c, h, n, m);
      var r := Eval(owner, c, h, n);
      if r.Normal? {
        BoxedMore(r.v, c, r.h, n, m);
      }
    case _ =>
  }

  lemma BinaryMore(e: Expr, c: Ctx, h: Heap, n: nat, m: nat)
    requires n <= m && e.Binary? && WellFormed(e)
    ensures More(EvalBinary(e, c, h, n), EvalBinary(e, c, h, m))
    decreases n, e, 0
  {
    hide Sound;
    assert Quiet(e.left) && Quiet(e.right);
    EvalMore(e.left, c, h, n, m);
    var r := Eval(e.left, c, h, n);
    if r.Normal? {
      EvalMore(e.right, c, r.h, n, m);
    }
  }

  lemma AssignMore(e: Expr, c: Ctx, h: Heap, n: nat, m: nat)
    requires n <= m && e.Assign? && WellFormed(e)
    ensures More(EvalAssign(e, c, h, n), EvalAssign(e, c, h, m))
    decreases n, e, 0
  {
    hide Sound;
    assert e.target.Member? ==> Quiet(e.target.owner) && Quiet(e.value);
    EvalMore(e.value, c, h, n, m);
    var r := Eval(e.value, c, h, n);
    if !r.Fail? {
      if e.target.Ident? {
        SetMore(c, r.h, e.target.name, r.v, n, m);
      } else {
        EvalMore(e.target.owner, c, r.h, n, m);
        var o := Eval(e.target.owner, c, r.h, n);
        if o.Normal? {
          SetMemberMore(c, o.h, o.v, e.target.field, r.v, n, m);
        }
      }
    }
  }

  lemma IfMore(e: Expr, c: Ctx, h: Heap, n: nat, m: nat)
    requires n <= m && e.If? && WellFormed(e)
    ensures More(EvalIf(e, c, h, n), EvalIf(e, c, h, m))
    decreases n, e, 0
  {
    hide Sound;
    assert Quiet(e.cond);
    EvalMore(e.cond, c, h, n, m);
    var r := Eval(e.cond, c, h, n);
    if r.Normal? {
      BlockMore(e.thenItems, c, r.h, n, m);
      if e.els.Some? {
        if e.els.value.If? {
          IfMore(e.els.value, c, r.h, n, m);
        } else {
          BlockMore(e.els.value.items, c, r.h, n, m);
        }
      }
    }
  }

  lemma WhileMore(e: Expr, c: Ctx, h: Heap, n: nat, m: nat)
    requires n <= m && (e.While? || e.DoWhile?) && WellFormed(e)
    ensures More(EvalWhile(e, c, h, n), EvalWhile(e, c, h, m))
    decreases n, e, 1
  {
    hide Sound, EvalRound;
    assert Quiet(e.wcond);
    if e.DoWhile? {
      RoundMore(e, c, h, n, m);
    } else {
      EvalMore(e.wcond, c, h, n, m);
      var r := Eval(e.wcond, c, h, n);
      if r.Normal? {
        RoundMore(e, c, r.h, n, m);
      }
    }
  }

  lemma RoundMore(e: Expr, c: Ctx, h: Heap, n: nat, m: nat)
    requires n <= m && (e.While? || e.DoWhile?) && WellFormed(e)
    ensures More(EvalRound(e, c, h, n), EvalRound(e, c, h, m))
    decreases n, e, 0
  {
    hide Sound;
    assert Quiet(e.wcond);
    BlockMore(e.wbody, c, h, n, m);
    var r := Escape(EvalBlock(e.wbody, c, h, n), Continue);
    if r.Normal? {
      EvalMore(e.wcond, c, r.h, n, m);
      var t := Eval(e.wcond, c, r.h, n);
      if t.Normal? && n > 0 {
        RoundMore(e, c, t.h, n - 1, m - 1);
      }
    }
  }

  lemma CondMore(cond: Option<Expr>, c: Ctx, h: Heap, n: nat, m: nat)
    requires n <= m && (cond.Some? ==> Quiet(cond.value))
    ensures More(EvalCond(cond, c, h, n), EvalCond(cond, c, h, m))
    decreases n, cond
  {
    if cond.Some? {
      EvalMore(cond.value, c, h, n, m);
    }
  }

  lemma ForMore(e: Expr, c: Ctx, h: Heap, n: nat, m: nat)
    requires n <= m && e.For? && WellFormed(e)
    ensures More(EvalForIn(e, c, h, n), EvalForIn(e, c, h, m))
    decreases n, e, 1
  {
    hide Sound, EvalForRound;
    if e.init.Some? {
      ItemMore(e.init.value, c, h, n, m);
    }
    var r := EvalInit(e.init, c, h, n);
    if r.Normal? {
      CondMore(e.fcond, c, r.h, n, m);
      var t := EvalCond(e.fcond, c, r.h, n);
      if t.Normal? {
        ForRoundMore(e, c, t.h, n, m);
      }
    }
  }

  lemma ForRoundMore(e: Expr, c: Ctx, h: Heap, n: nat, m: nat)
    requires n <= m && e.For? && WellFormed(e)
    ensures More(EvalForRound(e, c, h, n), EvalForRound(e, c, h, m))
    decreases n, e, 0
  {
    hide Sound;
    BlockMore(e.fbody, c, h, n, m);
    var r := Escape(EvalBlock(e.fbody, c, h, n), Continue);
    if r.Normal? {
      CondMore(e.update, c, r.h, n, m);
      var u := EvalCond(e.update, c, r.h, n);
      if u.Normal? {
        CondMore(e.fcond, c, u.h, n, m);
        var t := EvalCond(e.fcond, c, u.h, n);
        if t.Normal? && n > 0 {
          ForRoundMore(e, c, t.h, n - 1, m - 1);
        }
      }
    }
  }

  // ---------------------------------------------------------------------------------------------------
  // Blocks and items

  lemma BlockMore(items: seq<Item>, c: Ctx, h: Heap, n: nat, m: nat)
    requires n <= m && WellFormedItems(items)
    ensures More(EvalBlock(items, c, h, n), EvalBlock(items, c, h, m))
    decreases n, items, 1
  {
    hide Sound;
    ItemsMore(items, c.(env := |h.scopes|), Push(h, c.env, false), n, m);
  }

  lemma {:induction false} ItemsMore(items: seq<Item>, c: Ctx, h: Heap, n: nat, m: nat)
    requires n <= m && WellFormedItems(items)
    ensures More(EvalItems(items, c, h, n), EvalItems(items, c, h, m))
    decreases n, items, 0
  {
    hide Sound;
    if items != [] {
      ItemMore(items[0], c, h, n, m);
      var r := EvalItem(items[0], c, h, n);
      if r.Normal? {
        ItemsMore(items[1..], c, r.h, n, m);
      }
    }
  }

  lemma {:induction false} ItemMore(item: Item, c: Ctx, h: Heap, n: nat, m: nat)
    requires n <= m && WellFormedItem(item)
    ensures More(EvalItem(item, c, h, n), EvalItem(item, c, h, m))
    decreases n, item, 1
  {
    hide Sound;
    match item
    case ExprItem(e) => EvalMore(e, c, h, n, m);
    case Decl(name, ty, e) =>
      EvalMore(e, c, h, n, m);
      var r := Eval(e, c, h, n);
      if !r.Fail? {
        CreateMore(c, r.h, name, ty, r.v, n, m);
      }
    case Print(es) => PrintsMore(es, c, h, n, m);
    case ReturnItem(e) => CondOrNullMore(e, c, h, n, m);
    case BreakItem(e) => CondOrNullMore(e, c, h, n, m);
    case Extend(name, members) =>
      if Get(c, h, name).TypeV? {
        MembersMore(members, c.(env := Get(c, h, name).closure), h, n, m);
      }
    case Interface(name, contract) =>
      CreateMore(c, h, name, TInterface(contract), InterfaceV(TInterface(contract)), n, m);
    case _ =>
  }

  lemma CondOrNullMore(e: Option<Expr>, c: Ctx, h: Heap, n: nat, m: nat)
    requires n <= m && (e.Some? ==> Quiet(e.value))
    ensures More(EvalCarried(e, c, h, n), EvalCarried(e, c, h, m))
    decreases n, e
  {
    if e.Some? {
      EvalMore(e.value, c, h, n, m);
    }
  }

  lemma {:induction false} PrintsMore(es: seq<Expr>, c: Ctx, h: Heap, n: nat, m: nat)
    requires n <= m && QuietAll(es)
    ensures More(EvalPrints(es, c, h, n), EvalPrints(es, c, h, m))
    decreases n, es
  {
    hide Sound;
    if es != [] {
      assert Quiet(es[0]);
      EvalMore(es[0], c, h, n, m);
      var r := Eval(es[0], c, h, n);
      if r.Normal? {
        ShowMore(r.h, r.v, n, m);
        if Show(r.h, r.v, n).Some? {
          PrintsMore(es[1..], c, Printed(r.h, Show(r.h, r.v, n).value), n, m);
        }
      }
    }
  }

  lemma {:induction false} MembersMore(members: seq<Item>, c: Ctx, h: Heap, n: nat, m: nat)
    requires n <= m && WellFormedItems(members)
    ensures More(EvalMembers(members, c, h, n), EvalMembers(members, c, h, m))
    decreases n, members, 0
  {
    hide Sound;
    if members != [] {
      ItemMore(members[0], c, h, n, m);
      var r := EvalItem(members[0], c, h, n);
      if r.Normal? {
        MembersMore(members[1..], c, r.h, n, m);
      }
    }
  }

  // ---------------------------------------------------------------------------------------------------
  // Functions, instances, calls

  lemma {:induction false} ParamsMore(params: seq<Param>, c: Ctx, h: Heap, n: nat, m: nat)
    requires n <= m && QuietParams(params)
    ensures More(EvalParams(params, c, h, n), EvalParams(params, c, h, m))
    decreases n, params
  {
    hide Sound;
    if params != [] {
      var p := params[0];
      if p.default.Some? {
        EvalMore(p.default.value, c, h, n, m);
      }
      var r := EvalDefault(p, c, h, n);
      if r.Normal? {
        CreateMore(c, r.h, p.name, p.ty, r.v, n, m);
        var u := Create(c, r.h, p.name, p.ty, r.v, n);
        if u.Written? {
          ParamsMore(params[1..], c, u.h, n, m);
        }
      }
    }
  }

  lemma InitializeMore(owner: Value, name: string, v: Value, c: Ctx, h: Heap, n: nat, m: nat)
    requires n <= m && owner.InstV?
    ensures More(Initialize(owner, name, v, c, h, n), Initialize(owner, name, v, c, h, m))
  {
    SetMemberMore(c, h, owner, name, v, n, m);
  }

  lemma {:induction false} InitsMore(inits: seq<Init>, owner: Value, c: Ctx, h: Heap, n: nat, m: nat)
    requires n <= m && QuietInits(inits) && owner.InstV?
    ensures More(EvalInits(inits, owner, c, h, n), EvalInits(inits, owner, c, h, m))
    decreases n, inits
  {
    hide Sound, OwnerSound;
    if inits != [] {
      assert Quiet(inits[0].value);
      EvalMore(inits[0].value, c, h, n, m);
      var r := Eval(inits[0].value, c, h, n);
      if r.Normal? {
        InitializeMore(owner, inits[0].name, r.v, c, r.h, n, m);
        var s := Initialize(owner, inits[0].name, r.v, c, r.h, n);
        if s.Normal? {
          InitsMore(inits[1..], owner, c, s.h, n, m);
        }
      }
    }
  }

  lemma InstMore(e: Expr, c: Ctx, h: Heap, n: nat, m: nat)
    requires n <= m && e.InstExpr? && WellFormed(e)
    ensures More(EvalInst(e, c, h, n), EvalInst(e, c, h, m))
    decreases n, e, 0
  {
    hide Sound, OwnerSound;
    var t := Get(c, h, e.ity);
    if t.TypeV? {
      var d, k, owner := c.(env := |h.scopes|), Push(h, c.env, true), InstV(|h.scopes|, t.closure, e.ity, false);
      InitsMore(e.inits, owner, d, k, n, m);
      var r := EvalInits(e.inits, owner, d, k, n);
      if r.Normal? {
        CreateMore(d, r.h, "self", TNamed(e.ity), owner.(weakRef := true), n, m);
        var u := Create(d, r.h, "self", TNamed(e.ity), owner.(weakRef := true), n);
        if u.Written? {
          CreateMore(c, u.h, e.iname, TNamed(e.ity), owner, n, m);
        }
      }
    }
  }

  lemma BoxedMore(v: Value, c: Ctx, h: Heap, n: nat, m: nat)
    requires n <= m
    ensures More(Boxed(v, c, h, n), Boxed(v, c, h, m))
  {
    if v.P? && BuiltinName(v.p).Some? && Get(c, h, BuiltinName(v.p).value).TypeV? {
      var ity := BuiltinName(v.p).value;
      var d, k := c.(env := |h.scopes|), Push(h, c.env, true);
      var owner := InstV(|h.scopes|, Get(c, h, ity).closure, ity, false);
      InitializeMore(owner, "value", v, d, k, n, m);
      var r := Initialize(owner, "value", v, d, k, n);
      if r.Normal? {
        CreateMore(d, r.h, "self", TNamed(ity), owner.(weakRef := true), n, m);
      }
    }
  }

  lemma CallMore(e: Expr, c: Ctx, h: Heap, n: nat, m: nat)
    requires n <= m && e.Call? && WellFormed(e)
    ensures More(EvalCall(e, c, h, n), EvalCall(e, c, h, m))
    decreases n, e, 0
  {
    hide Sound, EvalBinding;
    assert Quiet(e.callee);
    EvalMore(e.callee, c, h, n, m);
    var f := Eval(e.callee, c, h, n);
    if f.Normal? && f.v.FnV? {
      var d, k := CalleeCtx(c, f.h, f.v), CalleeStore(c, f.h, f.v);
      BindingMore(e.args, f.v.closure, d, k, n, m);
      var p := EvalBinding(e.args, f.v.closure, d, k, n);
      if p.Normal? && n > 0 {
        BlockMore(f.v.body, d, SetParent(p.h, d.env, f.v.closure), n - 1, m - 1);
      }
    }
  }

  lemma BindingMore(args: seq<Expr>, closure: Ref, c: Ctx, h: Heap, n: nat, m: nat)
    requires n <= m && QuietArgs(args, false) && c.env < |h.scopes|
    ensures More(EvalBinding(args, closure, c, h, n), EvalBinding(args, closure, c, h, m))
    decreases n, args, 1
  {
    hide Sound;
    ArgsMore(args, 0, closure, false, c, h, n, m);
    var r := EvalArgs(args, 0, closure, false, c, h, n);
    if r.Normal? {
      FillMore(closure, 0, |Vars(h, closure)|, c, r.h, n, m);
    }
  }

  lemma {:induction false} ArgsMore(args: seq<Expr>, i: nat, closure: Ref, named: bool, c: Ctx, h: Heap, n: nat, m: nat)
    requires n <= m && QuietArgs(args, named)
    ensures More(EvalArgs(args, i, closure, named, c, h, n), EvalArgs(args, i, closure, named, c, h, m))
    decreases n, args, 0
  {
    hide Sound, EvalArg;
    if args != [] {
      assert QuietArg(args[0]);
      ArgMore(args[0], i, closure, c, h, n, m);
      var r := EvalArg(args[0], i, closure, c, h, n);
      if r.Normal? {
        ArgsMore(args[1..], i + 1, closure, args[0].Assign?, c, r.h, n, m);
      }
    }
  }

  lemma ArgMore(a: Expr, i: nat, closure: Ref, c: Ctx, h: Heap, n: nat, m: nat)
    requires n <= m && QuietArg(a)
    ensures More(EvalArg(a, i, closure, c, h, n), EvalArg(a, i, closure, c, h, m))
    decreases n, a, 4
  {
    hide Sound;
    var p := ParamFor(a, i, closure, h);
    var e := if a.Assign? then a.value else a;
    assert Quiet(e);
    EvalMore(e, c, h, n, m);
    var r := Eval(e, c, h, n);
    if p.Some? && r.Normal? {
      CreateMore(c, r.h, p.value.name, p.value.ty, r.v, n, m);
    }
  }

  lemma {:induction false} FillMore(closure: Ref, i: nat, count: nat, c: Ctx, h: Heap, n: nat, m: nat)
    requires n <= m
    ensures More(FillDefaults(closure, i, count, c, h, n), FillDefaults(closure, i, count, c, h, m))
    decreases count - i
  {
    if i < count && i < |Vars(h, closure)| {
      var p := Vars(h, closure)[i];
      if Has(h, c.env, p.name) {
        FillMore(closure, i + 1, count, c, h, n, m);
      } else {
        CreateMore(c, h, p.name, p.ty, p.value, n, m);
        var u := Create(c, h, p.name, p.ty, p.value, n);
        if u.Written? {
          FillMore(closure, i + 1, count, c, u.h, n, m);
        }
      }
    }
  }
}
