/**
Blocks without member assignments, extensions and calls add no name to any scope that existed before, not even to the
scopes of types and instances.
*/
module OuterNames {
  import opened Wrappers
  import opened Types
  import opened Syntax
  import opened Store
  import opened StoreFacts
  import opened Reference

  // ---------------------------------------------------------------------------------------------------
  // Programs that assign no member, extend no type and call nothing; the bodies of functions are not run

  predicate Calm(e: Expr)
    decreases e, 0
  {
    match e
    case Unary(_, a) => Calm(a)
    case Binary(_, l, r) => Calm(l) && Calm(r)
    case Assign(target, value) => target.Ident? && Calm(value)
    case Compound(_, _, value) => Calm(value)
    case If(cond, thn, els) => Calm(cond) && CalmItems(thn) && CalmOption(els)
    case While(cond, body) => Calm(cond) && CalmItems(body)
    case DoWhile(cond, body) => Calm(cond) && CalmItems(body)
    case For(init, cond, update, body) =>
      (init.Some? ==> CalmItem(init.value)) && CalmOption(cond) && CalmOption(update) && CalmItems(body)
    case FnExpr(params, _, _, _) => CalmParams(params)
    case TypeExpr(members, _) => CalmItems(members)
    case InstExpr(_, inits, _) => CalmInits(inits)
    case Block(items) => CalmItems(items)
    case Call(_, _) => false
    case Member(owner, _) => Calm(owner)
    case _ => true
  }

  predicate CalmOption(e: Option<Expr>)
    decreases e, 0
  {
    e.Some? ==> Calm(e.value)
  }

  predicate CalmParams(params: seq<Param>)
    decreases params, 0
  {
    params != [] ==> CalmOption(params[0].default) && CalmParams(params[1..])
  }

  predicate CalmInits(inits: seq<Init>)
    decreases inits, 0
  {
    inits != [] ==> Calm(inits[0].value) && CalmInits(inits[1..])
  }

  predicate CalmAll(es: seq<Expr>)
    decreases es, 0
  {
    es != [] ==> Calm(es[0]) && CalmAll(es[1..])
  }

  predicate CalmItem(item: Item)
    decreases item, 0
  {
    match item
    case ExprItem(e) => Calm(e)
    case Decl(_, _, e) => Calm(e)
    case Print(es) => CalmAll(es)
    case ReturnItem(e) => CalmOption(e)
    case BreakItem(e) => CalmOption(e)
    case Extend(_, _) => false
    case _ => true
  }

  predicate CalmItems(items: seq<Item>)
    decreases items, 0
  {
    items != [] ==> CalmItem(items[0]) && CalmItems(items[1..])
  }

  // ---------------------------------------------------------------------------------------------------
  // No scope but one gains a binding

  predicate Fixed(h: Heap, k: Heap, at: Option<Ref>) {
    && |h.scopes| <= |k.scopes|
    && forall i :: 0 <= i < |h.scopes| ==> at == Some(i) || |k.scopes[i].vars| == |h.scopes[i].vars|
  }

  predicate Fixes(h: Heap, r: Res, at: Option<Ref>) {
    r.Fail? || Fixed(h, r.h, at)
  }

  lemma Same(h: Heap, at: Option<Ref>)
    ensures Fixed(h, h, at)
  {
  }

  lemma Next(h: Heap, k: Heap, r: Res, at: Option<Ref>)
    requires Fixed(h, k, at) && Fixes(k, r, at)
    ensures Fixes(h, r, at)
  {
  }

  lemma Other(h: Heap, r: Res, s: Res, at: Option<Ref>)
    requires Fixes(h, r, at) && (s.Fail? || (!r.Fail? && s.h == r.h))
    ensures Fixes(h, s, at)
  {
  }

  lemma SetFixes(c: Ctx, h: Heap, name: string, v: Value, n: nat, e: Error, at: Option<Ref>)
    ensures Fixes(h, Stored(Set(c, h, name, v, n), v, e), at)
  {
  }

  lemma CreateFixes(c: Ctx, h: Heap, name: string, ty: Ty, v: Value, n: nat, w: Value, e: Error)
    ensures Fixes(h, Stored(Create(c, h, name, ty, v, n), w, e), Some(c.env))
  {
  }

  lemma NamedFixes(c: Ctx, h: Heap, name: string, ty: Ty, v: Value, n: nat)
    ensures Fixes(h, Named(c, h, name, ty, v, n), Some(c.env))
  {
    Same(h, Some(c.env));
    CreateFixes(c, h, name, ty, v, n, v, DeclareFailed);
  }

  /** What happens in a new scope leaves all old ones alone. */
  lemma InnerFixes(h: Heap, env: Ref, ofObject: bool, r: Res, at: Option<Ref>)
    requires Fixes(Push(h, env, ofObject), r, Some(|h.scopes|))
    ensures Fixes(h, r, at)
  {
    var k := Push(h, env, ofObject);
    assert forall i :: 0 <= i < |h.scopes| ==> k.scopes[i] == h.scopes[i];
  }

  // ---------------------------------------------------------------------------------------------------
  // Evaluation

  lemma {:induction false} ExpressionFixes(e: Expr, c: Ctx, h: Heap, n: nat)
    requires WellFormed(e) && Calm(e)
    ensures Fixes(h, Eval(e, c, h, n), Some(c.env))
    decreases n, e, 3
  {
    hide Step, Sound, Fixed, Get;
    var at := Some(c.env);
    Same(h, at);
    match e {
      case Unary(_, a) =>
        assert Quiet(a);
        ExpressionFixes(a, c, h, n);
      case Binary(_, _, _) => BinaryFixes(e, c, h, n);
      case Assign(_, value) => AssignFixes(e, c, h, n);
      case Compound(_, name, value) => CompoundFixes(e, c, h, n);
      case If(_, _, _) => IfFixes(e, c, h, n);
      case While(_, _) => WhileFixes(e, c, h, n);
      case DoWhile(_, _) => WhileFixes(e, c, h, n);
      case For(_, _, _, _) => ForFixes(e, c, h, n);
      case FnExpr(_, _, _, _) => FnFixes(e, c, h, n);
      case TypeExpr(_, _) => TypeFixes(e, c, h, n);
      case InstExpr(_, _, _) => InstFixes(e, c, h, n);
      case Block(items) => BlockFixes(items, c, h, n, at);
      case Member(_, _) => MemberFixes(e, c, h, n);
      case _ =>
    }
  }

  lemma {:induction false} BinaryFixes(e: Expr, c: Ctx, h: Heap, n: nat)
    requires e.Binary? && WellFormed(e) && Calm(e)
    ensures Fixes(h, EvalBinary(e, c, h, n), Some(c.env))
    decreases n, e, 0
  {
    hide Step, Sound, Fixed;
    assert Quiet(e.left) && Quiet(e.right);
    ExpressionFixes(e.left, c, h, n);
    var r := Eval(e.left, c, h, n);
    if r.Normal? {
      ExpressionFixes(e.right, c, r.h, n);
      Next(h, r.h, Eval(e.right, c, r.h, n), Some(c.env));
    }
  }

  lemma {:induction false} AssignFixes(e: Expr, c: Ctx, h: Heap, n: nat)
    requires e.Assign? && WellFormed(e) && Calm(e)
    ensures Fixes(h, EvalAssign(e, c, h, n), Some(c.env))
    decreases n, e, 0
  {
    hide Step, Sound, Fixed, Set;
    ExpressionFixes(e.value, c, h, n);
    var r := Eval(e.value, c, h, n);
    if !r.Fail? {
      var done := Stored(Set(c, r.h, e.target.name, r.v, n), r.v, SetFailed);
      SetFixes(c, r.h, e.target.name, r.v, n, SetFailed, Some(c.env));
      Next(h, r.h, done, Some(c.env));
    }
  }

  lemma {:induction false} CompoundFixes(e: Expr, c: Ctx, h: Heap, n: nat)
    requires e.Compound? && WellFormed(e) && Calm(e)
    ensures Fixes(h, EvalCompound(e, c, h, n), Some(c.env))
    decreases n, e, 0
  {
    hide Step, Sound, Fixed, Set, Get;
    assert Quiet(e.cvalue);
    ExpressionFixes(e.cvalue, c, h, n);
    var r := Eval(e.cvalue, c, h, n);
    if r.Normal? {
      var w := P(c.ops.binary(e.cop, Get(c, h, e.cname), r.v));
      SetFixes(c, r.h, e.cname, w, n, SetFailed, Some(c.env));
      Next(h, r.h, Stored(Set(c, r.h, e.cname, w, n), w, SetFailed), Some(c.env));
    }
  }

  lemma {:induction false} IfFixes(e: Expr, c: Ctx, h: Heap, n: nat)
    requires e.If? && WellFormed(e) && Calm(e)
    ensures Fixes(h, EvalIf(e, c, h, n), Some(c.env))
    decreases n, e, 0
  {
    hide Step, Sound, Fixed;
    var at := Some(c.env);
    assert Quiet(e.cond);
    ExpressionFixes(e.cond, c, h, n);
    var r := Eval(e.cond, c, h, n);
    if r.Normal? {
      if IsTrue(r.v) {
        BlockFixes(e.thenItems, c, r.h, n, at);
        Next(h, r.h, EvalBlock(e.thenItems, c, r.h, n), at);
      } else if e.els.Some? {
        assert Calm(e.els.value);
        if e.els.value.If? {
          IfFixes(e.els.value, c, r.h, n);
        } else {
          BlockFixes(e.els.value.items, c, r.h, n, at);
        }
        Next(h, r.h, EvalElse(e.els.value, c, r.h, n), at);
      }
    }
  }

  lemma {:induction false} WhileFixes(e: Expr, c: Ctx, h: Heap, n: nat)
    requires (e.While? || e.DoWhile?) && WellFormed(e) && Calm(e)
    ensures Fixes(h, EvalWhile(e, c, h, n), Some(c.env))
    decreases n, e, 1
  {
    hide Step, Sound, Fixed;
    assert Quiet(e.wcond);
    if e.DoWhile? {
      RoundFixes(e, c, h, n);
    } else {
      ExpressionFixes(e.wcond, c, h, n);
      var r := Eval(e.wcond, c, h, n);
      if r.Normal? {
        RoundFixes(e, c, r.h, n);
        Next(h, r.h, EvalRound(e, c, r.h, n), Some(c.env));
      }
    }
  }

  lemma {:induction false} RoundFixes(e: Expr, c: Ctx, h: Heap, n: nat)
    requires (e.While? || e.DoWhile?) && WellFormed(e) && Calm(e)
    ensures Fixes(h, EvalRound(e, c, h, n), Some(c.env))
    decreases n, e, 0
  {
    hide Step, Sound, Fixed;
    var at := Some(c.env);
    assert Quiet(e.wcond);
    BlockFixes(e.wbody, c, h, n, at);
    var r := Escape(EvalBlock(e.wbody, c, h, n), Continue);
    if r.Normal? {
      ExpressionFixes(e.wcond, c, r.h, n);
      var t := Eval(e.wcond, c, r.h, n);
      Next(h, r.h, t, at);
      if t.Normal? && n > 0 {
        RoundFixes(e, c, t.h, n - 1);
        Next(h, t.h, EvalRound(e, c, t.h, n - 1), at);
      }
    }
  }

  lemma {:induction false} OptionFixes(e: Option<Expr>, c: Ctx, h: Heap, n: nat)
    requires (e.Some? ==> Quiet(e.value)) && CalmOption(e)
    ensures Fixes(h, EvalCond(e, c, h, n), Some(c.env)) && Fixes(h, EvalCarried(e, c, h, n), Some(c.env))
    decreases n, e
  {
    hide Step, Sound, Fixed;
    Same(h, Some(c.env));
    if e.Some? {
      ExpressionFixes(e.value, c, h, n);
    }
  }

  lemma {:induction false} ForFixes(e: Expr, c: Ctx, h: Heap, n: nat)
    requires e.For? && WellFormed(e) && Calm(e)
    ensures Fixes(h, EvalFor(e, c, h, n), Some(c.env))
    decreases n, e, 2
  {
    hide Step, Sound, Fixed;
    var d, k := c.(env := |h.scopes|), Push(h, c.env, false);
    ForInFixes(e, d, k, n);
    InnerFixes(h, c.env, false, EvalForIn(e, d, k, n), Some(c.env));
  }

  lemma {:induction false} ForInFixes(e: Expr, c: Ctx, h: Heap, n: nat)
    requires e.For? && WellFormed(e) && Calm(e)
    ensures Fixes(h, EvalForIn(e, c, h, n), Some(c.env))
    decreases n, e, 1
  {
    hide Step, Sound, Fixed;
    var at := Some(c.env);
    Same(h, at);
    if e.init.Some? {
      ItemFixes(e.init.value, c, h, n);
    }
    var r := EvalInit(e.init, c, h, n);
    if r.Normal? {
      OptionFixes(e.fcond, c, r.h, n);
      var t := EvalCond(e.fcond, c, r.h, n);
      Next(h, r.h, t, at);
      if t.Normal? && IsTrue(t.v) {
        ForRoundFixes(e, c, t.h, n);
        Next(h, t.h, EvalForRound(e, c, t.h, n), at);
      }
    }
  }

  lemma {:induction false} ForRoundFixes(e: Expr, c: Ctx, h: Heap, n: nat)
    requires e.For? && WellFormed(e) && Calm(e)
    ensures Fixes(h, EvalForRound(e, c, h, n), Some(c.env))
    decreases n, e, 0
  {
    hide Step, Sound, Fixed;
    var at := Some(c.env);
    BlockFixes(e.fbody, c, h, n, at);
    var r := Escape(EvalBlock(e.fbody, c, h, n), Continue);
    if r.Normal? {
      OptionFixes(e.update, c, r.h, n);
      var u := EvalCond(e.update, c, r.h, n);
      Next(h, r.h, u, at);
      if u.Normal? {
        OptionFixes(e.fcond, c, u.h, n);
        var t := EvalCond(e.fcond, c, u.h, n);
        Next(h, u.h, t, at);
        if t.Normal? && n > 0 {
          ForRoundFixes(e, c, t.h, n - 1);
          Next(h, t.h, EvalForRound(e, c, t.h, n - 1), at);
        }
      }
    }
  }

  /** A block adds no name to any scope that existed before, whatever kind of scope it is. */
  lemma {:induction false} BlockFixes(items: seq<Item>, c: Ctx, h: Heap, n: nat, at: Option<Ref>)
    requires WellFormedItems(items) && CalmItems(items)
    ensures Fixes(h, EvalBlock(items, c, h, n), at)
    decreases n, items, 1
  {
    hide Step, Sound, Fixed;
    var d, k := c.(env := |h.scopes|), Push(h, c.env, false);
    ItemsFix(items, d, k, n);
    InnerFixes(h, c.env, false, EvalItems(items, d, k, n), at);
  }

  lemma {:induction false} ItemsFix(items: seq<Item>, c: Ctx, h: Heap, n: nat)
    requires WellFormedItems(items) && CalmItems(items)
    ensures Fixes(h, EvalItems(items, c, h, n), Some(c.env))
    decreases n, items, 0
  {
    hide Step, Sound, Fixed;
    Same(h, Some(c.env));
    if items != [] {
      ItemFixes(items[0], c, h, n);
      var r := EvalItem(items[0], c, h, n);
      if r.Normal? && |items| > 1 {
        ItemsFix(items[1..], c, r.h, n);
        Next(h, r.h, EvalItems(items[1..], c, r.h, n), Some(c.env));
      }
    }
  }

  lemma {:induction false} ItemFixes(item: Item, c: Ctx, h: Heap, n: nat)
    requires WellFormedItem(item) && CalmItem(item)
    ensures Fixes(h, EvalItem(item, c, h, n), Some(c.env))
    decreases n, item, 1
  {
    hide Step, Sound, Fixed, Create;
    var at := Some(c.env);
    Same(h, at);
    match item {
      case ExprItem(e) => ExpressionFixes(e, c, h, n);
      case Decl(name, ty, e) =>
        ExpressionFixes(e, c, h, n);
        var r := Eval(e, c, h, n);
        if !r.Fail? {
          CreateFixes(c, r.h, name, ty, r.v, n, r.v, DeclareFailed);
          Next(h, r.h, Stored(Create(c, r.h, name, ty, r.v, n), r.v, DeclareFailed), at);
        }
      case Print(es) => PrintsFix(es, c, h, n);
      case ReturnItem(e) => OptionFixes(e, c, h, n);
      case BreakItem(e) => OptionFixes(e, c, h, n);
      case Interface(name, contract) =>
        var v := InterfaceV(TInterface(contract));
        CreateFixes(c, h, name, TInterface(contract), v, n, v, DeclareFailed);
      case _ =>
    }
  }

  lemma {:induction false} PrintsFix(es: seq<Expr>, c: Ctx, h: Heap, n: nat)
    requires QuietAll(es) && CalmAll(es)
    ensures Fixes(h, EvalPrints(es, c, h, n), Some(c.env))
    decreases n, es
  {
    hide Step, Sound;
    if es != [] {
      assert Quiet(es[0]);
      ExpressionFixes(es[0], c, h, n);
      var r := Eval(es[0], c, h, n);
      if r.Normal? {
        var s := Show(r.h, r.v, n);
        if s.Some? {
          PrintsFix(es[1..], c, Printed(r.h, s.value), n);
          Next(h, Printed(r.h, s.value), EvalPrints(es[1..], c, Printed(r.h, s.value), n), Some(c.env));
        }
      }
    }
  }

  lemma {:induction false} FnFixes(e: Expr, c: Ctx, h: Heap, n: nat)
    requires e.FnExpr? && WellFormed(e) && Calm(e)
    ensures Fixes(h, EvalFn(e, c, h, n), Some(c.env))
    decreases n, e, 0
  {
    hide Step, Sound, Fixed, Named;
    var d, k := c.(env := |h.scopes|), Push(h, c.env, false);
    ParamsFix(e.params, d, k, n);
    var r := EvalParams(e.params, d, k, n);
    InnerFixes(h, c.env, false, r, Some(c.env));
    if r.Normal? {
      var v := FnV(|h.scopes|, e.body, e.fty, None);
      NamedFixes(c, r.h, e.fname, e.fty, v, n);
      Next(h, r.h, Named(c, r.h, e.fname, e.fty, v, n), Some(c.env));
    }
  }

  lemma {:induction false} ParamsFix(params: seq<Param>, c: Ctx, h: Heap, n: nat)
    requires QuietParams(params) && CalmParams(params)
    ensures Fixes(h, EvalParams(params, c, h, n), Some(c.env))
    decreases n, params
  {
    hide Step, Sound, Fixed, Create;
    var at := Some(c.env);
    Same(h, at);
    if params != [] {
      var p := params[0];
      if p.default.Some? {
        ExpressionFixes(p.default.value, c, h, n);
      }
      var r := EvalDefault(p, c, h, n);
      if r.Normal? {
        var s := Stored(Create(c, r.h, p.name, p.ty, r.v, n), r.v, ParamFailed);
        CreateFixes(c, r.h, p.name, p.ty, r.v, n, r.v, ParamFailed);
        Next(h, r.h, s, at);
        if s.Normal? {
          ParamsFix(params[1..], c, s.h, n);
          Next(h, s.h, EvalParams(params[1..], c, s.h, n), at);
        }
      }
    }
  }

  lemma {:induction false} TypeFixes(e: Expr, c: Ctx, h: Heap, n: nat)
    requires e.TypeExpr? && WellFormed(e) && Calm(e)
    ensures Fixes(h, EvalType(e, c, h, n), Some(c.env))
    decreases n, e, 0
  {
    hide Step, Sound, Fixed, Named;
    var d, k := c.(env := |h.scopes|), Push(h, c.env, true);
    MembersFix(e.members, d, k, n);
    var r := EvalMembers(e.members, d, k, n);
    InnerFixes(h, c.env, true, r, Some(c.env));
    if r.Normal? {
      NamedFixes(c, r.h, e.tname, TType, TypeV(|h.scopes|), n);
      Next(h, r.h, Named(c, r.h, e.tname, TType, TypeV(|h.scopes|), n), Some(c.env));
    }
  }

  lemma {:induction false} MembersFix(members: seq<Item>, c: Ctx, h: Heap, n: nat)
    requires WellFormedItems(members) && CalmItems(members)
    ensures Fixes(h, EvalMembers(members, c, h, n), Some(c.env))
    decreases n, members, 0
  {
    hide Step, Sound, Fixed;
    Same(h, Some(c.env));
    if members != [] {
      ItemFixes(members[0], c, h, n);
      var r := EvalItem(members[0], c, h, n);
      if r.Normal? {
        MembersFix(members[1..], c, r.h, n);
        Next(h, r.h, EvalMembers(members[1..], c, r.h, n), Some(c.env));
      }
    }
  }

  /** Initial values are written to the instance's own scope only. */
  lemma InitializeFixes(owner: Value, name: string, v: Value, c: Ctx, h: Heap, n: nat)
    requires owner.InstV?
    ensures Fixes(h, Initialize(owner, name, v, c, h, n), Some(owner.closure))
  {
  }

  lemma {:induction false} InstFixes(e: Expr, c: Ctx, h: Heap, n: nat)
    requires e.InstExpr? && WellFormed(e) && Calm(e)
    ensures Fixes(h, EvalInst(e, c, h, n), Some(c.env))
    decreases n, e, 0
  {
    hide Step, Sound, OwnerSound, Fixed, Named, BindSelf, Get;
    var t := Get(c, h, e.ity);
    if t.TypeV? {
      var d, k, owner := c.(env := |h.scopes|), Push(h, c.env, true), InstV(|h.scopes|, t.closure, e.ity, false);
      InitsFix(e.inits, owner, d, k, n);
      var r := EvalInits(e.inits, owner, d, k, n);
      if r.Normal? {
        SelfFixes(owner, d, r.h, n);
        Next(k, r.h, BindSelf(owner, d, r.h, n), Some(d.env));
      }
      var s := EvalInstIn(e, owner, d, k, n);
      InnerFixes(h, c.env, true, s, Some(c.env));
      if s.Normal? {
        NamedFixes(c, s.h, e.iname, TNamed(e.ity), owner, n);
        Next(h, s.h, Named(c, s.h, e.iname, TNamed(e.ity), owner, n), Some(c.env));
      }
    }
  }

  lemma SelfFixes(owner: Value, c: Ctx, h: Heap, n: nat)
    requires owner.InstV?
    ensures Fixes(h, BindSelf(owner, c, h, n), Some(c.env))
  {
    CreateFixes(c, h, "self", TNamed(owner.tyName), owner.(weakRef := true), n, owner, SelfFailed);
  }

  lemma {:induction false} InitsFix(inits: seq<Init>, owner: Value, c: Ctx, h: Heap, n: nat)
    requires QuietInits(inits) && CalmInits(inits) && owner.InstV? && owner.closure == c.env
    ensures Fixes(h, EvalInits(inits, owner, c, h, n), Some(c.env))
    decreases n, inits, 0
  {
    hide Step, Sound, OwnerSound, Fixed, Initialize;
    var at := Some(c.env);
    Same(h, at);
    if inits != [] {
      assert Quiet(inits[0].value);
      ExpressionFixes(inits[0].value, c, h, n);
      var r := Eval(inits[0].value, c, h, n);
      if r.Normal? {
        var s := Initialize(owner, inits[0].name, r.v, c, r.h, n);
        InitializeFixes(owner, inits[0].name, r.v, c, r.h, n);
        Next(h, r.h, s, at);
        if s.Normal? {
          InitsFix(inits[1..], owner, c, s.h, n);
          Next(h, s.h, EvalInits(inits[1..], owner, c, s.h, n), at);
        }
      }
    }
  }

  lemma {:induction false} MemberFixes(e: Expr, c: Ctx, h: Heap, n: nat)
    requires e.Member? && WellFormed(e) && Calm(e)
    ensures Fixes(h, EvalMember(e, c, h, n), Some(c.env))
    decreases n, e, 0
  {
    hide Step, Sound, Fixed, Boxed;
    assert Quiet(e.owner);
    ExpressionFixes(e.owner, c, h, n);
    var r := Eval(e.owner, c, h, n);
    if r.Normal? {
      BoxedFixes(r.v, c, r.h, n);
      Next(h, r.h, Boxed(r.v, c, r.h, n), Some(c.env));
    }
  }

  lemma BoxedFixes(v: Value, c: Ctx, h: Heap, n: nat)
    ensures Fixes(h, Boxed(v, c, h, n), Some(c.env))
  {
    hide Fixed, Initialize, BindSelf, Get;
    Same(h, Some(c.env));
    if v.P? && BuiltinName(v.p).Some? && Get(c, h, BuiltinName(v.p).value).TypeV? {
      var ity := BuiltinName(v.p).value;
      var d, k := c.(env := |h.scopes|), Push(h, c.env, true);
      var owner := InstV(|h.scopes|, Get(c, h, ity).closure, ity, false);
      var r := Initialize(owner, "value", v, d, k, n);
      InitializeFixes(owner, "value", v, d, k, n);
      if r.Normal? {
        SelfFixes(owner, d, r.h, n);
        Next(k, r.h, BindSelf(owner, d, r.h, n), Some(d.env));
      }
      InnerFixes(h, c.env, true, BoxIn(v, owner, d, k, n), Some(c.env));
    }
  }

  /**
  A block without member assignments, extensions and calls: every scope that existed before has the same names after
  it, in the same order, whichever way the block ends.
  */
  lemma BlockKeepsNames(items: seq<Item>, c: Ctx, h: Heap, n: nat, i: Ref)
    requires WellFormedItems(items) && CalmItems(items) && i < |h.scopes| && !EvalBlock(items, c, h, n).Fail?
    ensures var k := EvalBlock(items, c, h, n).h;
            && i < |k.scopes| && |k.scopes[i].vars| == |h.scopes[i].vars|
            && forall j :: 0 <= j < |h.scopes[i].vars| ==> k.scopes[i].vars[j].name == h.scopes[i].vars[j].name
  {
    BlockFixes(items, c, h, n, None);
    var r := EvalBlock(items, c, h, n);
    assert Sound(c, h, r, ItemsSignals(items));
    assert ScopeGrows(h.scopes[i], r.h.scopes[i]);
  }
}
