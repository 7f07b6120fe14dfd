/**
Laws of evaluation that a reader of programs relies on: what is written is what is read, what an operator abbreviates,
which operands are evaluated, in which order things happen, and where the names in a function's body are looked up.
*/
module Laws {
  import opened Wrappers
  import opened Types
  import opened Syntax
  import opened Store
  import opened StoreFacts
  import opened Reference
  import opened Scoping

  // ---------------------------------------------------------------------------------------------------
  // Reading back what was written

  lemma SameIndex(vars: seq<Env>, i: nat, v: Value, y: string)
    requires i < |vars|
    ensures Find(vars[i := vars[i].(value := v)], y) == Find(vars, y)
  {
    var now := vars[i := vars[i].(value := v)];
    assert forall j :: 0 <= j < |vars| ==> now[j].name == vars[j].name;
    var a, b := Find(vars, y), Find(now, y);
    assert a < |vars| ==> now[a].name == y;
    assert b < |vars| ==> vars[b].name == y;
  }

  /** The names of the two stores are found in the same scopes, along the chains and in each scope. */
  ghost predicate SameFound(h: Heap, k: Heap, y: string) {
    && (forall r: Ref :: Has(h, r, y) <==> Has(k, r, y))
    && |h.scopes| == |k.scopes| && forall r :: 0 <= r < |h.scopes| ==> k.scopes[r].parent == h.scopes[r].parent
  }

  lemma {:induction false} SameWay(h: Heap, k: Heap, r: Ref, y: string)
    requires SameFound(h, k, y)
    ensures FindUp(k, r, y) == FindUp(h, r, y)
    decreases r
  {
    if !Has(h, r, y) && r < |h.scopes| && h.scopes[r].parent.Some? && h.scopes[r].parent.value < r {
      SameWay(h, k, h.scopes[r].parent.value, y);
    }
  }

  lemma SetVarFound(h: Heap, r: Ref, i: nat, v: Value, y: string)
    requires r < |h.scopes| && i < |h.scopes[r].vars|
    ensures SameFound(h, SetVar(h, r, i, v), y)
    ensures forall q: Ref :: Has(h, q, y) ==>
              Binding(SetVar(h, r, i, v), q, y).value ==
              if q == r && Find(h.scopes[r].vars, y) == i then v else Binding(h, q, y).value
  {
    SameIndex(h.scopes[r].vars, i, v, y);
    hide Find;
  }

  /** After an assignment the name has the new value, and every other name the value it had. */
  lemma AssignThenRead(c: Ctx, h: Heap, x: string, v: Value, n: nat, y: string)
    requires Set(c, h, x, v, n).Written?
    ensures Get(c, Set(c, h, x, v, n).h, y) == if y == x then v else Get(c, h, y)
  {
    var at := Lookup(c, h, x).value;
    var i := Find(h.scopes[at].vars, x);
    var k := SetVar(h, at, i, v);
    SetVarFound(h, at, i, v, y);
    SameWay(h, k, c.env, y);
    hide Find, FindUp, SetVar, IsOfType;
    assert Lookup(c, k, y) == Lookup(c, h, y);
  }

  lemma {:induction false} AppendedIndex(vars: seq<Env>, e: Env, y: string)
    ensures Find(vars + [e], y) == if Find(vars, y) < |vars| || y != e.name then
                                     (if Find(vars, y) < |vars| then Find(vars, y) else |vars| + 1) else |vars|
  {
    var a, b := Find(vars, y), Find(vars + [e], y);
    assert forall j :: 0 <= j < |vars| ==> (vars + [e])[j] == vars[j];
    assert (vars + [e])[|vars|] == e;
  }

  lemma AddVarFound(h: Heap, r: Ref, e: Env, y: string)
    requires r < |h.scopes| && !Has(h, r, e.name)
    ensures y != e.name ==> SameFound(h, AddVar(h, r, e), y)
    ensures Has(AddVar(h, r, e), r, e.name) && Binding(AddVar(h, r, e), r, e.name) == e
    ensures y != e.name ==> forall q: Ref :: Has(h, q, y) ==> Binding(AddVar(h, r, e), q, y) == Binding(h, q, y)
  {
    AppendedIndex(h.scopes[r].vars, e, y);
    AppendedIndex(h.scopes[r].vars, e, e.name);
    hide Find;
  }

  /** After a declaration the name has the declared value, and every other name the value it had. */
  lemma DeclareThenRead(c: Ctx, h: Heap, x: string, ty: Ty, v: Value, n: nat, y: string)
    requires Create(c, h, x, ty, v, n).Written?
    ensures Get(c, Create(c, h, x, ty, v, n).h, y) == if y == x then v else Get(c, h, y)
  {
    var k := AddVar(h, c.env, Env(x, ty, v));
    AddVarFound(h, c.env, Env(x, ty, v), y);
    if y != x {
      SameWay(h, k, c.env, y);
    }
    hide Find, AddVar, IsOfType;
  }

  /**
  After a write to a member it has the new value, the other members the values they had. A member that an instance has
  only from its type is written to the instance alone.
  */
  lemma MemberWriteThenRead(c: Ctx, h: Heap, owner: Value, x: string, v: Value, n: nat, y: string)
    requires SetMember(c, h, owner, x, v, n).Written? && (owner.InstV? ==> owner.closure != owner.typeScope)
    ensures GetMember(SetMember(c, h, owner, x, v, n).h, owner, y) == if y == x then v else GetMember(h, owner, y)
    ensures owner.InstV? ==>
              GetMember(SetMember(c, h, owner, x, v, n).h, TypeV(owner.typeScope), y) ==
              GetMember(h, TypeV(owner.typeScope), y)
  {
    var at := MemberAt(h, owner, x).value;
    hide IsOfType;
    if at == owner.closure {
      OverwrittenMember(h, owner, x, v, y);
    } else {
      CopiedMember(h, owner, x, v, y);
    }
  }

  /** Both owners see the same of a scope whose names are where they were. */
  lemma SameMember(h: Heap, k: Heap, owner: Value, y: string)
    requires SameFound(h, k, y)
    ensures MemberAt(k, owner, y) == MemberAt(h, owner, y)
  {
    hide Has;
  }

  lemma OverwrittenMember(h: Heap, owner: Value, x: string, v: Value, y: string)
    requires (owner.TypeV? || owner.InstV?) && MemberAt(h, owner, x) == Some(owner.closure)
    requires owner.InstV? ==> owner.closure != owner.typeScope
    ensures var k := SetVar(h, owner.closure, Find(h.scopes[owner.closure].vars, x), v);
            && GetMember(k, owner, y) == (if y == x then v else GetMember(h, owner, y))
            && (owner.InstV? ==> GetMember(k, TypeV(owner.typeScope), y) == GetMember(h, TypeV(owner.typeScope), y))
  {
    var at := owner.closure;
    var i := Find(h.scopes[at].vars, x);
    SetVarFound(h, at, i, v, y);
    SameMember(h, SetVar(h, at, i, v), owner, y);
    if owner.InstV? {
      SameMember(h, SetVar(h, at, i, v), TypeV(owner.typeScope), y);
    }
    hide SetVar, SameFound;
  }

  lemma CopiedMember(h: Heap, owner: Value, x: string, v: Value, y: string)
    requires owner.InstV? && MemberAt(h, owner, x) == Some(owner.typeScope) && owner.closure != owner.typeScope
    requires owner.closure < |h.scopes|
    ensures var env := Binding(h, owner.typeScope, x);
            var k := AddVar(h, owner.closure, Env(env.name, env.ty, v));
            && GetMember(k, owner, y) == (if y == x then v else GetMember(h, owner, y))
            && GetMember(k, TypeV(owner.typeScope), y) == GetMember(h, TypeV(owner.typeScope), y)
  {
    var env := Binding(h, owner.typeScope, x);
    var k := AddVar(h, owner.closure, Env(env.name, env.ty, v));
    AddVarFound(h, owner.closure, Env(env.name, env.ty, v), y);
    if y != x {
      SameMember(h, k, owner, y);
      SameMember(h, k, TypeV(owner.typeScope), y);
    } else {
      assert k.scopes[owner.typeScope] == h.scopes[owner.typeScope];
    }
    hide AddVar, SameFound;
  }

  // ---------------------------------------------------------------------------------------------------
  // Operators

  /** `x = e`, then `x`. */
  lemma AssignedIsRead(c: Ctx, h: Heap, x: string, e: Expr, n: nat, m: nat)
    requires Quiet(e)
    ensures var r := Eval(Assign(Ident(x), e), c, h, n);
            r.Normal? ==> Eval(Ident(x), c, r.h, m) == Normal(r.v, r.h)
  {
    hide Sound, Step;
    var r := Eval(e, c, h, n);
    if r.Normal? && Set(c, r.h, x, r.v, n).Written? {
      AssignThenRead(c, r.h, x, r.v, n, x);
    }
    hide Set, Get;
  }

  /** `x += e` is `x = x + e`, and so for the other compound assignments. */
  lemma CompoundIsAssignment(op: BinOp, x: string, e: Expr, c: Ctx, h: Heap, n: nat)
    requires Quiet(e) && !op.Or? && !op.And?
    ensures WellFormed(Assign(Ident(x), Binary(op, Ident(x), e)))
    ensures Eval(Compound(op, x, e), c, h, n) == Eval(Assign(Ident(x), Binary(op, Ident(x), e)), c, h, n)
  {
    hide Sound, Step, Set, Get;
    NameIsQuiet(x);
    BinaryIsQuiet(op, Ident(x), e);
    assert Eval(Ident(x), c, h, n) == Normal(Get(c, h, x), h);
    var b := Binary(op, Ident(x), e);
    var r := Eval(e, c, h, n);
    SoundQuiet(c, h, EvalCond(Some(e), c, h, n));
    assert Eval(b, c, h, n) == if r.Normal? then Normal(P(c.ops.binary(op, Get(c, h, x), r.v)), r.h) else r;
  }

  lemma BinaryIsQuiet(op: BinOp, a: Expr, b: Expr)
    requires Quiet(a) && Quiet(b)
    ensures Quiet(Binary(op, a, b))
  {
    assert WellFormed(Binary(op, a, b));
  }

  lemma NameIsQuiet(x: string)
    ensures Quiet(Ident(x))
  {
    assert WellFormed(Ident(x)) && ExprSignals(Ident(x)) == {};
  }

  lemma NotIsQuiet(a: Expr)
    requires Quiet(a)
    ensures Quiet(Unary(Not, a))
  {
    assert WellFormed(Unary(Not, a));
  }

  lemma NotIs(a: Expr, c: Ctx, h: Heap, n: nat)
    requires Quiet(a)
    ensures Quiet(Unary(Not, a))
    ensures var r := Eval(a, c, h, n);
            Eval(Unary(Not, a), c, h, n) == if r.Normal? then Normal(P(Bool(!IsTrue(r.v))), r.h) else r
  {
    hide Sound, Step;
    NotIsQuiet(a);
  }

  /** The values that count as false; every other one counts as true. */
  lemma FalseValues(v: Value)
    ensures !IsTrue(v) <==>
              || v in {P(Unknown), P(Null), P(Bool(false)), P(Int(0)), P(Float(0.0)), P(Str("")), ErrorV}
              || v.InterfaceV?
  {
    match v
    case P(p) =>
      match p {
        case Int(i) => assert i == 0 <==> P(Int(i)) == P(Int(0));
        case _ =>
      }
    case _ =>
  }

  lemma BinaryIs(op: BinOp, a: Expr, b: Expr, c: Ctx, h: Heap, n: nat)
    requires Quiet(a) && Quiet(b) && (op.Or? || op.And?)
    ensures WellFormed(Binary(op, a, b))
    ensures var r := Eval(a, c, h, n);
            Eval(Binary(op, a, b), c, h, n) ==
            if !r.Normal? then r
            else if IsTrue(r.v) == op.Or? then Normal(P(Bool(op.Or?)), r.h)
            else
              var s := Eval(b, c, r.h, n);
              if s.Normal? then Normal(P(Bool(IsTrue(s.v))), s.h) else s
  {
    hide Sound, Step;
    BinaryIsQuiet(op, a, b);
  }

  /** The right operand is not evaluated when the left one decides. */
  lemma LeftDecides(a: Expr, b: Expr, c: Ctx, h: Heap, n: nat)
    requires Quiet(a) && Quiet(b) && Eval(a, c, h, n).Normal?
    ensures var r := Eval(a, c, h, n);
            if IsTrue(r.v) then Eval(Binary(Or, a, b), c, h, n) == Normal(P(Bool(true)), r.h)
            else Eval(Binary(And, a, b), c, h, n) == Normal(P(Bool(false)), r.h)
  {
    BinaryIs(Or, a, b, c, h, n);
    BinaryIs(And, a, b, c, h, n);
  }

  /** `not (a and b)` is `not a or not b`, with everything that evaluating them does. */
  lemma DeMorgan(a: Expr, b: Expr, c: Ctx, h: Heap, n: nat)
    requires Quiet(a) && Quiet(b)
    ensures WellFormed(Unary(Not, Binary(And, a, b))) && WellFormed(Binary(Or, Unary(Not, a), Unary(Not, b)))
    ensures Eval(Unary(Not, Binary(And, a, b)), c, h, n) ==
            Eval(Binary(Or, Unary(Not, a), Unary(Not, b)), c, h, n)
  {
    BinaryIsQuiet(And, a, b);
    NotIs(Binary(And, a, b), c, h, n);
    NotIs(a, c, h, n);
    NotIsQuiet(b);
    BinaryIsQuiet(Or, Unary(Not, a), Unary(Not, b));
    var r := Eval(a, c, h, n);
    if r.Normal? {
      NotIs(b, c, r.h, n);
    }
    BinaryIs(Or, Unary(Not, a), Unary(Not, b), c, h, n);
    BinaryIs(And, a, b, c, h, n);
    hide Sound, Step, Eval, Quiet, WellFormed;
  }

  // ---------------------------------------------------------------------------------------------------
  // Order

  /** A block's items are run from left to right, and the rest only when nothing has ended it. */
  lemma {:induction false} ItemsInOrder(a: seq<Item>, b: seq<Item>, c: Ctx, h: Heap, n: nat)
    requires WellFormedItems(a) && WellFormedItems(b) && a != [] && b != []
    ensures WellFormedItems(a + b)
    ensures var r := EvalItems(a, c, h, n);
            EvalItems(a + b, c, h, n) == if r.Normal? then EvalItems(b, c, r.h, n) else r
    decreases |a|
  {
    hide Sound, EvalItem;
    assert (a + b)[0] == a[0] && (a + b)[1..] == a[1..] + b;
    if |a| == 1 {
      assert a[1..] + b == b;
    } else {
      var r := EvalItem(a[0], c, h, n);
      ItemsInOrder(a[1..], b, c, if r.Normal? then r.h else h, n);
    }
  }

  /** `break p` in a loop and in a bare block: its value is the value of the loop or block. */
  lemma BreakGivesValue(p: Prim, c: Ctx, h: Heap, n: nat)
    ensures var body := [BreakItem(Some(Lit(p)))];
            && WellFormed(While(Lit(Bool(true)), body)) && WellFormed(Block(body))
            && Eval(While(Lit(Bool(true)), body), c, h, n) == Normal(P(p), Push(h, c.env, false))
            && Eval(Block(body), c, h, n) == Normal(P(p), Push(h, c.env, false))
  {
    hide Sound, Step;
    BreakBody(p, c, h, n);
    assert Quiet(Lit(Bool(true)));
    assert Eval(Lit(Bool(true)), c, h, n) == Normal(P(Bool(true)), h);
    hide EvalBlock;
    assert EvalRound(While(Lit(Bool(true)), [BreakItem(Some(Lit(p)))]), c, h, n) == Normal(P(p), Push(h, c.env, false));
  }

  lemma BreakBody(p: Prim, c: Ctx, h: Heap, n: nat)
    ensures var body := [BreakItem(Some(Lit(p)))];
            WellFormedItems(body) && EvalBlock(body, c, h, n) == Abrupt(Break, P(p), Push(h, c.env, false))
  {
    hide Sound, Step;
    var item := BreakItem(Some(Lit(p)));
    assert Quiet(Lit(p)) && [item][1..] == [];
    var d, k := c.(env := |h.scopes|), Push(h, c.env, false);
    assert Eval(Lit(p), d, k, n) == Normal(P(p), k);
    assert EvalCarried(Some(Lit(p)), d, k, n) == Normal(P(p), k);
    assert EvalItem(item, d, k, n) == Abrupt(Break, P(p), k);
  }

  /** A signal raised by the initializer of a `for` or by a member of a type is an error. */
  lemma SignalsAreErrors(item: Item, e: Expr, name: string, c: Ctx, h: Heap, n: nat)
    requires WellFormedItem(item) && e.For? && WellFormed(e) && e.init == Some(item)
    ensures WellFormed(TypeExpr([item], name))
    ensures EvalItem(item, c.(env := |h.scopes|), Push(h, c.env, false), n).Abrupt? ==>
              Eval(e, c, h, n) == Fail(SignalNotNone)
    ensures EvalItem(item, c.(env := |h.scopes|), Push(h, c.env, true), n).Abrupt? ==>
              Eval(TypeExpr([item], name), c, h, n) == Fail(SignalNotNone)
  {
    hide Sound, Step, EvalItem;
    InitializerSignal(item, e, c.(env := |h.scopes|), Push(h, c.env, false), n);
    OneMember(item, c.(env := |h.scopes|), Push(h, c.env, true), n);
    hide EvalMembers, EvalForIn;
    assert Eval(e, c, h, n) == EvalForIn(e, c.(env := |h.scopes|), Push(h, c.env, false), n);
  }

  lemma InitializerSignal(item: Item, e: Expr, c: Ctx, h: Heap, n: nat)
    requires WellFormedItem(item) && e.For? && WellFormed(e) && e.init == Some(item)
    ensures EvalItem(item, c, h, n).Abrupt? ==> EvalForIn(e, c, h, n) == Fail(SignalNotNone)
  {
    hide Sound, Step, EvalItem, EvalForRound;
    assert EvalInit(e.init, c, h, n) == NoSignal(EvalItem(item, c, h, n));
  }

  function Literals(ps: seq<Prim>): (es: seq<Expr>)
    ensures |es| == |ps|
  {
    seq(|ps|, i requires 0 <= i < |ps| => Lit(ps[i]))
  }

  function ShownLiterals(ps: seq<Prim>): seq<Shown> {
    seq(|ps|, i requires 0 <= i < |ps| => ShownPrim(ps[i]))
  }

  /** `print a, b, ...`: what is shown comes behind what was shown before, in the order of the list. */
  lemma {:induction false} PrintsInOrder(ps: seq<Prim>, c: Ctx, h: Heap, n: nat)
    ensures QuietAll(Literals(ps))
    ensures EvalPrints(Literals(ps), c, h, n) == Normal(P(Null), h.(output := h.output + ShownLiterals(ps)))
  {
    hide Sound, Step;
    if ps == [] {
      assert h.output + [] == h.output;
    } else {
      var es := Literals(ps);
      assert es[0] == Lit(ps[0]) && es[1..] == Literals(ps[1..]);
      assert Quiet(es[0]);
      var k := Printed(h, ShownPrim(ps[0]));
      PrintsInOrder(ps[1..], c, k, n);
      assert ShownLiterals(ps) == [ShownPrim(ps[0])] + ShownLiterals(ps[1..]);
      assert h.output + ShownLiterals(ps) == k.output + ShownLiterals(ps[1..]);
      assert Eval(es[0], c, h, n) == Normal(P(ps[0]), h);
    }
  }

  // ---------------------------------------------------------------------------------------------------
  // Where names go, and where they come from

  lemma DeclarationIs(x: string, ty: Ty, e: Expr, c: Ctx, h: Heap, n: nat)
    requires Quiet(e)
    ensures var s := Eval(e, c, h, n);
            EvalItem(Decl(x, ty, e), c, h, n) ==
            if s.Normal? then Stored(Create(c, s.h, x, ty, s.v, n), s.v, DeclareFailed) else s
    ensures !Eval(e, c, h, n).Abrupt?
  {
    hide Sound, Step, Create;
    SoundQuiet(c, h, EvalCond(Some(e), c, h, n));
    assert EvalCond(Some(e), c, h, n) == Eval(e, c, h, n);
  }

  lemma OneMember(item: Item, c: Ctx, h: Heap, n: nat)
    requires WellFormedItem(item)
    ensures WellFormedItems([item])
    ensures var r := EvalItem(item, c, h, n);
            EvalMembers([item], c, h, n) == if r.Normal? then Normal(P(Null), r.h) else NoSignal(r)
  {
    hide Sound, Step, EvalItem;
    assert [item][1..] == [];
    var r := EvalItem(item, c, h, n);
    assert EvalMembers([], c, if r.Normal? then r.h else h, n) == Normal(P(Null), if r.Normal? then r.h else h);
  }

  /** The value of a member that `extend` declares is computed and bound in the scope of the type, and there alone. */
  lemma ExtendBindsInType(t: string, x: string, ty: Ty, e: Expr, c: Ctx, h: Heap, n: nat)
    requires Quiet(e) && WellFormedItem(Extend(t, [Decl(x, ty, e)]))
    ensures var r := EvalItem(Extend(t, [Decl(x, ty, e)]), c, h, n);
            r.Normal? ==>
              && r.v == Get(c, h, t) && r.v.TypeV?
              && var s := Eval(e, c.(env := r.v.closure), h, n);
                 s.Normal? && r.v.closure < |s.h.scopes| && !Has(s.h, r.v.closure, x)
                 && r.h == AddVar(s.h, r.v.closure, Env(x, ty, s.v))
                 && GetMember(r.h, r.v, x) == s.v
  {
    var item := Decl(x, ty, e);
    var v := Get(c, h, t);
    assert WellFormedItem(item) && WellFormedItems([item]) by {
      assert [item][1..] == [];
    }
    hide Sound, Step, IsOfType, EvalItem, EvalMembers, Eval, Quiet, AddVar, Get, WellFormedItem, WellFormedItems;
    ExtendIs(t, [item], c, h, n);
    if v.TypeV? {
      var d := c.(env := v.closure);
      var s := Eval(e, d, h, n);
      DeclarationIs(x, ty, e, d, h, n);
      OneMember(item, d, h, n);
      if s.Normal? && d.env < |s.h.scopes| && !Has(s.h, d.env, x) {
        AddVarFound(s.h, d.env, Env(x, ty, s.v), x);
      }
    }
  }

  lemma ExtendIs(t: string, members: seq<Item>, c: Ctx, h: Heap, n: nat)
    requires WellFormedItem(Extend(t, members)) && WellFormedItems(members)
    ensures var v := Get(c, h, t);
            EvalItem(Extend(t, members), c, h, n) ==
            if !v.TypeV? then Fail(NotAType)
            else
              var r := EvalMembers(members, c.(env := v.closure), h, n);
              if r.Normal? then Normal(v, r.h) else r
  {
    hide Sound, Step;
  }

  lemma {:induction false} SameAncestors(h: Heap, k: Heap, r: Ref, y: string)
    requires r < |h.scopes| && r < |k.scopes| && forall i :: 0 <= i <= r ==> k.scopes[i] == h.scopes[i]
    ensures FindUp(k, r, y) == FindUp(h, r, y)
    ensures FindUp(h, r, y).Some? ==> FindUp(h, r, y).value <= r
    decreases r
  {
    var up := h.scopes[r].parent;
    if !Has(h, r, y) && up.Some? && up.value < r {
      SameAncestors(h, k, up.value, y);
    }
  }

  function ValueFound(h: Heap, r: Ref, y: string): Value {
    match FindUp(h, r, y)
    case None => P(Unknown)
    case Some(at) => Binding(h, at, y).value
  }

  /** From a fresh scope below the scope `p`, whose parent is now `closure`, a name that `p` does not bind. */
  lemma SeenThroughParent(h: Heap, p: Ref, closure: Ref, ops: Ops, y: string)
    requires closure < p < |h.scopes| && !Has(h, p, y)
    ensures var m := SetParent(h, p, closure);
            Get(Ctx(|m.scopes|, None, ops), Push(m, p, false), y) == ValueFound(h, closure, y)
  {
    var m := SetParent(h, p, closure);
    var start := Push(m, p, false);
    assert start.scopes[|m.scopes|].vars == [] && start.scopes[p].vars == h.scopes[p].vars;
    assert FindUp(start, |m.scopes|, y) == FindUp(start, p, y) == FindUp(start, closure, y);
    SameAncestors(h, start, closure, y);
  }

  /**
  A function `fn(...) { return y }` without an instance, whose parameters are not called `y`, returns what `y` means
  where the function was made, whatever it means where the function is called.
  */
  lemma NamesAreLexical(e: Expr, c: Ctx, h: Heap, n: nat, y: string)
    requires e.Call? && WellFormed(e) && Quiet(e.callee) && Ready(c, h) && n > 0
    requires Eval(e.callee, c, h, n).Normal? && Eval(e.callee, c, h, n).v.FnV?
    requires Eval(e.callee, c, h, n).v.instance == None
    requires Eval(e.callee, c, h, n).v.body == [ReturnItem(Some(Ident(y)))]
    requires BoundCall(e, c, h, n).Normal? && !Has(BoundCall(e, c, h, n).h, |Eval(e.callee, c, h, n).h.scopes|, y)
    ensures EvalCall(e, c, h, n).Normal?
    ensures EvalCall(e, c, h, n).v == ValueFound(BoundCall(e, c, h, n).h, Eval(e.callee, c, h, n).v.closure, y)
  {
    hide Step;
    assert Quiet(e.callee);
    var r := Eval(e.callee, c, h, n);
    StillReady(c, h, r, {});
    var p := |r.h.scopes|;
    var m := SetParent(BoundCall(e, c, h, n).h, p, r.v.closure);
    SeenThroughParent(BoundCall(e, c, h, n).h, p, r.v.closure, c.ops, y);
    ReturnsName(y, CalleeCtx(c, r.h, r.v).(env := |m.scopes|), Push(m, p, false), n - 1);
  }

  /** The scope of the builtin type that the primitive is a value of. */
  function BuiltinOf(p: Prim): Ref
    requires BuiltinName(p).Some?
  {
    match p
    case Int(_) => 1
    case Float(_) => 2
    case Bool(_) => 3
    case Str(_) => 4
  }

  lemma BuiltinNames(p: Prim)
    requires BuiltinName(p).Some?
    ensures var vars, name := BUILTINS.scopes[0].vars, BuiltinName(p).value;
            && Find(vars, name) == BuiltinOf(p) - 1 < |vars| && vars[BuiltinOf(p) - 1].value == TypeV(BuiltinOf(p))
            && vars[BuiltinOf(p) - 1].ty == TType && name != "value" && name != "self" && IsBuiltin(name)
  {
    var vars := BUILTINS.scopes[0].vars;
    assert vars[0].name == "int" && vars[1].name == "float" && vars[2].name == "bool" && vars[3].name == "str";
    assert |"int"| == 3 && |"float"| == 5 && |"bool"| == 4 && "str" != "int" && |"value"| == 5 && |"self"| == 4;
    assert "float"[0] != "value"[0] && "bool"[0] != "self"[0];
  }

  /** The throw-away instance, its member `value`, and its `self`. */
  function Box(p: Prim): Value
    requires BuiltinName(p).Some?
  {
    InstV(5, BuiltinOf(p), BuiltinName(p).value, false)
  }

  function BoxStore(p: Prim): Heap
    requires BuiltinName(p).Some?
  {
    var h := AddVar(Push(BUILTINS, 0, true), 5, Env("value", TAny, P(p)));
    AddVar(h, 5, Env("self", TNamed(BuiltinName(p).value), Box(p).(weakRef := true)))
  }

  lemma BoxIsFilled(p: Prim, ops: Ops, n: nat)
    requires BuiltinName(p).Some?
    ensures Initialize(Box(p), "value", P(p), Ctx(5, None, ops), Push(BUILTINS, 0, true), n) ==
            Normal(Box(p), AddVar(Push(BUILTINS, 0, true), 5, Env("value", TAny, P(p))))
  {
    var h := Push(BUILTINS, 0, true);
    assert h.scopes[5].vars == [] && h.scopes[BuiltinOf(p)] == BuiltinScope();
    assert Find(BuiltinScope().vars, "value") == 0;
    assert MemberAt(h, Box(p), "value") == Some(BuiltinOf(p));
  }

  lemma BoxHasSelf(p: Prim, ops: Ops, n: nat)
    requires BuiltinName(p).Some?
    ensures var h := AddVar(Push(BUILTINS, 0, true), 5, Env("value", TAny, P(p)));
            BindSelf(Box(p), Ctx(5, None, ops), h, n) == Normal(Box(p), BoxStore(p))
  {
    var h, name := AddVar(Push(BUILTINS, 0, true), 5, Env("value", TAny, P(p))), BuiltinName(p).value;
    BuiltinNames(p);
    assert h.scopes[5] == Scope([Env("value", TAny, P(p))], Some(0), true) && h.scopes[0] == BUILTINS.scopes[0];
    assert "value" != "self";
    var self := InstV(5, BuiltinOf(p), name, true);
    assert self == Box(p).(weakRef := true) by {
      assert Box(p) == InstV(5, BuiltinOf(p), name, false);
    }
    hide BuiltinName, BuiltinOf, IsBuiltin;
    assert FindUp(h, 5, name) == Some(0);
    assert IsOfType(Ctx(5, None, ops), h, self, TNamed(name), n) == Yes;
  }

  lemma BoxIsMade(p: Prim, ops: Ops, n: nat)
    requires BuiltinName(p).Some?
    ensures Boxed(P(p), Ctx(0, None, ops), BUILTINS, n) == Normal(Box(p), BoxStore(p))
  {
    BuiltinNames(p);
    BoxIsFilled(p, ops, n);
    BoxHasSelf(p, ops, n);
    hide BindSelf, Initialize;
    assert Get(Ctx(0, None, ops), BUILTINS, BuiltinName(p).value) == TypeV(BuiltinOf(p));
  }

  lemma BoxMember(p: Prim)
    requires BuiltinName(p).Some?
    ensures GetMember(BoxStore(p), Box(p), "value") == P(p)
  {
    assert BoxStore(p).scopes[5].vars[0] == Env("value", TAny, P(p));
  }

  lemma MemberOfLiteral(p: Prim, field: string, c: Ctx, h: Heap, n: nat)
    ensures WellFormed(Expr.Member(Lit(p), field))
    ensures var b := Boxed(P(p), c, h, n);
            b.Normal? && GetMember(b.h, b.v, field).P? && GetMember(b.h, b.v, field) != P(Unknown) ==>
              Eval(Expr.Member(Lit(p), field), c, h, n) == Normal(GetMember(b.h, b.v, field), b.h)
  {
    hide Sound, Step, Boxed, GetMember;
    assert Quiet(Lit(p));
    assert Eval(Lit(p), c, h, n) == Normal(P(p), h);
  }

  /** `.value` of a number, a truth value or a string gives it back. */
  lemma ValueOfPrimitive(p: Prim, ops: Ops, n: nat)
    requires BuiltinName(p).Some?
    ensures WellFormed(Expr.Member(Lit(p), "value"))
    ensures Eval(Expr.Member(Lit(p), "value"), Ctx(0, None, ops), BUILTINS, n) == Normal(P(p), BoxStore(p))
  {
    BoxIsMade(p, ops, n);
    BoxMember(p);
    MemberOfLiteral(p, "value", Ctx(0, None, ops), BUILTINS, n);
    hide Eval, Boxed, GetMember, BoxStore, Box, Sound;
  }
}
