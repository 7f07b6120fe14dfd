/** A program in which an instance field hides a parameter, run from the builtin types to the wrong answer. */
module FieldHiding {
  import opened Wrappers
  import opened Types
  import opened Syntax
  import opened Store
  import opened StoreFacts
  import opened Reference
  import opened Scoping

  const GET_BODY: seq<Item> := [ReturnItem(Some(Ident("x")))]
  const GET_TYPE: Ty := TFn([TAny], TAny)

  /** `type T { var x; fn get(x) { return x } }` and `var o = type T { x = 5 }`. */
  const METHOD_PROGRAM: seq<Item> := [
    ExprItem(TypeExpr([Decl("x", TAny, Lit(Null)),
                       ExprItem(FnExpr([Param("x", TAny, None)], GET_BODY, "get", GET_TYPE))], "T")),
    Decl("o", TAny, InstExpr("T", [Init("x", Lit(Int(5)))], ""))]

  lemma GetBodyIsBody()
    ensures FunctionBody(GET_BODY)
  {
    var item := ReturnItem(Some(Ident("x")));
    assert GET_BODY == [item];
    assert Quiet(Ident("x")) && [item][1..] == [];
    assert ItemsSignals([item][1..]) == {};
  }

  function GetMethod(): Value {
    GetBodyIsBody();
    FnV(6, GET_BODY, GET_TYPE, None)
  }

  /**
  The store after that program: the builtin types, the scope of `T`, the closure of its method, and the instance, whose
  field `x` holds 5.
  */
  function MethodStore(): Heap {
    var global := BUILTINS.scopes[0];
    Heap([global.(vars := global.vars + [Env("T", TType, TypeV(5)), Env("o", TAny, InstV(7, 5, "T", false))])]
         + BUILTINS.scopes[1..]
         + [Scope([Env("x", TAny, P(Null)), Env("get", GET_TYPE, GetMethod())], Some(0), true),
            Scope([Env("x", TAny, P(Unknown))], Some(5), false),
            Scope([Env("x", TAny, P(Int(5))), Env("self", TNamed("T"), InstV(7, 5, "T", true))], Some(0), true)], [], 0)
  }

  /** The store inside the declaration of `T`, once its members have been declared. */
  function DeclaredStore(): Heap {
    Heap(BUILTINS.scopes + [Scope([Env("x", TAny, P(Null)), Env("get", GET_TYPE, GetMethod())], Some(0), true),
                            Scope([Env("x", TAny, P(Unknown))], Some(5), false)], [], 0)
  }

  lemma MethodIsDeclared(ops: Ops, n: nat)
    ensures var k := AddVar(Push(BUILTINS, 0, true), 5, Env("x", TAny, P(Null)));
            var e := FnExpr([Param("x", TAny, None)], GET_BODY, "get", GET_TYPE);
            WellFormed(e) && Eval(e, Ctx(5, None, ops), k, n) == Normal(GetMethod(), DeclaredStore())
  {
    hide Step, Sound;
    GetBodyIsBody();
    var k := AddVar(Push(BUILTINS, 0, true), 5, Env("x", TAny, P(Null)));
    var e := FnExpr([Param("x", TAny, None)], GET_BODY, "get", GET_TYPE);
    var c, d := Ctx(5, None, ops), Ctx(6, None, ops);
    var l := Push(k, 5, false);
    var m := AddVar(l, 6, Env("x", TAny, P(Unknown)));
    assert e.params[1..] == [];
    assert Create(d, l, "x", TAny, P(Unknown), n) == Written(m);
    assert EvalParams(e.params[1..], d, m, n) == Normal(P(Null), m);
    assert EvalParams(e.params, d, l, n) == Normal(P(Null), m);
    assert m.scopes[5].vars == [Env("x", TAny, P(Null))] && "x" != "get";
    assert Create(c, m, "get", GET_TYPE, GetMethod(), n) == Written(AddVar(m, 5, Env("get", GET_TYPE, GetMethod())));
    DeclaredStoreBuilt();
  }

  lemma DeclaredStoreBuilt()
    ensures var l := Push(AddVar(Push(BUILTINS, 0, true), 5, Env("x", TAny, P(Null))), 5, false);
            var m := AddVar(l, 6, Env("x", TAny, P(Unknown)));
            AddVar(m, 5, Env("get", GET_TYPE, GetMethod())) == DeclaredStore()
  {
    var l := Push(AddVar(Push(BUILTINS, 0, true), 5, Env("x", TAny, P(Null))), 5, false);
    var m := AddVar(AddVar(l, 6, Env("x", TAny, P(Unknown))), 5, Env("get", GET_TYPE, GetMethod()));
    assert m.scopes[5] == DeclaredStore().scopes[5] && m.scopes[6] == DeclaredStore().scopes[6];
    assert forall i :: 0 <= i < 5 ==> m.scopes[i] == BUILTINS.scopes[i] == DeclaredStore().scopes[i];
    assert |m.scopes| == |DeclaredStore().scopes| == 7;
    assert m.scopes == DeclaredStore().scopes;
  }

  lemma MembersAreDeclared(ops: Ops, n: nat)
    ensures var members := METHOD_PROGRAM[0].e.members;
            && WellFormedItems(members)
            && EvalMembers(members, Ctx(5, None, ops), Push(BUILTINS, 0, true), n) == Normal(P(Null), DeclaredStore())
  {
    hide Step, Sound;
    var members := METHOD_PROGRAM[0].e.members;
    var c, k := Ctx(5, None, ops), Push(BUILTINS, 0, true);
    var l := AddVar(k, 5, Env("x", TAny, P(Null)));
    MethodIsDeclared(ops, n);
    assert members[1..][0] == members[1] && members[1..][1..] == [] && WellFormedItem(members[0]);
    assert Create(c, k, "x", TAny, P(Null), n) == Written(l);
    assert EvalItem(members[0], c, k, n) == Normal(P(Null), l);
    assert EvalItem(members[1], c, l, n) == Normal(GetMethod(), DeclaredStore());
    assert EvalMembers(members[1..], c, l, n) == Normal(P(Null), DeclaredStore());
  }

  /** The store after the declaration of `T`. */
  function TypeStore(): Heap {
    AddVar(DeclaredStore(), 0, Env("T", TType, TypeV(5)))
  }

  lemma TypeIsDeclared(ops: Ops, n: nat)
    ensures WellFormedItem(METHOD_PROGRAM[0])
    ensures EvalItem(METHOD_PROGRAM[0], Ctx(0, None, ops), BUILTINS, n) == Normal(TypeV(5), TypeStore())
  {
    hide Step, Sound, EvalMembers;
    var c, e := Ctx(0, None, ops), METHOD_PROGRAM[0].e;
    MembersAreDeclared(ops, n);
    var vars := DeclaredStore().scopes[0].vars;
    assert vars == BUILTINS.scopes[0].vars;
    assert |"int"| == 3 && |"float"| == 5 && |"bool"| == 4 && |"str"| == 3 && |"T"| == 1;
    assert Find(vars, "T") == 4;
    assert Create(c, DeclaredStore(), "T", TType, TypeV(5), n) == Written(TypeStore());
    assert EvalType(e, c, BUILTINS, n) == Normal(TypeV(5), TypeStore());
  }

  /** The instance scope with its field and `self`. */
  function InstanceStore(): Heap {
    var o := InstV(7, 5, "T", true);
    AddVar(AddVar(Push(TypeStore(), 0, true), 7, Env("x", TAny, P(Int(5)))), 7, Env("self", TNamed("T"), o))
  }

  lemma FieldIsSet(ops: Ops, n: nat)
    ensures var o, c, k := InstV(7, 5, "T", false), Ctx(7, None, ops), Push(TypeStore(), 0, true);
            && |k.scopes| == 8
            && Initialize(o, "x", P(Int(5)), c, k, n) == Normal(o, AddVar(k, 7, Env("x", TAny, P(Int(5)))))
  {
    var o, c, k := InstV(7, 5, "T", false), Ctx(7, None, ops), Push(TypeStore(), 0, true);
    assert !IsBuiltin("T");
    assert k.scopes[7].vars == [] && k.scopes[5].vars[0] == Env("x", TAny, P(Null));
    assert MemberAt(k, o, "x") == Some(5) && Binding(k, 5, "x") == Env("x", TAny, P(Null));
  }

  lemma InstanceIsFilled(ops: Ops, n: nat)
    ensures var e := METHOD_PROGRAM[1].e;
            && WellFormed(e)
            && EvalInstIn(e, InstV(7, 5, "T", false), Ctx(7, None, ops), Push(TypeStore(), 0, true), n)
               == Normal(InstV(7, 5, "T", false), InstanceStore())
  {
    hide Step, Sound, OwnerSound, BindSelf, TypeStore, InstanceStore, Initialize;
    var e, o, c, k := METHOD_PROGRAM[1].e, InstV(7, 5, "T", false), Ctx(7, None, ops), Push(TypeStore(), 0, true);
    InitsAreDone(ops, n);
    SelfIsBound(ops, n);
  }

  lemma InitsAreDone(ops: Ops, n: nat)
    ensures var o, c, k := InstV(7, 5, "T", false), Ctx(7, None, ops), Push(TypeStore(), 0, true);
            var inits := [Init("x", Lit(Int(5)))];
            QuietInits(inits) && EvalInits(inits, o, c, k, n) == Normal(o, AddVar(k, 7, Env("x", TAny, P(Int(5)))))
  {
    hide Step, Sound, OwnerSound, TypeStore, Initialize, Push;
    var init := Init("x", Lit(Int(5)));
    var o, c, k := InstV(7, 5, "T", false), Ctx(7, None, ops), Push(TypeStore(), 0, true);
    FieldIsSet(ops, n);
    assert |k.scopes| > 7;
    var l := AddVar(k, 7, Env("x", TAny, P(Int(5))));
    assert [init][1..] == [];
    assert EvalInit1(init, o, c, k, n) == Normal(o, l);
    assert EvalInits([], o, c, l, n) == Normal(o, l);
  }

  lemma SelfIsBound(ops: Ops, n: nat)
    ensures var l := AddVar(Push(TypeStore(), 0, true), 7, Env("x", TAny, P(Int(5))));
            var o := InstV(7, 5, "T", false);
            BindSelf(o, Ctx(7, None, ops), l, n) == Normal(o, InstanceStore())
  {
    var c, self := Ctx(7, None, ops), InstV(7, 5, "T", true);
    var l := AddVar(Push(TypeStore(), 0, true), 7, Env("x", TAny, P(Int(5))));
    assert l.scopes[7].vars == [Env("x", TAny, P(Int(5)))] && "x" != "T" && "x" != "self";
    GlobalTypes();
    assert l.scopes[0] == TypeStore().scopes[0];
    assert FindUp(l, 7, "T") == Some(0);
    assert IsOfType(c, l, self, TNamed("T"), n) == Yes;
  }

  lemma GlobalTypes()
    ensures var vars := TypeStore().scopes[0].vars;
            |vars| == 5 && Find(vars, "T") == 4 && Find(vars, "o") == 5 && vars[4] == Env("T", TType, TypeV(5))
  {
    var vars := TypeStore().scopes[0].vars;
    assert vars == BUILTINS.scopes[0].vars + [Env("T", TType, TypeV(5))];
    assert vars[0].name == "int" && vars[1].name == "float" && vars[2].name == "bool" && vars[3].name == "str";
    assert vars[4].name == "T" && "T" != "o";
    assert forall j :: 0 <= j < 4 ==> |vars[j].name| > 1;
  }

  lemma InstanceIsDeclared(ops: Ops, n: nat)
    ensures WellFormedItem(METHOD_PROGRAM[1])
    ensures EvalItem(METHOD_PROGRAM[1], Ctx(0, None, ops), TypeStore(), n)
         == Normal(InstV(7, 5, "T", false), MethodStore())
  {
    hide Step, Sound, OwnerSound, EvalInstIn;
    var c, e, o := Ctx(0, None, ops), METHOD_PROGRAM[1].e, InstV(7, 5, "T", false);
    InstanceIsFilled(ops, n);
    GlobalTypes();
    assert Get(c, TypeStore(), "T") == TypeV(5) && |TypeStore().scopes| == 7;
    assert EvalInst(e, c, TypeStore(), n) == Normal(o, InstanceStore());
    assert InstanceStore().scopes[0] == TypeStore().scopes[0];
    assert Create(c, InstanceStore(), "o", TAny, o, n) == Written(AddVar(InstanceStore(), 0, Env("o", TAny, o)));
    MethodStoreBuilt();
  }

  lemma MethodStoreBuilt()
    ensures AddVar(InstanceStore(), 0, Env("o", TAny, InstV(7, 5, "T", false))) == MethodStore()
  {
    var h := AddVar(InstanceStore(), 0, Env("o", TAny, InstV(7, 5, "T", false)));
    MethodScopes();
    InstanceScopes();
    assert h.scopes[0].vars == MethodStore().scopes[0].vars[..4] + MethodStore().scopes[0].vars[4..];
    assert h.scopes[0] == MethodStore().scopes[0];
    assert forall i :: 1 <= i < 8 ==> h.scopes[i] == MethodStore().scopes[i];
    assert h.scopes == MethodStore().scopes;
  }

  lemma InstanceScopes()
    ensures var h := InstanceStore();
            && |h.scopes| == 8 && h.output == [] && h.methodCalls == 0
            && (forall i :: 1 <= i < 5 ==> h.scopes[i] == BuiltinScope())
            && h.scopes[0] == BUILTINS.scopes[0].(vars := BUILTINS.scopes[0].vars + [Env("T", TType, TypeV(5))])
            && h.scopes[5] == Scope([Env("x", TAny, P(Null)), Env("get", GET_TYPE, GetMethod())], Some(0), true)
            && h.scopes[6] == Scope([Env("x", TAny, P(Unknown))], Some(5), false)
            && h.scopes[7] ==
               Scope([Env("x", TAny, P(Int(5))), Env("self", TNamed("T"), InstV(7, 5, "T", true))], Some(0), true)
  {
  }

  /** The store is the one the program leaves behind. */
  lemma MethodStoreReached(ops: Ops, n: nat)
    ensures WellFormedItems(METHOD_PROGRAM)
    ensures Run(METHOD_PROGRAM, Ctx(0, None, ops), BUILTINS, n) == Normal(P(Null), MethodStore())
  {
    hide Step, Sound, EvalItem;
    TypeIsDeclared(ops, n);
    InstanceIsDeclared(ops, n);
    var rest := METHOD_PROGRAM[1..];
    assert rest[0] == METHOD_PROGRAM[1] && rest[1..] == [];
    assert Run(rest, Ctx(0, None, ops), TypeStore(), n) == Normal(P(Null), MethodStore());
  }

  /** Its scopes one by one. */
  lemma MethodScopes()
    ensures var h := MethodStore();
            && |h.scopes| == 8 && |h.scopes[0].vars| == 6 && (forall i :: 1 <= i < 5 ==> h.scopes[i] == BuiltinScope())
            && h.scopes[0].vars[..4] == BUILTINS.scopes[0].vars && h.scopes[0].parent == None
            && h.scopes[0].vars[4..] == [Env("T", TType, TypeV(5)), Env("o", TAny, InstV(7, 5, "T", false))]
            && h.scopes[5] == Scope([Env("x", TAny, P(Null)), Env("get", GET_TYPE, GetMethod())], Some(0), true)
            && h.scopes[6] == Scope([Env("x", TAny, P(Unknown))], Some(5), false)
            && h.scopes[7] ==
               Scope([Env("x", TAny, P(Int(5))), Env("self", TNamed("T"), InstV(7, 5, "T", true))], Some(0), true)
  {
  }

  lemma MethodStoreGood()
    ensures Good(MethodStore())
  {
    var h := MethodStore();
    MethodScopes();
    GlobalNames();
    hide MethodStore;
    forall i | 0 <= i < |h.scopes| ensures ScopeGood(h, i) {
      assert "x" != "get" && "x" != "self";
      forall j | 0 <= j < |h.scopes[i].vars| ensures EnvGood(h, h.scopes[i].vars[j]) {
        if i == 0 {
          GlobalBindingGood(j);
        }
      }
    }
  }

  lemma GlobalBindingGood(j: nat)
    requires j < 6
    ensures |MethodStore().scopes[0].vars| == 6 && EnvGood(MethodStore(), MethodStore().scopes[0].vars[j])
  {
    var h := MethodStore();
    MethodScopes();
    hide MethodStore;
    var vars := h.scopes[0].vars;
    assert vars == vars[..4] + vars[4..];
    assert j < 4 ==> vars[j] == BUILTINS.scopes[0].vars[j];
  }

  lemma GlobalNames()
    ensures var vars := MethodStore().scopes[0].vars;
            |vars| == 6 && Find(vars, "T") == 4 && Find(vars, "o") == 5 && Distinct(vars)
  {
    var vars := MethodStore().scopes[0].vars;
    assert vars[0].name == "int" && vars[1].name == "float" && vars[2].name == "bool" && vars[3].name == "str";
    assert vars[4].name == "T" && vars[5].name == "o" && "T" != "o";
    assert |"int"| == 3 && |"float"| == 5 && |"bool"| == 4 && "str" != "int";
    assert forall j :: 0 <= j < 4 ==> |vars[j].name| > 1;
  }

  lemma CalleeIsMethod(c: Ctx, n: nat)
    requires c.env == 0 && c.inst == None
    ensures var callee := Expr.Member(Ident("o"), "get");
            Quiet(callee) && Eval(callee, c, MethodStore(), n) ==
                             Normal(GetMethod().(instance := Some(7)), MethodStore())
  {
    hide Step, Sound;
    var h, callee := MethodStore(), Expr.Member(Ident("o"), "get");
    var o := InstV(7, 5, "T", false);
    assert Quiet(Ident("o")) && Quiet(callee);
    InstanceIsBound();
    GetIsMember();
    hide MethodStore;
    assert FindUp(h, 0, "o") == Some(0);
    assert Eval(Ident("o"), c, h, n) == Normal(o, h);
    assert Boxed(o, c, h, n) == Normal(o, h);
    assert EvalMember(callee, c, h, n) == Normal(Bound(o, GetMethod()), h);
  }

  lemma InstanceIsBound()
    ensures var h := MethodStore();
            Has(h, 0, "o") && Binding(h, 0, "o").value == InstV(7, 5, "T", false)
  {
    MethodScopes();
    GlobalNames();
    var h := MethodStore();
    hide MethodStore;
    assert h.scopes[0].vars[5] == h.scopes[0].vars[4..][1];
  }

  lemma GetIsMember()
    ensures GetMember(MethodStore(), InstV(7, 5, "T", false), "get") == GetMethod()
  {
    MethodScopes();
    var h := MethodStore();
    hide MethodStore;
    assert "x" != "get" && "self" != "get";
    assert Find(h.scopes[7].vars, "get") == 2 && Find(h.scopes[5].vars, "get") == 1;
  }

  /** The one argument, 7, is bound to `x` in the parameter scope; nothing else changes. */
  lemma SevenIsBound(i: Option<Ref>, ops: Ops, n: nat)
    ensures var d, k := Ctx(8, i, ops), Push(CountCall(MethodStore(), Some(7)), 0, false);
            && QuietArgs([Lit(Int(7))], false)
            && EvalBinding([Lit(Int(7))], 6, d, k, n) == Normal(P(Null), AddVar(k, 8, Env("x", TAny, P(Int(7)))))
  {
    hide Step, Sound;
    var d, k, seven := Ctx(8, i, ops), Push(CountCall(MethodStore(), Some(7)), 0, false), Lit(Int(7));
    var l := AddVar(k, 8, Env("x", TAny, P(Int(7))));
    assert Quiet(seven) && [seven][1..] == [];
    assert k.scopes[8].vars == [] && k.scopes[6].vars == [Env("x", TAny, P(Unknown))];
    assert EvalArg(seven, 0, 6, d, k, n) == Normal(P(Int(7)), l);
    assert EvalArgs([seven], 0, 6, false, d, k, n) == Normal(P(Null), l);
    assert l.scopes[8].vars == [Env("x", TAny, P(Int(7)))] && Has(l, 8, "x");
    assert FillDefaults(6, 0, 1, d, l, n) == Normal(P(Null), l);
  }

  /** `o.get(7)` returns 5 while the instance lives. The call is well defined after its death too, and returns 7. */
  lemma FieldWins(ops: Ops, n: nat)
    requires n > 0
    ensures var e := Call(Expr.Member(Ident("o"), "get"), [Lit(Int(7))]);
            && WellFormed(e)
            && EvalCall(e, Ctx(0, None, ops), MethodStore(), n).Normal?
            && EvalCall(e, Ctx(0, None, ops), MethodStore(), n).v == P(Int(if ops.gone(0) then 7 else 5))
  {
    hide Step, Sound, Eval, EvalBinding, EvalCall, Good;
    var h, e := MethodStore(), Call(Expr.Member(Ident("o"), "get"), [Lit(Int(7))]);
    var c := Ctx(0, None, ops);
    MethodStoreGood();
    CalleeIsMethod(c, n);
    SevenIsBound(Receiver(ops, h, Some(7)), ops, n);
    assert CalleeStore(c, h, Eval(e.callee, c, h, n).v).scopes[7] == h.scopes[7] && |h.scopes| == 8;
    MethodReturnsField(e, c, h, n, 7, "x");
  }
}
