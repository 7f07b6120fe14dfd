/**
What it means that a value conforms to an annotation, said with quantifiers over the members of an interface and not
through the recursive check, and two runs that decide on such an annotation.
*/
module Conformance {
  import opened Wrappers
  import opened Types
  import opened Syntax
  import opened Store
  import opened StoreFacts
  import opened Reference
  import opened Fuel

  /** `value` is what the first binding called `name` holds. */
  predicate Binds(vars: seq<Env>, name: string, value: Value) {
    exists i :: 0 <= i < |vars| && vars[i].name == name && vars[i].value == value
                && forall j :: 0 <= j < i ==> vars[j].name != name
  }

  predicate Unbound(vars: seq<Env>, name: string) {
    forall i :: 0 <= i < |vars| ==> vars[i].name != name
  }

  /** A type has what its scope binds; an instance has what its own scope binds, and else what its type's scope does. */
  predicate HasMember(h: Heap, v: Value, name: string, value: Value)
    requires v.TypeV? || v.InstV?
  {
    || Binds(Vars(h, v.closure), name, value)
    || (v.InstV? && Unbound(Vars(h, v.closure), name) && Binds(Vars(h, v.typeScope), name, value))
  }

  predicate LacksMember(h: Heap, v: Value, name: string)
    requires v.TypeV? || v.InstV?
  {
    Unbound(Vars(h, v.closure), name) && (v.InstV? ==> Unbound(Vars(h, v.typeScope), name))
  }

  /** Conformance that needs no more than `n` steps into members and names of interfaces. */
  ghost predicate Meets(c: Ctx, h: Heap, v: Value, ty: Ty, n: nat)
    decreases n, 0
  {
    v == P(Unknown) || v == P(Null) ||
    match ty
    case TAny => true
    case TType => v.TypeV?
    case TFn(_, _) => v.FnV? && v.ty == ty
    case TNamed(name) =>
      || (v.P? && BuiltinName(v.p) == Some(name))
      || ((v.TypeV? || v.InstV?) && Lookup(c, h, name).Some? &&
          var env := Binding(h, Lookup(c, h, name).value, name);
          if env.ty.TInterface? then n > 0 && Meets(c, h, v, env.ty, n - 1)
          else if v.InstV? then v.tyName == name
          else (env.ty.TType? || env.value.TypeV?) && (env.value.TypeV? || env.value.InstV?)
               && env.value.closure == v.closure)
    case TInterface(members) =>
      || v == InterfaceV(ty)
      || ((v.TypeV? || v.InstV?) && forall i :: 0 <= i < |members| ==> n > 0 && MemberMeets(c, h, v, members[i], n - 1))
  }

  /** The member is there and its value conforms in turn. */
  ghost predicate MemberMeets(c: Ctx, h: Heap, v: Value, m: Types.Member, n: nat)
    requires v.TypeV? || v.InstV?
    decreases n, 1
  {
    exists value :: HasMember(h, v, m.name, value) && Meets(c, h, value, m.ty, n)
  }

  ghost predicate Conforms(c: Ctx, h: Heap, v: Value, ty: Ty) {
    exists n: nat :: Meets(c, h, v, ty, n)
  }

  // ---------------------------------------------------------------------------------------------------
  // The check decides conformance

  lemma FoundIsBound(vars: seq<Env>, name: string)
    ensures Find(vars, name) == |vars| <==> Unbound(vars, name)
    ensures forall value :: Binds(vars, name, value) <==>
              Find(vars, name) < |vars| && vars[Find(vars, name)].value == value
  {
    var i := Find(vars, name);
    if i < |vars| {
      forall value | Binds(vars, name, value) ensures vars[i].value == value {
        var k :| 0 <= k < |vars| && vars[k].name == name && vars[k].value == value
                 && forall j :: 0 <= j < k ==> vars[j].name != name;
        assert k == i;
      }
    }
  }

  lemma MemberIsFound(h: Heap, v: Value, name: string)
    requires v.TypeV? || v.InstV?
    ensures MemberAt(h, v, name) == None <==> LacksMember(h, v, name)
    ensures forall value :: HasMember(h, v, name, value) <==>
              MemberAt(h, v, name).Some? && Binding(h, MemberAt(h, v, name).value, name).value == value
  {
    FoundIsBound(Vars(h, v.closure), name);
    if v.InstV? {
      FoundIsBound(Vars(h, v.typeScope), name);
    }
    hide Binds, Unbound, Find;
  }

  /** With fuel `n` the answer is yes exactly when conformance needs no more than `n` steps. */
  lemma {:induction false} CheckIsMeets(c: Ctx, h: Heap, v: Value, ty: Ty, n: nat)
    ensures IsOfType(c, h, v, ty, n) == Yes <==> Meets(c, h, v, ty, n)
    decreases n, 2
  {
    match ty
    case TNamed(name) =>
      var at := Lookup(c, h, name);
      if at.Some? && n > 0 {
        CheckIsMeets(c, h, v, Binding(h, at.value, name).ty, n - 1);
      }
    case TInterface(members) =>
      if v.TypeV? || v.InstV? {
        MembersAreMet(c, h, v, members, n);
      }
    case _ =>
  }

  lemma {:induction false} MembersAreMet(c: Ctx, h: Heap, v: Value, members: seq<Types.Member>, n: nat)
    requires v.TypeV? || v.InstV?
    ensures HasMembers(c, h, v, members, n) == Yes <==>
            forall i :: 0 <= i < |members| ==> n > 0 && MemberMeets(c, h, v, members[i], n - 1)
    decreases n, 1, members
  {
    if members != [] {
      FirstIsMet(c, h, v, members[0], n);
      hide MemberMeets, MemberAt, IsOfType;
      MembersAreMet(c, h, v, members[1..], n);
      assert forall i :: 1 <= i < |members| ==> members[i] == members[1..][i - 1];
      assert forall i :: 0 <= i < |members| - 1 ==> members[1..][i] == members[i + 1];
    }
  }

  lemma FirstIsMet(c: Ctx, h: Heap, v: Value, m: Types.Member, n: nat)
    requires v.TypeV? || v.InstV?
    ensures n > 0 && MemberMeets(c, h, v, m, n - 1) <==>
            var at := MemberAt(h, v, m.name);
            at.Some? && n > 0 && IsOfType(c, h, Binding(h, at.value, m.name).value, m.ty, n - 1) == Yes
    decreases n, 0
  {
    MemberIsFound(h, v, m.name);
    hide HasMember, MemberAt, Meets, IsOfType;
    var at := MemberAt(h, v, m.name);
    if at.Some? && n > 0 {
      CheckIsMeets(c, h, Binding(h, at.value, m.name).value, m.ty, n - 1);
    }
  }

  lemma {:induction false} MeetsMore(c: Ctx, h: Heap, v: Value, ty: Ty, n: nat, m: nat)
    requires n <= m && Meets(c, h, v, ty, n)
    ensures Meets(c, h, v, ty, m)
  {
    CheckIsMeets(c, h, v, ty, n);
    CheckIsMeets(c, h, v, ty, m);
    CheckMore(c, h, v, ty, n, m);
  }

  /** The check says yes with some fuel exactly to the values that conform. */
  lemma CheckDecides(c: Ctx, h: Heap, v: Value, ty: Ty)
    ensures (exists n: nat :: IsOfType(c, h, v, ty, n) == Yes) <==> Conforms(c, h, v, ty)
  {
    hide IsOfType, Meets;
    forall n: nat ensures IsOfType(c, h, v, ty, n) == Yes <==> Meets(c, h, v, ty, n) {
      CheckIsMeets(c, h, v, ty, n);
    }
    if Conforms(c, h, v, ty) {
      var n: nat :| Meets(c, h, v, ty, n);
      assert IsOfType(c, h, v, ty, n) == Yes;
    }
  }

  /** The member is there and its value conforms, with whatever steps that takes. */
  ghost predicate MemberConforms(c: Ctx, h: Heap, v: Value, m: Types.Member)
    requires v.TypeV? || v.InstV?
  {
    exists value :: HasMember(h, v, m.name, value) && Conforms(c, h, value, m.ty)
  }

  /** A type or instance conforms to an interface exactly when it has every member and each value conforms in turn. */
  lemma InterfaceMeansMembers(c: Ctx, h: Heap, v: Value, members: seq<Types.Member>)
    requires v.TypeV? || v.InstV?
    ensures Conforms(c, h, v, TInterface(members)) <==>
            forall i :: 0 <= i < |members| ==> MemberConforms(c, h, v, members[i])
  {
    hide HasMember;
    if Conforms(c, h, v, TInterface(members)) {
      var n: nat :| Meets(c, h, v, TInterface(members), n);
      forall i | 0 <= i < |members| ensures MemberConforms(c, h, v, members[i]) {
        assert MemberMeets(c, h, v, members[i], n - 1);
      }
    }
    if forall i :: 0 <= i < |members| ==> MemberConforms(c, h, v, members[i]) {
      var n := Enough(c, h, v, members);
      assert Meets(c, h, v, TInterface(members), n + 1);
    }
  }

  /** One number of steps for all the members. */
  lemma {:induction false} Enough(c: Ctx, h: Heap, v: Value, members: seq<Types.Member>) returns (n: nat)
    requires v.TypeV? || v.InstV?
    requires forall i :: 0 <= i < |members| ==> MemberConforms(c, h, v, members[i])
    ensures forall i :: 0 <= i < |members| ==> MemberMeets(c, h, v, members[i], n)
    decreases |members|
  {
    if members == [] {
      n := 0;
    } else {
      hide HasMember, Meets;
      var last := |members| - 1;
      var before := Enough(c, h, v, members[..last]);
      assert MemberConforms(c, h, v, members[last]);
      var value :| HasMember(h, v, members[last].name, value) && Conforms(c, h, value, members[last].ty);
      var own: nat :| Meets(c, h, value, members[last].ty, own);
      n := if before < own then own else before;
      MeetsMore(c, h, value, members[last].ty, own, n);
      forall i | 0 <= i < last ensures MemberMeets(c, h, v, members[i], n) {
        assert members[..last][i] == members[i];
        var w :| HasMember(h, v, members[i].name, w) && Meets(c, h, w, members[i].ty, before);
        MeetsMore(c, h, w, members[i].ty, before, n);
      }
    }
  }

  /** A missing member: the answer is no, or the fuel runs out at a member before it. */
  lemma MissingMember(c: Ctx, h: Heap, v: Value, members: seq<Types.Member>, i: nat, n: nat)
    requires (v.TypeV? || v.InstV?) && i < |members| && LacksMember(h, v, members[i].name)
    ensures IsOfType(c, h, v, TInterface(members), n) != Yes
    ensures i == 0 ==> IsOfType(c, h, v, TInterface(members), n) == No
  {
    MemberIsFound(h, v, members[i].name);
    CheckIsMeets(c, h, v, TInterface(members), n);
    if n > 0 {
      assert !MemberMeets(c, h, v, members[i], n - 1);
    }
  }

  // ---------------------------------------------------------------------------------------------------
  // `interface S { area: any }`, `type T { ... }`, `var s: S = T`

  const CONTRACT: seq<Types.Member> := [Types.Member("area", TAny)]

  function Program(fields: seq<Item>): seq<Item> {
    [Interface("S", CONTRACT), ExprItem(TypeExpr(fields, "T")), Decl("s", TNamed("S"), Ident("T"))]
  }

  /** `var area = 3`. */
  const AREA: Item := Decl("area", TAny, Lit(Int(3)))

  function InterfaceStore(): Heap {
    AddVar(BUILTINS, 0, Env("S", TInterface(CONTRACT), InterfaceV(TInterface(CONTRACT))))
  }

  /** The scope of `T` with its fields, before its name is bound. */
  function FieldStore(vars: seq<Env>): Heap {
    var h := Push(InterfaceStore(), 0, true);
    h.(scopes := h.scopes[5 := Scope(vars, Some(0), true)])
  }

  function DeclaredStore(vars: seq<Env>): Heap {
    AddVar(FieldStore(vars), 0, Env("T", TType, TypeV(5)))
  }

  lemma GlobalNames(vars: seq<Env>)
    ensures var g := DeclaredStore(vars).scopes[0].vars;
            && |DeclaredStore(vars).scopes| == 6 && DeclaredStore(vars).scopes[5].vars == vars
            && |g| == 6 && Find(g, "S") == 4 && Find(g, "T") == 5 && Find(g, "s") == 6
            && g[4] == Env("S", TInterface(CONTRACT), InterfaceV(TInterface(CONTRACT)))
            && g[5] == Env("T", TType, TypeV(5))
    ensures |InterfaceStore().scopes[0].vars| == 5 && Find(InterfaceStore().scopes[0].vars, "T") == 5
  {
    var g := DeclaredStore(vars).scopes[0].vars;
    var s := Env("S", TInterface(CONTRACT), InterfaceV(TInterface(CONTRACT)));
    assert g == BUILTINS.scopes[0].vars + [s] + [Env("T", TType, TypeV(5))];
    assert g[0].name == "int" && g[1].name == "float" && g[2].name == "bool" && g[3].name == "str";
    assert g[4].name == "S" && g[5].name == "T" && "S" != "T" && "S" != "s" && "T" != "s";
    assert forall j :: 0 <= j < 4 ==> |g[j].name| > 1;
    assert |"S"| == 1 && |"T"| == 1 && |"s"| == 1;
    assert InterfaceStore().scopes[0].vars == BUILTINS.scopes[0].vars + [s];
    assert InterfaceStore().scopes[0].vars == g[..5];
  }

  lemma InterfaceIsDeclared(ops: Ops, n: nat)
    ensures EvalItem(Program([])[0], Ctx(0, None, ops), BUILTINS, n) ==
            Normal(InterfaceV(TInterface(CONTRACT)), InterfaceStore())
  {
    hide Step, Sound;
    var vars := BUILTINS.scopes[0].vars;
    assert vars[0].name == "int" && vars[1].name == "float" && vars[2].name == "bool" && vars[3].name == "str";
    assert forall j :: 0 <= j < 4 ==> |vars[j].name| > 1;
    assert Find(vars, "S") == 4;
  }

  /** The members of `T` are declared; then `T` itself. */
  lemma TypeIsDeclared(ops: Ops, fields: seq<Item>, vars: seq<Env>, n: nat)
    requires WellFormedItems(fields)
    requires EvalMembers(fields, Ctx(5, None, ops), FieldStore([]), n) == Normal(P(Null), FieldStore(vars))
    ensures EvalItem(ExprItem(TypeExpr(fields, "T")), Ctx(0, None, ops), InterfaceStore(), n) ==
            Normal(TypeV(5), DeclaredStore(vars))
  {
    hide Step, Sound, EvalMembers;
    var c, e := Ctx(0, None, ops), TypeExpr(fields, "T");
    var k := Push(InterfaceStore(), 0, true);
    assert |InterfaceStore().scopes| == 5;
    assert k.scopes == FieldStore([]).scopes;
    GlobalNames(vars);
    assert FieldStore(vars).scopes[0] == InterfaceStore().scopes[0];
    assert Create(c, FieldStore(vars), "T", TType, TypeV(5), n) == Written(DeclaredStore(vars));
    assert EvalType(e, c, InterfaceStore(), n) == Normal(TypeV(5), DeclaredStore(vars));
  }

  lemma NoFields(ops: Ops, n: nat)
    ensures EvalMembers([], Ctx(5, None, ops), FieldStore([]), n) == Normal(P(Null), FieldStore([]))
  {
  }

  lemma AreaField(ops: Ops, n: nat)
    ensures WellFormedItems([AREA])
    ensures EvalMembers([AREA], Ctx(5, None, ops), FieldStore([]), n) ==
            Normal(P(Null), FieldStore([Env("area", TAny, P(Int(3)))]))
  {
    hide Step, Sound;
    var c, h, k := Ctx(5, None, ops), FieldStore([]), FieldStore([Env("area", TAny, P(Int(3)))]);
    assert [AREA][1..] == [];
    assert WellFormedItem(AREA);
    assert [] + [Env("area", TAny, P(Int(3)))] == [Env("area", TAny, P(Int(3)))];
    assert AddVar(h, 5, Env("area", TAny, P(Int(3)))).scopes == k.scopes;
    assert Create(c, h, "area", TAny, P(Int(3)), n) == Written(k);
    assert EvalItem(AREA, c, h, n) == Normal(P(Int(3)), k);
    assert EvalMembers([AREA][1..], c, k, n) == Normal(P(Null), k);
  }

  /** The annotation of `s` is looked up, and the type checked against the interface with one unit of fuel less. */
  lemma AnnotationIs(ops: Ops, vars: seq<Env>, n: nat)
    ensures var c, h := Ctx(0, None, ops), DeclaredStore(vars);
            IsOfType(c, h, TypeV(5), TNamed("S"), n) ==
            if n == 0 then NoFuel else IsOfType(c, h, TypeV(5), TInterface(CONTRACT), n - 1)
  {
    GlobalNames(vars);
    hide DeclaredStore;
    assert FindUp(DeclaredStore(vars), 0, "S") == Some(0);
  }

  /** The last declaration of the program. */
  lemma Declares(ops: Ops, vars: seq<Env>, n: nat)
    ensures var c, h, item := Ctx(0, None, ops), DeclaredStore(vars), Program([])[2];
            && WellFormedItem(item)
            && EvalItem(item, c, h, n) ==
               match IsOfType(c, h, TypeV(5), TNamed("S"), n)
               case NoFuel => Fail(OutOfFuel)
               case No => Fail(DeclareFailed)
               case Yes => Normal(TypeV(5), AddVar(h, 0, Env("s", TNamed("S"), TypeV(5))))
  {
    hide Step, Sound, IsOfType;
    var c, h := Ctx(0, None, ops), DeclaredStore(vars);
    GlobalNames(vars);
    hide DeclaredStore;
    assert FindUp(h, 0, "T") == Some(0);
    assert Eval(Ident("T"), c, h, n) == Normal(TypeV(5), h);
  }

  /** The whole program, from the answer about the interface. */
  function Verdict(answer: Check, h: Heap): Res
    requires |h.scopes| > 0
  {
    match answer
    case NoFuel => Fail(OutOfFuel)
    case No => Fail(DeclareFailed)
    case Yes => Normal(P(Null), AddVar(h, 0, Env("s", TNamed("S"), TypeV(5))))
  }

  lemma Outcome(ops: Ops, fields: seq<Item>, vars: seq<Env>, n: nat)
    requires WellFormedItems(fields)
    requires EvalMembers(fields, Ctx(5, None, ops), FieldStore([]), n) == Normal(P(Null), FieldStore(vars))
    ensures |DeclaredStore(vars).scopes| > 0 && WellFormedItems(Program(fields))
    ensures var c, h := Ctx(0, None, ops), DeclaredStore(vars);
            var answer := if n == 0 then NoFuel else IsOfType(c, h, TypeV(5), TInterface(CONTRACT), n - 1);
            Run(Program(fields), c, BUILTINS, n) == Verdict(answer, h)
  {
    hide EvalMembers, FieldStore, EvalItem, Run, Sound, IsOfType, Step;
    Runs(ops, fields, vars, n);
    Declares(ops, vars, n);
    AnnotationIs(ops, vars, n);
    GlobalNames(vars);
    hide DeclaredStore, Program;
  }

  /** Without the member: refused, with any fuel that gets as far as the members. */
  lemma TypeWithoutMember(ops: Ops, n: nat)
    ensures WellFormedItems(Program([]))
    ensures Run(Program([]), Ctx(0, None, ops), BUILTINS, n) == Fail(if n == 0 then OutOfFuel else DeclareFailed)
  {
    hide IsOfType, EvalItem, Run, Sound, EvalMembers, FieldStore;
    NoFields(ops, n);
    Outcome(ops, [], [], n);
    if n > 0 {
      GlobalNames([]);
      hide DeclaredStore;
      assert Vars(DeclaredStore([]), 5) == [];
      MissingMember(Ctx(0, None, ops), DeclaredStore([]), TypeV(5), CONTRACT, 0, n - 1);
    }
  }

  /** With it: `s` is declared. */
  lemma TypeWithMember(ops: Ops, n: nat)
    requires n >= 2
    ensures WellFormedItems(Program([AREA])) && |DeclaredStore([Env("area", TAny, P(Int(3)))]).scopes| > 0
    ensures Run(Program([AREA]), Ctx(0, None, ops), BUILTINS, n) ==
            Normal(P(Null), AddVar(DeclaredStore([Env("area", TAny, P(Int(3)))]), 0, Env("s", TNamed("S"), TypeV(5))))
  {
    hide IsOfType, EvalItem, Run, Sound, EvalMembers, FieldStore, DeclaredStore;
    var vars := [Env("area", TAny, P(Int(3)))];
    AreaField(ops, n);
    Outcome(ops, [AREA], vars, n);
    AreaConforms(Ctx(0, None, ops), DeclaredStore(vars), n - 1);
  }

  lemma AreaConforms(c: Ctx, h: Heap, n: nat)
    requires h == DeclaredStore([Env("area", TAny, P(Int(3)))]) && n > 0
    ensures IsOfType(c, h, TypeV(5), TInterface(CONTRACT), n) == Yes
  {
    GlobalNames([Env("area", TAny, P(Int(3)))]);
    hide DeclaredStore, IsOfType;
    assert Vars(h, 5)[0] == Env("area", TAny, P(Int(3)));
    assert Binds(Vars(h, 5), "area", P(Int(3)));
    assert HasMember(h, TypeV(5), "area", P(Int(3)));
    assert MemberMeets(c, h, TypeV(5), CONTRACT[0], n - 1);
    assert Meets(c, h, TypeV(5), TInterface(CONTRACT), n);
    CheckIsMeets(c, h, TypeV(5), TInterface(CONTRACT), n);
  }

  lemma Runs(ops: Ops, fields: seq<Item>, vars: seq<Env>, n: nat)
    requires WellFormedItems(fields)
    requires EvalMembers(fields, Ctx(5, None, ops), FieldStore([]), n) == Normal(P(Null), FieldStore(vars))
    ensures WellFormedItems(Program(fields)) && WellFormedItem(Program([])[2])
    ensures var r := EvalItem(Program([])[2], Ctx(0, None, ops), DeclaredStore(vars), n);
            Run(Program(fields), Ctx(0, None, ops), BUILTINS, n) == if r.Normal? then Normal(P(Null), r.h) else r
  {
    var c, items := Ctx(0, None, ops), Program(fields);
    ProgramIsWellFormed(fields);
    InterfaceIsDeclared(ops, n);
    TypeIsDeclared(ops, fields, vars, n);
    hide Step, Sound, EvalItem, DeclaredStore, InterfaceStore, FieldStore;
    assert items[1..][1..] == [items[2]] && [items[2]][1..] == [];
    var r := EvalItem(items[2], c, DeclaredStore(vars), n);
    assert Run([items[2]], c, DeclaredStore(vars), n) == if r.Normal? then Normal(P(Null), r.h) else r;
    assert Run(items[1..], c, InterfaceStore(), n) == Run([items[2]], c, DeclaredStore(vars), n);
  }

  lemma ProgramIsWellFormed(fields: seq<Item>)
    requires WellFormedItems(fields)
    ensures var items := Program(fields);
            && WellFormedItems(items) && WellFormedItems(items[1..]) && WellFormedItems([items[2]])
            && WellFormedItem(items[0]) && WellFormedItem(items[1]) && WellFormedItem(items[2])
  {
    var items := Program(fields);
    assert items[1..][1..] == [items[2]] && [items[2]][1..] == [];
    assert WellFormed(TypeExpr(fields, "T"));
    var last := [items[2]];
    assert WellFormedItem(last[0]) && WellFormedItems(last[1..]);
    assert WellFormedItems(last);
    var rest := items[1..];
    assert rest[0] == items[1] && rest[1..] == last;
    assert WellFormedItems(rest);
  }
}
