/**
The scopes of a running program as a value, the name lookups and the checked writes, and what every write keeps.
Scopes are never removed here: their lifetime is the subject of `HandleGraph`, `RefCount` and `Lifetimes`.
*/
module Store {
  import opened Wrappers
  import opened Types
  import opened Syntax

  type Ref = nat

  datatype Value =
    | P(p: Prim)
    | FnV(closure: Ref, body: Body, ty: Ty, instance: Option<Ref>)
    | TypeV(closure: Ref)
    | InstV(closure: Ref, typeScope: Ref, tyName: string, weakRef: bool)
    | InterfaceV(contract: Ty)
    | ErrorV

  datatype Env = Env(name: string, ty: Ty, value: Value)

  /** `ofObject` marks the scopes made for type declarations and instances; the C struct does not record it. */
  datatype Scope = Scope(vars: seq<Env>, parent: Option<Ref>, ofObject: bool)

  /** `methodCalls` counts the calls of functions that carry an instance. */
  datatype Heap = Heap(scopes: seq<Scope>, output: seq<Shown>, methodCalls: nat)

  datatype Sig = Sig(name: string, ty: Ty)
  datatype Field = Field(name: string, ty: Ty, shown: Shown)

  /** What printing a value writes. */
  datatype Shown =
    | ShownPrim(p: Prim)
    | ShownFn(params: seq<Sig>, ty: Ty)
    | ShownType(members: seq<Sig>)
    | ShownInst(tyName: string, fields: seq<Field>)
    | ShownNothing

  /**
  What is left open: `perform_binary_op` and the arithmetic unary operators, which own no scope, and whether the
  instance of the `t`-th method call has died before the call; a method does not keep its instance alive.
  */
  datatype Ops = Ops(binary: (BinOp, Value, Value) -> Prim, unary: (UnOp, Prim) -> Prim, gone: nat -> bool)

  /** Where an expression is evaluated: the current scope and the instance whose method is running. */
  datatype Ctx = Ctx(env: Ref, inst: Option<Ref>, ops: Ops)

  datatype Error =
    | OutOfFuel | SetFailed | DeclareFailed | ParamFailed | NotAFunction | ParamCount | NoSuchParam | ParamMissing
    | NotAType | InitFailed | SelfFailed | BadValueMember | NoMember | SelfError | SignalNotNone

  function IsTrue(v: Value): bool {
    match v
    case P(Unknown) => false
    case P(Null) => false
    case P(Bool(b)) => b
    case P(Int(i)) => i != 0
    case P(Float(r)) => r != 0.0
    case P(Str(s)) => s != ""
    case FnV(_, _, _, _) => true
    case TypeV(_) => true
    case InstV(_, _, _, _) => true
    case _ => false
  }

  // ---------------------------------------------------------------------------------------------------
  // Lookup

  /** The index of the first binding called `name`, or the number of bindings. */
  function Find(vars: seq<Env>, name: string): (i: nat)
    ensures i <= |vars|
    ensures i < |vars| ==> vars[i].name == name
    ensures forall j :: 0 <= j < i ==> vars[j].name != name
  {
    if vars == [] || vars[0].name == name then 0 else 1 + Find(vars[1..], name)
  }

  predicate Has(h: Heap, r: Ref, name: string) {
    r < |h.scopes| && Find(h.scopes[r].vars, name) < |h.scopes[r].vars|
  }

  /** Along the parent chain; parents are older than their children. */
  function FindUp(h: Heap, r: Ref, name: string): (at: Option<Ref>)
    ensures at.Some? ==> Has(h, at.value, name)
    decreases r
  {
    if Has(h, r, name) then Some(r)
    else if r < |h.scopes| && h.scopes[r].parent.Some? && h.scopes[r].parent.value < r
      then FindUp(h, h.scopes[r].parent.value, name)
    else None
  }

  /** The scopes that climbing from `r` to `name` reads, in order. */
  function Visited(h: Heap, r: Ref, name: string): seq<Ref>
    decreases r
  {
    if Has(h, r, name) then [r]
    else if r < |h.scopes| && h.scopes[r].parent.Some? && h.scopes[r].parent.value < r
      then [r] + Visited(h, h.scopes[r].parent.value, name)
    else [r]
  }

  /** Those of them that are reached through a weak parent handle; the global scope is held from outside as well. */
  function WeaklyVisited(h: Heap, weak: set<Ref>, r: Ref, name: string): seq<Ref>
    decreases r
  {
    if Has(h, r, name) then []
    else if r < |h.scopes| && h.scopes[r].parent.Some? && h.scopes[r].parent.value < r then
      var p := h.scopes[r].parent.value;
      (if r in weak && p != 0 then [p] else []) + WeaklyVisited(h, weak, p, name)
    else []
  }

  /** `interpreter_lookup`: with an instance, one frame and then the instance come before the chain. */
  function Lookup(c: Ctx, h: Heap, name: string): (at: Option<Ref>)
    ensures at.Some? ==> Has(h, at.value, name)
  {
    if c.inst.Some? && Has(h, c.env, name) then Some(c.env)
    else if c.inst.Some? && Has(h, c.inst.value, name) then Some(c.inst.value)
    else FindUp(h, c.env, name)
  }

  function Binding(h: Heap, r: Ref, name: string): Env
    requires Has(h, r, name)
  {
    h.scopes[r].vars[Find(h.scopes[r].vars, name)]
  }

  function Get(c: Ctx, h: Heap, name: string): Value {
    match Lookup(c, h, name)
    case None => P(Unknown)
    case Some(r) => Binding(h, r, name).value
  }

  /** The scope a member name of a type or instance resolves to. */
  function MemberAt(h: Heap, owner: Value, name: string): (at: Option<Ref>)
    ensures at.Some? ==> Has(h, at.value, name)
  {
    match owner
    case TypeV(c) => if Has(h, c, name) then Some(c) else None
    case InstV(c, t, _, _) => if Has(h, c, name) then Some(c) else if Has(h, t, name) then Some(t) else None
    case _ => None
  }

  function GetMember(h: Heap, owner: Value, name: string): Value {
    match MemberAt(h, owner, name)
    case None => P(Unknown)
    case Some(r) => Binding(h, r, name).value
  }

  function Vars(h: Heap, r: Ref): seq<Env> {
    if r < |h.scopes| then h.scopes[r].vars else []
  }

  // ---------------------------------------------------------------------------------------------------
  // Printing

  function Signatures(vars: seq<Env>): (sigs: seq<Sig>)
    ensures |sigs| == |vars|
  {
    seq(|vars|, i requires 0 <= i < |vars| => Sig(vars[i].name, vars[i].ty))
  }

  /**
  `interpreter_print_value`. An instance is shown with the values of its fields, except `self`, and theirs; the nesting
  is bounded by fuel, because an instance may contain itself.
  */
  function Show(h: Heap, v: Value, n: nat): Option<Shown>
    decreases n, 0
  {
    match v
    case P(p) => Some(ShownPrim(p))
    case FnV(c, _, ty, _) => Some(ShownFn(Signatures(Vars(h, c)), ty))
    case TypeV(c) => Some(ShownType(Signatures(Vars(h, c))))
    case InstV(c, _, name, _) =>
      if n == 0 then None
      else (match ShowFields(h, Vars(h, c), n - 1)
        case None => None
        case Some(fields) => Some(ShownInst(name, fields)))
    case _ => Some(ShownNothing)
  }

  function ShowFields(h: Heap, vars: seq<Env>, n: nat): Option<seq<Field>>
    decreases n, 1 + |vars|
  {
    if vars == [] then Some([])
    else if vars[0].name == "self" then ShowFields(h, vars[1..], n)
    else match Show(h, vars[0].value, n)
      case None => None
      case Some(s) => (match ShowFields(h, vars[1..], n)
        case None => None
        case Some(rest) => Some([Field(vars[0].name, vars[0].ty, s)] + rest))
  }

  // ---------------------------------------------------------------------------------------------------
  // The store a program starts with

  function BuiltinScope(): Scope {
    Scope([Env("value", TAny, P(Null))], Some(0), true)
  }

  /** The global scope with the builtin types; their native members are left out. */
  const BUILTINS: Heap := Heap(
    [Scope([Env("int", TType, TypeV(1)), Env("float", TType, TypeV(2)),
            Env("bool", TType, TypeV(3)), Env("str", TType, TypeV(4))], None, false),
     BuiltinScope(), BuiltinScope(), BuiltinScope(), BuiltinScope()], [], 0)

  // ---------------------------------------------------------------------------------------------------
  // Annotation checks

  datatype Check = Yes | No | NoFuel

  function BuiltinName(p: Prim): Option<string> {
    match p
    case Int(_) => Some("int")
    case Float(_) => Some("float")
    case Bool(_) => Some("bool")
    case Str(_) => Some("str")
    case _ => None
  }

  predicate IsBuiltin(name: string) {
    name == "int" || name == "float" || name == "bool" || name == "str"
  }

  /** `snuk_interpreter_value_is_of_type`. Interface checks follow values, so they are bounded by fuel. */
  function IsOfType(c: Ctx, h: Heap, v: Value, ty: Ty, n: nat): Check
    decreases n, 1
  {
    if v == P(Unknown) || v == P(Null) then Yes
    else match ty
      case TAny => Yes
      case TType => if v.TypeV? then Yes else No
      case TFn(_, _) => if v.FnV? && v.ty == ty then Yes else No
      case TNamed(name) =>
        if v.P? && BuiltinName(v.p) == Some(name) then Yes
        else if !v.TypeV? && !v.InstV? then No
        else (match Lookup(c, h, name)
          case None => No
          case Some(r) =>
            var env := Binding(h, r, name);
            if env.ty.TInterface? then (if n == 0 then NoFuel else IsOfType(c, h, v, env.ty, n - 1))
            else if v.InstV? then (if v.tyName == name then Yes else No)
            else if env.ty.TType? || env.value.TypeV? then
              (if (env.value.TypeV? || env.value.InstV?) && env.value.closure == v.closure then Yes else No)
            else No)
      case TInterface(members) =>
        if v.InterfaceV? then (if v.contract == ty then Yes else No)
        else if v.TypeV? || v.InstV? then HasMembers(c, h, v, members, n)
        else No
  }

  function HasMembers(c: Ctx, h: Heap, v: Value, members: seq<Types.Member>, n: nat): Check
    decreases n, 0, members
  {
    if members == [] then Yes
    else match MemberAt(h, v, members[0].name)
      case None => No
      case Some(r) =>
        if n == 0 then NoFuel
        else match IsOfType(c, h, Binding(h, r, members[0].name).value, members[0].ty, n - 1)
          case Yes => HasMembers(c, h, v, members[1..], n)
          case other => other
  }

  // ---------------------------------------------------------------------------------------------------
  // Checked writes

  datatype Update = Written(h: Heap) | Refused | Starved

  function AddVar(h: Heap, r: Ref, e: Env): Heap
    requires r < |h.scopes|
  {
    h.(scopes := h.scopes[r := h.scopes[r].(vars := h.scopes[r].vars + [e])])
  }

  function SetVar(h: Heap, r: Ref, i: nat, v: Value): Heap
    requires r < |h.scopes| && i < |h.scopes[r].vars|
  {
    var s := h.scopes[r];
    h.(scopes := h.scopes[r := s.(vars := s.vars[i := s.vars[i].(value := v)])])
  }

  /** `snuk_interpreter_create_env`: a new name in the current scope. */
  function Create(c: Ctx, h: Heap, name: string, ty: Ty, v: Value, n: nat): Update {
    match IsOfType(c, h, v, ty, n)
    case NoFuel => Starved
    case No => Refused
    case Yes =>
      if c.env >= |h.scopes| || Has(h, c.env, name) then Refused else Written(AddVar(h, c.env, Env(name, ty, v)))
  }

  /** `snuk_interpreter_set_env`: a new value for a visible name. */
  function Set(c: Ctx, h: Heap, name: string, v: Value, n: nat): Update {
    match Lookup(c, h, name)
    case None => Refused
    case Some(r) => Overwrite(c, h, r, name, v, n)
  }

  function Overwrite(c: Ctx, h: Heap, r: Ref, name: string, v: Value, n: nat): Update
    requires Has(h, r, name)
  {
    match IsOfType(c, h, v, Binding(h, r, name).ty, n)
    case NoFuel => Starved
    case No => Refused
    case Yes => Written(SetVar(h, r, Find(h.scopes[r].vars, name), v))
  }

  /** `interpreter_set_member`: an instance gets its own binding on first write to a member of its type. */
  function SetMember(c: Ctx, h: Heap, owner: Value, name: string, v: Value, n: nat): Update {
    match MemberAt(h, owner, name)
    case None => Refused
    case Some(r) =>
      if r == owner.closure then Overwrite(c, h, r, name, v, n)
      else
        var env := Binding(h, r, name);
        match IsOfType(c, h, v, env.ty, n)
        case NoFuel => Starved
        case No => Refused
        case Yes =>
          if owner.closure >= |h.scopes| then Refused else Written(AddVar(h, owner.closure, Env(env.name, env.ty, v)))
  }

  function Push(h: Heap, parent: Ref, ofObject: bool): Heap {
    h.(scopes := h.scopes + [Scope([], Some(parent), ofObject)])
  }

  /** The instance a function runs with: none when it has died. */
  function Receiver(ops: Ops, h: Heap, instance: Option<Ref>): Option<Ref> {
    if instance.Some? && ops.gone(h.methodCalls) then None else instance
  }

  function CountCall(h: Heap, instance: Option<Ref>): Heap {
    if instance.Some? then h.(methodCalls := h.methodCalls + 1) else h
  }

  function SetParent(h: Heap, r: Ref, parent: Ref): Heap
    requires r < |h.scopes|
  {
    h.(scopes := h.scopes[r := h.scopes[r].(parent := Some(parent))])
  }
}
