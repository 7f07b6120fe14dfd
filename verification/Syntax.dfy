/**
The parsed program the interpreter walks, and the static rule that keeps control-flow signals where the code
looks for them.
*/
module Syntax {
  import opened Wrappers
  import opened Types

  datatype Signal = Continue | Break | Return

  /** Values that own no scope. Strings keep their quotes, as the parser leaves them. */
  datatype Prim = Unknown | Null | Int(i: int) | Float(r: real) | Bool(b: bool) | Str(s: string)

  datatype UnOp = Plus | Minus | Not | Tilde
  datatype BinOp =
    | Or | And
    | Add | Sub | Mul | Div | Mod
    | BitOr | BitXor | BitAnd | ShiftLeft | ShiftRight
    | Equal | NotEqual | Less | LessEqual | Greater | GreaterEqual

  datatype Expr =
    | Lit(p: Prim)
    | Ident(name: string)
    | Unary(uop: UnOp, operand: Expr)
    | Binary(bop: BinOp, left: Expr, right: Expr)
    | Assign(target: Expr, value: Expr)
    | Compound(cop: BinOp, cname: string, cvalue: Expr)
    | If(cond: Expr, thenItems: seq<Item>, els: Option<Expr>)
    | While(wcond: Expr, wbody: seq<Item>)
    | DoWhile(wcond: Expr, wbody: seq<Item>)
    | For(init: Option<Item>, fcond: Option<Expr>, update: Option<Expr>, fbody: seq<Item>)
    | FnExpr(params: seq<Param>, body: seq<Item>, fname: string, fty: Ty)
    | TypeExpr(members: seq<Item>, tname: string)
    | InstExpr(ity: string, inits: seq<Init>, iname: string)
    | Block(items: seq<Item>)
    | Call(callee: Expr, args: seq<Expr>)
    | Member(owner: Expr, field: string)
    | Self
    | Inert

  datatype Param = Param(name: string, ty: Ty, default: Option<Expr>)
  datatype Init = Init(name: string, value: Expr)

  datatype Item =
    | ExprItem(e: Expr)
    | Decl(name: string, ty: Ty, e: Expr)
    | Print(es: seq<Expr>)
    | ReturnItem(value: Option<Expr>)
    | BreakItem(value: Option<Expr>)
    | ContinueItem
    | Extend(tname: string, members: seq<Item>)
    | Interface(name: string, contract: seq<Types.Member>)
    | ErrorItem

  // ---------------------------------------------------------------------------------------------------
  // Which signals may leave a construct

  function ExprSignals(e: Expr): set<Signal>
    decreases e, 0
  {
    match e
    case If(_, thn, els) => ItemsSignals(thn) + (if els.Some? then ElseSignals(els.value) else {})
    case While(_, body) => ItemsSignals(body) * {Return}
    case DoWhile(_, body) => ItemsSignals(body) * {Return}
    case For(_, _, _, body) => ItemsSignals(body) * {Return}
    case Block(items) => ItemsSignals(items) - {Break}
    case Assign(target, value) => if target.Ident? then ExprSignals(value) else {}
    case _ => {}
  }

  /** An else branch is run with everything propagated, even when it is a plain block. */
  function ElseSignals(e: Expr): set<Signal>
    decreases e, 1
  {
    if e.Block? then ItemsSignals(e.items) else ExprSignals(e)
  }

  function ItemSignals(item: Item): set<Signal> {
    match item
    case ExprItem(e) => ExprSignals(e)
    case Decl(_, _, e) => ExprSignals(e)
    case ReturnItem(_) => {Return}
    case BreakItem(_) => {Break}
    case ContinueItem => {Continue}
    case _ => {}
  }

  function ItemsSignals(items: seq<Item>): set<Signal> {
    if items == [] then {} else ItemSignals(items[0]) + ItemsSignals(items[1..])
  }

  // ---------------------------------------------------------------------------------------------------
  // Well-formed programs: no signal can leave an operand, a condition, an argument or a default value

  predicate Quiet(e: Expr)
    decreases e, 1
  {
    WellFormed(e) && ExprSignals(e) == {}
  }

  predicate WellFormed(e: Expr)
    decreases e, 0
  {
    match e
    case Unary(_, a) => Quiet(a)
    case Binary(_, l, r) => Quiet(l) && Quiet(r)
    case Assign(target, value) =>
      (target.Ident? && WellFormed(value)) || (target.Member? && Quiet(target.owner) && Quiet(value))
    case Compound(_, _, value) => Quiet(value)
    case If(cond, thn, els) =>
      && Quiet(cond) && WellFormedItems(thn)
      && (els.Some? ==> (els.value.If? || els.value.Block?) && WellFormed(els.value))
    case While(cond, body) => Quiet(cond) && WellFormedItems(body)
    case DoWhile(cond, body) => Quiet(cond) && WellFormedItems(body)
    case For(init, cond, update, body) =>
      && (init.Some? ==> WellFormedItem(init.value))
      && (cond.Some? ==> Quiet(cond.value))
      && (update.Some? ==> Quiet(update.value))
      && WellFormedItems(body)
    case FnExpr(params, body, _, _) => QuietParams(params) && FunctionBody(body)
    case TypeExpr(members, _) => WellFormedItems(members)
    case InstExpr(_, inits, _) => QuietInits(inits)
    case Block(items) => WellFormedItems(items)
    case Call(callee, args) => Quiet(callee) && QuietArgs(args, false)
    case Member(owner, _) => Quiet(owner)
    case _ => true
  }

  predicate FunctionBody(body: seq<Item>)
    decreases body, 1
  {
    WellFormedItems(body) && ItemsSignals(body) <= {Return}
  }

  predicate QuietParams(params: seq<Param>)
    decreases params
  {
    params != [] ==>
      && (params[0].default.Some? ==> Quiet(params[0].default.value))
      && QuietParams(params[1..])
  }

  predicate QuietInits(inits: seq<Init>)
    decreases inits
  {
    inits != [] ==> Quiet(inits[0].value) && QuietInits(inits[1..])
  }

  /** Named arguments are assignments to a plain name; after the first one no positional argument follows. */
  predicate QuietArgs(args: seq<Expr>, named: bool)
    decreases args
  {
    args != [] ==>
      && QuietArg(args[0]) && (named ==> args[0].Assign?)
      && QuietArgs(args[1..], args[0].Assign?)
  }

  predicate QuietArg(a: Expr)
    decreases a, 2
  {
    if a.Assign? then a.target.Ident? && Quiet(a.value) else !a.Compound? && Quiet(a)
  }

  predicate WellFormedItem(item: Item) {
    match item
    case ExprItem(e) => WellFormed(e)
    case Decl(_, _, e) => WellFormed(e)
    case Print(es) => QuietAll(es)
    case ReturnItem(e) => e.Some? ==> Quiet(e.value)
    case BreakItem(e) => e.Some? ==> Quiet(e.value)
    case Extend(_, members) => WellFormedItems(members)
    case _ => true
  }

  predicate QuietAll(es: seq<Expr>) {
    es != [] ==> Quiet(es[0]) && QuietAll(es[1..])
  }

  predicate WellFormedItems(items: seq<Item>)
    decreases items, 0
  {
    items != [] ==> WellFormedItem(items[0]) && WellFormedItems(items[1..])
  }

  /** Function bodies as values carry them. */
  type Body = b: seq<Item> | FunctionBody(b) witness []
}
