/**
The expression and item grammar as a set of concrete trees: what the token yield of a tree is, and which trees are
in the grammar. Nothing here parses.

The fragment has literals, names, `self`, groups, lists, unary and binary operators, assignments, calls, member
access, blocks, if, while, do-while and for, and the expression, declaration, flow and print items.
*/
module Grammar {
  import opened Wrappers

  datatype Operator =
    | Plus | Minus | Star | Slash | Percent
    | ShiftLeft | ShiftRight
    | Less | LessEqual | Greater | GreaterEqual
    | EqualEqual | BangEqual
    | Amp | Caret | Pipe
    | AmpAmp | KwAnd | PipePipe | KwOr

  /** The operators that have a compound assignment. */
  type ArithmeticOp = o: Operator |
    o in {Plus, Minus, Star, Slash, Percent, ShiftLeft, ShiftRight, Pipe, Amp, Caret}
    witness Plus

  /**
  Tokens the lexer hands over before the end of the source. `Other` is a kind that no rule and no item uses; it does not
  stand for the `:` of annotations, which the fragment leaves out.
  */
  datatype Token =
    | Identifier(name: string) | Integer(i: int) | Float(r: real) | Str(text: string)
    | True | False | Null | Self
    | LParen | RParen | LBracket | RBracket | LBrace | RBrace
    | Comma | Semicolon | VirtualSemicolon | Dot
    | Op(o: Operator) | Bang | KwNot | Tilde
    | Becomes | OpBecomes(a: ArithmeticOp)
    | KwIf | KwElse | KwWhile | KwDo | KwFor
    | KwVar | KwConst | KwReturn | KwBreak | KwContinue | KwPrint
    | Other(text: string) | LexError(message: string)

  /** What the lexer still has to deliver. At `End` it delivers end-of-file for ever. */
  datatype Stream = End | More(head: Token, tail: Stream)

  function Length(ts: Stream): nat {
    if ts.End? then 0 else 1 + Length(ts.tail)
  }

  /** No error token is about to become current. */
  predicate Clean(ts: Stream) {
    ts.More? ==> !ts.head.LexError?
  }

  // ---------------------------------------------------------------------------------------------------
  // Precedence levels

  const ASSIGNMENT: nat := 1
  const UNARY: nat := 12
  const PRIMARY: nat := 13
  const CLOSED: nat := 14

  function LevelOf(o: Operator): (level: nat)
    ensures ASSIGNMENT < level < UNARY
  {
    match o
    case PipePipe => 2
    case KwOr => 2
    case AmpAmp => 3
    case KwAnd => 3
    case Pipe => 4
    case Caret => 5
    case Amp => 6
    case EqualEqual => 7
    case BangEqual => 7
    case Less => 8
    case LessEqual => 8
    case Greater => 8
    case GreaterEqual => 8
    case ShiftLeft => 9
    case ShiftRight => 9
    case Plus => 10
    case Minus => 10
    case Star => 11
    case Slash => 11
    case Percent => 11
  }

  /** The precedence column of the rules table. */
  function Precedence(t: Token): nat {
    match t
    case LParen => PRIMARY
    case Dot => PRIMARY
    case Op(o) => LevelOf(o)
    case Becomes => ASSIGNMENT
    case OpBecomes(_) => ASSIGNMENT
    case _ => 0
  }

  function HeadPrecedence(ts: Stream): nat {
    if ts.End? then 0 else Precedence(ts.head)
  }

  predicate IsAtom(t: Token) {
    t.Identifier? || t.Integer? || t.Float? || t.Str? || t.True? || t.False? || t.Null? || t.Self?
  }

  predicate IsUnary(t: Token) {
    t == Op(Plus) || t == Op(Minus) || t.Bang? || t.KwNot? || t.Tilde?
  }

  // ---------------------------------------------------------------------------------------------------
  // Concrete trees

  datatype Ending = BySemicolon | ByVirtual | ByEof

  datatype Expr =
    | Atom(t: Token)
    | Group(inner: Expr)
    | List(elements: seq<Expr>, comma: bool)
    | Unary(op: Token, operand: Expr)
    | Binary(o: Operator, left: Expr, right: Expr)
    | Assign(target: Expr, value: Expr)
    | Compound(a: ArithmeticOp, target: Expr, value: Expr)
    | Call(callee: Expr, args: seq<Expr>, comma: bool)
    | Member(owner: Expr, field: string)
    | Block(items: seq<Item>)
    | If(cond: Expr, thenItems: seq<Item>, els: Option<Expr>)
    | While(cond: Expr, body: seq<Item>)
    | DoWhile(body: seq<Item>, cond: Expr)
    | For(short: bool, init: Option<Item>, test: Option<Expr>, update: Option<Expr>, body: seq<Item>)

  datatype Item =
    | ExprItem(e: Expr, end: Ending)
    | Decl(isConst: bool, name: string, init: Option<Expr>, end: Ending)
    | Flow(keyword: Token, result: Option<Expr>, end: Ending)
    | Print(es: seq<Expr>, end: Ending)

  // ---------------------------------------------------------------------------------------------------
  // Token yield

  /** The tokens of `e`, then `k`. */
  function Yield(e: Expr, k: Stream): Stream
    decreases e, 0
  {
    match e
    case Atom(t) => More(t, k)
    case Group(inner) => More(LParen, Yield(inner, More(RParen, k)))
    case List(es, comma) => More(LBracket, YieldArgs(es, comma, RBracket, k))
    case Unary(op, a) => More(op, Yield(a, k))
    case Binary(o, l, r) => Yield(l, More(Op(o), Yield(r, k)))
    case Assign(l, r) => Yield(l, More(Becomes, Yield(r, k)))
    case Compound(a, l, r) => Yield(l, More(OpBecomes(a), Yield(r, k)))
    case Call(f, args, comma) => Yield(f, More(LParen, YieldArgs(args, comma, RParen, k)))
    case Member(owner, field) => Yield(owner, More(Dot, More(Identifier(field), k)))
    case Block(items) => More(LBrace, YieldBody(items, k))
    case If(c, thn, els) =>
      More(KwIf, Yield(c, More(LBrace, YieldBody(thn, if els.None? then k else More(KwElse, Yield(els.value, k))))))
    case While(c, body) => More(KwWhile, Yield(c, More(LBrace, YieldBody(body, k))))
    case DoWhile(body, c) => More(KwDo, More(LBrace, YieldBody(body, More(KwWhile, Yield(c, k)))))
    case For(short, init, test, update, body) =>
      var last := YieldOption(update, More(LBrace, YieldBody(body, k)));
      More(KwFor,
        if short then YieldOption(test, last)
        else YieldInit(init, YieldOption(test, More(Semicolon, last))))
  }

  function YieldOption(e: Option<Expr>, k: Stream): Stream {
    if e.None? then k else Yield(e.value, k)
  }

  function YieldInit(init: Option<Item>, k: Stream): Stream {
    if init.None? then More(Semicolon, k) else YieldItem(init.value, k)
  }

  function YieldArgs(es: seq<Expr>, comma: bool, close: Token, k: Stream): Stream
    decreases es, 0
  {
    if es == [] then More(close, k)
    else if |es| == 1 && !comma then Yield(es[0], More(close, k))
    else Yield(es[0], More(Comma, YieldArgs(es[1..], comma, close, k)))
  }

  /** Items up to and including the closing brace. */
  function YieldBody(items: seq<Item>, k: Stream): Stream
    decreases items, 0
  {
    if items == [] then More(RBrace, k) else YieldItem(items[0], YieldBody(items[1..], k))
  }

  function YieldItem(item: Item, k: Stream): Stream
    decreases item, 0
  {
    match item
    case ExprItem(e, end) => Yield(e, YieldEnd(end, k))
    case Decl(isConst, name, init, end) =>
      More(if isConst then KwConst else KwVar, More(Identifier(name),
        if init.None? then YieldEnd(end, k) else More(Becomes, Yield(init.value, YieldEnd(end, k)))))
    case Flow(keyword, result, end) => More(keyword, YieldOption(result, YieldEnd(end, k)))
    case Print(es, end) => More(KwPrint, YieldPrint(es, YieldEnd(end, k)))
  }

  function YieldPrint(es: seq<Expr>, k: Stream): Stream
    decreases es, 0
  {
    if es == [] then k
    else if |es| == 1 then Yield(es[0], k)
    else Yield(es[0], More(Comma, YieldPrint(es[1..], k)))
  }

  function YieldEnd(end: Ending, k: Stream): Stream {
    match end
    case BySemicolon => More(Semicolon, k)
    case ByVirtual => More(VirtualSemicolon, k)
    case ByEof => k
  }

  // ---------------------------------------------------------------------------------------------------
  // The grammar

  /** How tightly the top of a tree binds. */
  function Level(e: Expr): (level: nat)
    ensures ASSIGNMENT <= level <= CLOSED
  {
    match e
    case Assign(_, _) => ASSIGNMENT
    case Compound(_, _, _) => ASSIGNMENT
    case Binary(o, _, _) => LevelOf(o)
    case Call(_, _, _) => PRIMARY
    case Member(_, _) => PRIMARY
    case _ => CLOSED
  }

  /** Infix tokens of this precedence or more, standing right after the tree, would have become part of it. */
  function Reach(e: Expr): (reach: nat)
    ensures ASSIGNMENT <= reach <= CLOSED
  {
    match e
    case Assign(_, _) => ASSIGNMENT
    case Compound(_, _, _) => ASSIGNMENT
    case DoWhile(_, _) => ASSIGNMENT
    case Binary(o, _, r) => Min(LevelOf(o) + 1, Reach(r))
    case Unary(_, a) => Min(UNARY, Reach(a))
    case _ => CLOSED
  }

  function Min(a: nat, b: nat): nat {
    if a < b then a else b
  }

  /** The right edge is an `if` without its `else`. */
  predicate Dangles(e: Expr) {
    match e
    case If(_, _, els) => els.None? || Dangles(els.value)
    case Unary(_, a) => Dangles(a)
    case Binary(_, _, r) => Dangles(r)
    case Assign(_, r) => Dangles(r)
    case Compound(_, _, r) => Dangles(r)
    case DoWhile(_, c) => Dangles(c)
    case _ => false
  }

  /** `k` may follow the tree: its first token would not have been taken into it. */
  predicate Ends(e: Expr, k: Stream) {
    Clean(k) && HeadPrecedence(k) < Reach(e) && (Dangles(e) && k.More? ==> k.head != KwElse)
  }

  predicate ItemEnds(item: Item, k: Stream) {
    Clean(k) && (item.end.ByEof? ==> k.End?)
  }

  /** The leftmost token. */
  function First(e: Expr): Token {
    match e
    case Atom(t) => t
    case Group(_) => LParen
    case List(_, _) => LBracket
    case Unary(op, _) => op
    case Binary(_, l, _) => First(l)
    case Assign(l, _) => First(l)
    case Compound(_, l, _) => First(l)
    case Call(f, _, _) => First(f)
    case Member(owner, _) => First(owner)
    case Block(_) => LBrace
    case If(_, _, _) => KwIf
    case While(_, _) => KwWhile
    case DoWhile(_, _) => KwDo
    case For(_, _, _, _, _) => KwFor
  }

  /**
  The trees of the grammar. A left operand must not reach over its operator; a right operand must bind strictly
  tighter; the value of an assignment is unrestricted, so assignments nest to the right; a compound assignment needs
  a plain name, parenthesised or not.
  */
  predicate InGrammar(e: Expr)
    decreases e, 0
  {
    match e
    case Atom(t) => IsAtom(t)
    case Group(inner) => InGrammar(inner)
    case List(es, comma) => AllInGrammar(es) && (comma ==> es != [])
    case Unary(op, a) => IsUnary(op) && InGrammar(a) && UNARY <= Level(a)
    case Binary(o, l, r) => InGrammar(l) && LevelOf(o) < Reach(l) && InGrammar(r) && LevelOf(o) < Level(r)
    case Assign(l, r) => InGrammar(l) && ASSIGNMENT < Reach(l) && InGrammar(r)
    case Compound(_, l, r) => InGrammar(l) && ASSIGNMENT < Reach(l) && IsName(l) && InGrammar(r)
    case Call(f, args, comma) =>
      InGrammar(f) && PRIMARY < Reach(f) && AllInGrammar(args) && (comma ==> args != [])
    case Member(owner, _) => InGrammar(owner) && PRIMARY < Reach(owner)
    case Block(items) => BodyInGrammar(items)
    case If(c, thn, els) =>
      && InGrammar(c) && BodyInGrammar(thn)
      && (els.Some? ==> (els.value.If? || els.value.Block?) && InGrammar(els.value))
    case While(c, body) => InGrammar(c) && BodyInGrammar(body)
    case DoWhile(body, c) => BodyInGrammar(body) && InGrammar(c)
    case For(short, init, test, update, body) =>
      && (short ==> init.None? && update.None? && (test.Some? ==> First(test.value) != LBrace))
      && (init.Some? ==> InitInGrammar(init.value))
      && (test.Some? ==> InGrammar(test.value))
      && (update.Some? ==> InGrammar(update.value) && First(update.value) != LBrace)
      && BodyInGrammar(body)
  }

  predicate InitInGrammar(init: Item)
    decreases init, 1
  {
    match init
    case ExprItem(e, end) => ItemInGrammar(init) && end.BySemicolon? && First(e) != LBrace
    case Decl(isConst, _, _, end) => ItemInGrammar(init) && !isConst && !end.ByEof?
    case _ => false
  }

  predicate AllInGrammar(es: seq<Expr>)
    decreases es, 0
  {
    es != [] ==> InGrammar(es[0]) && AllInGrammar(es[1..])
  }

  predicate BodyInGrammar(items: seq<Item>)
    decreases items, 0
  {
    items != [] ==> ItemInGrammar(items[0]) && !items[0].end.ByEof? && BodyInGrammar(items[1..])
  }

  predicate ItemInGrammar(item: Item)
    decreases item, 0
  {
    match item
    case ExprItem(e, _) => InGrammar(e)
    case Decl(_, _, init, _) => init.Some? ==> InGrammar(init.value)
    case Flow(keyword, result, _) =>
      && keyword in {KwReturn, KwBreak, KwContinue}
      && (result.Some? ==> keyword != KwContinue && InGrammar(result.value))
    case Print(es, _) => es != [] && AllInGrammar(es)
  }

  /** A name, possibly in parentheses. */
  predicate IsName(e: Expr) {
    if e.Group? then IsName(e.inner) else e.Atom? && e.t.Identifier?
  }

  /** The items of a whole source text; only the last one may end at the end of the file. */
  predicate ProgramInGrammar(items: seq<Item>) {
    items != [] ==>
      ItemInGrammar(items[0]) && (items[0].end.ByEof? ==> |items| == 1) && ProgramInGrammar(items[1..])
  }

  function YieldProgram(items: seq<Item>): Stream {
    if items == [] then End else YieldItem(items[0], YieldProgram(items[1..]))
  }

  // ---------------------------------------------------------------------------------------------------
  // Abstract trees

  /** The tree the C code builds: groups, trailing commas and the choice of terminators are not recorded. */
  function Bare(e: Expr): Expr
    decreases e, 0
  {
    match e
    case Atom(_) => e
    case Group(inner) => Bare(inner)
    case List(es, _) => List(BareAll(es), false)
    case Unary(op, a) => Unary(op, Bare(a))
    case Binary(o, l, r) => Binary(o, Bare(l), Bare(r))
    case Assign(l, r) => Assign(Bare(l), Bare(r))
    case Compound(a, l, r) => Compound(a, Bare(l), Bare(r))
    case Call(f, args, _) => Call(Bare(f), BareAll(args), false)
    case Member(owner, field) => Member(Bare(owner), field)
    case Block(items) => Block(BareItems(items))
    case If(c, thn, els) => If(Bare(c), BareItems(thn), if els.None? then None else Some(Bare(els.value)))
    case While(c, body) => While(Bare(c), BareItems(body))
    case DoWhile(body, c) => DoWhile(BareItems(body), Bare(c))
    case For(_, init, test, update, body) =>
      For(false, if init.None? then None else Some(BareItem(init.value)),
          if test.None? then None else Some(Bare(test.value)),
          if update.None? then None else Some(Bare(update.value)), BareItems(body))
  }

  function BareOption(e: Option<Expr>): Option<Expr> {
    if e.None? then None else Some(Bare(e.value))
  }

  function BareAll(es: seq<Expr>): (r: seq<Expr>)
    ensures |r| == |es|
    decreases es, 0
  {
    if es == [] then [] else [Bare(es[0])] + BareAll(es[1..])
  }

  function BareItems(items: seq<Item>): (r: seq<Item>)
    ensures |r| == |items|
    decreases items, 0
  {
    if items == [] then [] else [BareItem(items[0])] + BareItems(items[1..])
  }

  function BareItem(item: Item): Item
    decreases item, 0
  {
    match item
    case ExprItem(e, _) => ExprItem(Bare(e), BySemicolon)
    case Decl(isConst, name, init, _) =>
      Decl(isConst, name, if init.None? then Some(Atom(Null)) else Some(Bare(init.value)), BySemicolon)
    case Flow(keyword, result, _) =>
      Flow(keyword, if result.None? then None else Some(Bare(result.value)), BySemicolon)
    case Print(es, _) => Print(BareAll(es), BySemicolon)
  }

  lemma {:induction false} BareAllAppend(es: seq<Expr>, e: Expr)
    ensures BareAll(es + [e]) == BareAll(es) + [Bare(e)]
  {
    if es == [] {
      assert [e] == [e] + [];
    } else {
      assert (es + [e])[1..] == es[1..] + [e];
      BareAllAppend(es[1..], e);
    }
  }

  lemma {:induction false} BareItemsAppend(items: seq<Item>, item: Item)
    ensures BareItems(items + [item]) == BareItems(items) + [BareItem(item)]
  {
    if items == [] {
      assert [item] == [item] + [];
    } else {
      assert (items + [item])[1..] == items[1..] + [item];
      BareItemsAppend(items[1..], item);
    }
  }

  lemma {:induction false} BareName(e: Expr)
    ensures IsName(e) <==> Bare(e).Atom? && Bare(e).t.Identifier?
  {
    if e.Group? {
      BareName(e.inner);
    }
  }
}
