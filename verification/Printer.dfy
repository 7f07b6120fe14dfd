/**
Printing abstract trees with as few parentheses as the grammar allows. Printing and parsing are inverse, the trees the
parser builds are exactly the printable ones, and no other way of writing a tree down takes fewer tokens.
*/
module Printer {
  import opened Wrappers
  import opened Grammar
  import opened GrammarParser
  import opened GrammarTheorems

  // ---------------------------------------------------------------------------------------------------
  // The trees the parser builds

  predicate Abstract(e: Expr)
    decreases e, 0
  {
    match e
    case Atom(t) => IsAtom(t)
    case Group(_) => false
    case List(es, comma) => AllAbstract(es) && !comma
    case Unary(op, a) => IsUnary(op) && Abstract(a)
    case Binary(_, l, r) => Abstract(l) && Abstract(r)
    case Assign(l, r) => Abstract(l) && Abstract(r)
    case Compound(_, l, r) => l.Atom? && l.t.Identifier? && Abstract(r)
    case Call(f, args, comma) => Abstract(f) && AllAbstract(args) && !comma
    case Member(owner, _) => Abstract(owner)
    case Block(items) => ItemsAbstract(items)
    case If(c, thn, els) =>
      && Abstract(c) && ItemsAbstract(thn)
      && (els.Some? ==> (els.value.If? || els.value.Block?) && Abstract(els.value))
    case While(c, body) => Abstract(c) && ItemsAbstract(body)
    case DoWhile(body, c) => ItemsAbstract(body) && Abstract(c)
    case For(short, init, test, update, body) =>
      && !short
      && (init.Some? ==> ItemAbstract(init.value)
                         && (init.value.ExprItem? || (init.value.Decl? && !init.value.isConst)))
      && (test.Some? ==> Abstract(test.value))
      && (update.Some? ==> Abstract(update.value))
      && ItemsAbstract(body)
  }

  predicate AllAbstract(es: seq<Expr>)
    decreases es, 0
  {
    es != [] ==> Abstract(es[0]) && AllAbstract(es[1..])
  }

  predicate ItemsAbstract(items: seq<Item>)
    decreases items, 0
  {
    items != [] ==> ItemAbstract(items[0]) && ItemsAbstract(items[1..])
  }

  predicate ItemAbstract(item: Item)
    decreases item, 0
  {
    item.end.BySemicolon? &&
    match item
    case ExprItem(e, _) => Abstract(e)
    case Decl(_, _, init, _) => init.Some? && Abstract(init.value)
    case Flow(keyword, result, _) =>
      && keyword in {KwReturn, KwBreak, KwContinue}
      && (result.Some? ==> keyword != KwContinue && Abstract(result.value))
    case Print(es, _) => es != [] && AllAbstract(es)
  }

  // ---------------------------------------------------------------------------------------------------
  // The printer

  function AtLevel(e: Expr, p: nat): Expr {
    if Level(e) < p then Group(e) else e
  }

  function Within(e: Expr, level: nat): Expr {
    if Reach(e) <= level then Group(e) else e
  }

  function Braceless(e: Expr): Expr {
    if First(e) == LBrace then Group(e) else e
  }

  /** The concrete tree to write down for an abstract one. */
  function Dress(e: Expr): Expr
    decreases e, 0
  {
    match e
    case Atom(_) => e
    case Group(inner) => Dress(inner)
    case List(es, _) => List(DressAll(es), false)
    case Unary(op, a) => Unary(op, AtLevel(Dress(a), UNARY))
    case Binary(o, l, r) => Binary(o, Within(Dress(l), LevelOf(o)), AtLevel(Dress(r), LevelOf(o) + 1))
    case Assign(l, r) => Assign(Within(Dress(l), ASSIGNMENT), Dress(r))
    case Compound(a, l, r) => Compound(a, Within(Dress(l), ASSIGNMENT), Dress(r))
    case Call(f, args, _) => Call(Within(Dress(f), PRIMARY), DressAll(args), false)
    case Member(owner, field) => Member(Within(Dress(owner), PRIMARY), field)
    case Block(items) => Block(DressItems(items))
    case If(c, thn, els) => If(Dress(c), DressItems(thn), if els.None? then None else Some(Dress(els.value)))
    case While(c, body) => While(Dress(c), DressItems(body))
    case DoWhile(body, c) => DoWhile(DressItems(body), Dress(c))
    case For(_, init, test, update, body) =>
      if init.None? && update.None? then
        For(true, None, if test.None? then None else Some(Braceless(Dress(test.value))), None, DressItems(body))
      else
        For(false, if init.None? then None else Some(DressInit(init.value)),
            if test.None? then None else Some(Dress(test.value)),
            if update.None? then None else Some(Braceless(Dress(update.value))), DressItems(body))
  }

  function DressAll(es: seq<Expr>): (r: seq<Expr>)
    ensures |r| == |es|
    decreases es, 0
  {
    if es == [] then [] else [Dress(es[0])] + DressAll(es[1..])
  }

  function DressItems(items: seq<Item>): (r: seq<Item>)
    ensures |r| == |items|
    decreases items, 0
  {
    if items == [] then [] else [DressItem(items[0])] + DressItems(items[1..])
  }

  function DressItem(item: Item): Item
    decreases item, 0
  {
    match item
    case ExprItem(e, _) => ExprItem(Dress(e), BySemicolon)
    case Decl(isConst, name, init, _) =>
      Decl(isConst, name,
           if init.None? || init.value == Atom(Null) then None else Some(Dress(init.value)), BySemicolon)
    case Flow(keyword, result, _) =>
      Flow(keyword, if result.None? then None else Some(Dress(result.value)), BySemicolon)
    case Print(es, _) => Print(DressAll(es), BySemicolon)
  }

  function DressInit(init: Item): Item
    decreases init, 1
  {
    if init.ExprItem? then ExprItem(Braceless(Dress(init.e)), BySemicolon) else DressItem(init)
  }

  // ---------------------------------------------------------------------------------------------------
  // What is printed is in the grammar and stands for the tree

  ghost predicate Prints(d: Expr, e: Expr) {
    InGrammar(d) && Bare(d) == e
  }

  lemma {:induction false} Grouped(d: Expr, e: Expr, p: nat)
    requires Prints(d, e)
    ensures p <= CLOSED ==> Prints(AtLevel(d, p), e) && p <= Level(AtLevel(d, p))
    ensures p < CLOSED ==> Prints(Within(d, p), e) && p < Reach(Within(d, p))
    ensures Prints(Braceless(d), e) && First(Braceless(d)) != LBrace
  {
  }

  lemma {:induction false} PrintInGrammar(e: Expr)
    requires Abstract(e)
    ensures Prints(Dress(e), e)
    decreases e, 1
  {
    match e
    case Atom(_) =>
    case List(es, _) => PrintAll(es);
    case Unary(_, a) => PrintInGrammar(a); Grouped(Dress(a), a, UNARY);
    case Binary(_, _, _) => PrintBinary(e);
    case Assign(l, r) => PrintInGrammar(l); PrintInGrammar(r); Grouped(Dress(l), l, ASSIGNMENT);
    case Compound(_, l, r) => PrintInGrammar(r);
    case Call(f, args, _) => PrintInGrammar(f); PrintAll(args); Grouped(Dress(f), f, PRIMARY);
    case Member(owner, _) => PrintInGrammar(owner); Grouped(Dress(owner), owner, PRIMARY);
    case Block(items) => PrintItems(items);
    case If(c, thn, els) =>
      PrintInGrammar(c);
      PrintItems(thn);
      if els.Some? { PrintInGrammar(els.value); }
    case While(c, body) => PrintInGrammar(c); PrintItems(body);
    case DoWhile(body, c) => PrintInGrammar(c); PrintItems(body);
    case For(_, _, _, _, _) => PrintFor(e);
  }

  lemma {:induction false} PrintBinary(e: Expr)
    requires Abstract(e) && e.Binary?
    ensures Prints(Dress(e), e)
    decreases e, 0
  {
    PrintInGrammar(e.left);
    PrintInGrammar(e.right);
    Grouped(Dress(e.left), e.left, LevelOf(e.o));
    Grouped(Dress(e.right), e.right, LevelOf(e.o) + 1);
  }

  lemma {:induction false} PrintFor(e: Expr)
    requires Abstract(e) && e.For?
    ensures Prints(Dress(e), e)
    decreases e, 0
  {
    PrintItems(e.body);
    if e.init.Some? {
      PrintInit(e.init.value);
    }
    if e.test.Some? {
      PrintInGrammar(e.test.value);
      Grouped(Dress(e.test.value), e.test.value, ASSIGNMENT);
    }
    if e.update.Some? {
      PrintInGrammar(e.update.value);
      Grouped(Dress(e.update.value), e.update.value, ASSIGNMENT);
    }
  }

  lemma {:induction false} PrintInit(init: Item)
    requires ItemAbstract(init) && (init.ExprItem? || (init.Decl? && !init.isConst))
    ensures InitInGrammar(DressInit(init)) && BareItem(DressInit(init)) == init
    decreases init, 2
  {
    hide Abstract, InGrammar, Bare, Dress;
    if init.ExprItem? {
      PrintInGrammar(init.e);
      Grouped(Dress(init.e), init.e, ASSIGNMENT);
    } else {
      PrintItem(init);
    }
  }

  lemma {:induction false} PrintAll(es: seq<Expr>)
    requires AllAbstract(es)
    ensures AllInGrammar(DressAll(es)) && BareAll(DressAll(es)) == es
    decreases es, 0
  {
    hide Abstract, InGrammar, Dress, Bare;
    if es != [] {
      PrintInGrammar(es[0]);
      PrintAll(es[1..]);
      assert DressAll(es)[1..] == DressAll(es[1..]);
    }
  }

  lemma {:induction false} PrintItems(items: seq<Item>)
    requires ItemsAbstract(items)
    ensures BodyInGrammar(DressItems(items)) && BareItems(DressItems(items)) == items
    decreases items, 0
  {
    hide ItemAbstract, ItemInGrammar, DressItem, BareItem;
    if items != [] {
      PrintItem(items[0]);
      PrintItems(items[1..]);
      assert DressItems(items)[1..] == DressItems(items[1..]);
    }
  }

  lemma {:induction false} PrintItem(item: Item)
    requires ItemAbstract(item)
    ensures ItemInGrammar(DressItem(item)) && BareItem(DressItem(item)) == item && DressItem(item).end.BySemicolon?
    decreases item, 0
  {
    hide Abstract, InGrammar;
    match item
    case ExprItem(e, _) => PrintInGrammar(e);
    case Decl(_, _, init, _) => PrintInGrammar(init.value);
    case Flow(_, result, _) => if result.Some? { PrintInGrammar(result.value); }
    case Print(es, _) => PrintAll(es);
  }

  /** Parsing what is printed gives the tree back and stops exactly behind it. */
  lemma {:induction false} RoundTrip(e: Expr, k: Stream)
    requires Abstract(e) && HeadPrecedence(k) == 0 && Clean(k) && !At(KwElse, k)
    ensures var out := Parse(Yield(Dress(e), k)); out.Ok? && Bare(out.value) == e && out.rest == k
  {
    hide Abstract, InGrammar, Yield, Dress, Bare, Ends;
    PrintInGrammar(e);
    CompleteWhole(Dress(e), k);
  }

  // ---------------------------------------------------------------------------------------------------
  // The parser builds exactly these trees

  lemma {:induction false} BareIsAbstract(c: Expr)
    requires InGrammar(c)
    ensures Abstract(Bare(c))
    decreases c, 0
  {
    match c
    case Atom(_) =>
    case Group(inner) => BareIsAbstract(inner);
    case List(es, _) => BareAllAbstract(es);
    case Unary(_, a) => BareIsAbstract(a);
    case Binary(_, l, r) => BareIsAbstract(l); BareIsAbstract(r);
    case Assign(l, r) => BareIsAbstract(l); BareIsAbstract(r);
    case Compound(_, l, r) => BareName(l); BareIsAbstract(r);
    case Call(f, args, _) => BareIsAbstract(f); BareAllAbstract(args);
    case Member(owner, _) => BareIsAbstract(owner);
    case Block(items) => BareItemsAbstract(items);
    case If(cond, thn, els) =>
      BareIsAbstract(cond);
      BareItemsAbstract(thn);
      if els.Some? { BareIsAbstract(els.value); }
    case While(cond, body) => BareIsAbstract(cond); BareItemsAbstract(body);
    case DoWhile(body, cond) => BareIsAbstract(cond); BareItemsAbstract(body);
    case For(_, init, test, update, body) =>
      if init.Some? { BareItemAbstract(init.value); }
      if test.Some? { BareIsAbstract(test.value); }
      if update.Some? { BareIsAbstract(update.value); }
      BareItemsAbstract(body);
  }

  lemma {:induction false} BareAllAbstract(es: seq<Expr>)
    requires AllInGrammar(es)
    ensures AllAbstract(BareAll(es))
    decreases es, 0
  {
    hide Abstract, InGrammar, Bare;
    if es != [] {
      BareIsAbstract(es[0]);
      BareAllAbstract(es[1..]);
      assert BareAll(es)[1..] == BareAll(es[1..]);
    }
  }

  lemma {:induction false} BareItemsAbstract(items: seq<Item>)
    requires BodyInGrammar(items)
    ensures ItemsAbstract(BareItems(items))
    decreases items, 0
  {
    hide ItemAbstract, ItemInGrammar, BareItem;
    if items != [] {
      BareItemAbstract(items[0]);
      BareItemsAbstract(items[1..]);
      assert BareItems(items)[1..] == BareItems(items[1..]);
    }
  }

  lemma {:induction false} BareItemAbstract(item: Item)
    requires ItemInGrammar(item)
    ensures ItemAbstract(BareItem(item))
    decreases item, 0
  {
    match item
    case ExprItem(e, _) => BareIsAbstract(e);
    case Decl(_, _, init, _) => if init.Some? { BareIsAbstract(init.value); }
    case Flow(_, result, _) => if result.Some? { BareIsAbstract(result.value); }
    case Print(es, _) => BareAllAbstract(es);
  }

  /** A tree can come out of the parser if and only if it is abstract. */
  lemma {:induction false} AbstractTreesAreParsed(e: Expr)
    ensures Abstract(e) <==> exists ts: Stream :: Parse(ts).Ok? && Bare(Parse(ts).value) == e
  {
    hide Abstract, InGrammar, Yield, Dress, Bare, Ends, ParseAt, Parse;
    if Abstract(e) {
      RoundTrip(e, End);
    }
    forall ts: Stream | Parse(ts).Ok? && Bare(Parse(ts).value) == e ensures Abstract(e) {
      BareIsAbstract(Parse(ts).value);
    }
  }

  // ---------------------------------------------------------------------------------------------------
  // No way of writing a tree takes fewer tokens

  function Size(e: Expr): nat
    decreases e, 0
  {
    match e
    case Atom(_) => 1
    case Group(inner) => 2 + Size(inner)
    case List(es, comma) => 2 + SizeAll(es, comma)
    case Unary(_, a) => 1 + Size(a)
    case Binary(_, l, r) => 1 + Size(l) + Size(r)
    case Assign(l, r) => 1 + Size(l) + Size(r)
    case Compound(_, l, r) => 1 + Size(l) + Size(r)
    case Call(f, args, comma) => 2 + Size(f) + SizeAll(args, comma)
    case Member(owner, _) => 2 + Size(owner)
    case Block(items) => 2 + SizeItems(items)
    case If(c, thn, els) => 3 + Size(c) + SizeItems(thn) + if els.None? then 0 else 1 + Size(els.value)
    case While(c, body) => 3 + Size(c) + SizeItems(body)
    case DoWhile(body, c) => 4 + Size(c) + SizeItems(body)
    case For(short, init, test, update, body) =>
      3 + SizeOption(test) + SizeOption(update) + SizeItems(body)
      + if short then 0 else 1 + if init.None? then 1 else SizeItem(init.value)
  }

  function SizeOption(e: Option<Expr>): nat {
    if e.None? then 0 else Size(e.value)
  }

  function SizeAll(es: seq<Expr>, comma: bool): nat
    decreases es, 0
  {
    if es == [] then 0
    else if |es| == 1 && !comma then Size(es[0])
    else Size(es[0]) + 1 + SizeAll(es[1..], comma)
  }

  function SizeItems(items: seq<Item>): nat
    decreases items, 0
  {
    if items == [] then 0 else SizeItem(items[0]) + SizeItems(items[1..])
  }

  function SizeItem(item: Item): nat
    decreases item, 0
  {
    (if item.end.ByEof? then 0 else 1) +
    match item
    case ExprItem(e, _) => Size(e)
    case Decl(_, _, init, _) => 2 + if init.None? then 0 else 1 + Size(init.value)
    case Flow(_, result, _) => 1 + SizeOption(result)
    case Print(es, _) => 1 + SizeAll(es, false)
  }

  lemma {:induction false} YieldSize(e: Expr, k: Stream)
    ensures Length(Yield(e, k)) == Size(e) + Length(k)
    decreases e, 2
  {
    hide YieldArgs, SizeAll;
    match e
    case Atom(_) =>
    case Group(inner) => YieldSize(inner, More(RParen, k));
    case List(es, comma) => YieldSizeAll(es, comma, RBracket, k);
    case Unary(_, a) => YieldSize(a, k);
    case Binary(o, l, r) => YieldSize(l, More(Op(o), Yield(r, k))); YieldSize(r, k);
    case Assign(l, r) => YieldSize(l, More(Becomes, Yield(r, k))); YieldSize(r, k);
    case Compound(a, l, r) => YieldSize(l, More(OpBecomes(a), Yield(r, k))); YieldSize(r, k);
    case Call(f, args, comma) =>
      YieldSize(f, More(LParen, YieldArgs(args, comma, RParen, k)));
      YieldSizeAll(args, comma, RParen, k);
    case Member(owner, field) => YieldSize(owner, More(Dot, More(Identifier(field), k)));
    case _ => YieldSizeControl(e, k);
  }

  lemma {:induction false} YieldSizeControl(e: Expr, k: Stream)
    requires e.Block? || e.If? || e.While? || e.DoWhile? || e.For?
    ensures Length(Yield(e, k)) == Size(e) + Length(k)
    decreases e, 1
  {
    hide YieldItem, SizeItem, YieldBody, SizeItems, YieldArgs, SizeAll;
    match e
    case Block(items) => YieldSizeItems(items, k);
    case If(c, thn, els) =>
      var m := if els.None? then k else More(KwElse, Yield(els.value, k));
      YieldSize(c, More(LBrace, YieldBody(thn, m)));
      YieldSizeItems(thn, m);
      if els.Some? { YieldSize(els.value, k); }
    case While(c, body) =>
      YieldSize(c, More(LBrace, YieldBody(body, k)));
      YieldSizeItems(body, k);
    case DoWhile(body, c) =>
      YieldSizeItems(body, More(KwWhile, Yield(c, k)));
      YieldSize(c, k);
    case For(_, _, _, _, _) => YieldSizeFor(e, k);
  }

  lemma {:induction false} YieldSizeFor(e: Expr, k: Stream)
    requires e.For?
    ensures Length(Yield(e, k)) == Size(e) + Length(k)
    decreases e, 0
  {
    hide YieldItem, SizeItem, YieldBody, SizeItems;
    YieldSizeItems(e.body, k);
    var m := More(LBrace, YieldBody(e.body, k));
    var last := YieldOption(e.update, m);
    if e.update.Some? { YieldSize(e.update.value, m); }
    var rest := if e.short then last else More(Semicolon, last);
    if e.test.Some? { YieldSize(e.test.value, rest); }
    if e.init.Some? { YieldSizeItem(e.init.value, YieldOption(e.test, rest)); }
  }

  lemma {:induction false} YieldSizeAll(es: seq<Expr>, comma: bool, close: Token, k: Stream)
    ensures Length(YieldArgs(es, comma, close, k)) == SizeAll(es, comma) + 1 + Length(k)
    decreases es, 0
  {
    hide Yield, Size;
    if es != [] {
      if |es| == 1 && !comma {
        YieldSize(es[0], More(close, k));
      } else {
        YieldSize(es[0], More(Comma, YieldArgs(es[1..], comma, close, k)));
        YieldSizeAll(es[1..], comma, close, k);
      }
    }
  }

  lemma {:induction false} YieldSizeItems(items: seq<Item>, k: Stream)
    ensures Length(YieldBody(items, k)) == SizeItems(items) + 1 + Length(k)
    decreases items, 0
  {
    hide YieldItem, SizeItem;
    if items != [] {
      YieldSizeItem(items[0], YieldBody(items[1..], k));
      YieldSizeItems(items[1..], k);
    }
  }

  lemma {:induction false} YieldSizeItem(item: Item, k: Stream)
    ensures Length(YieldItem(item, k)) == SizeItem(item) + Length(k)
    decreases item, 0
  {
    hide Yield, Size;
    var m := YieldEnd(item.end, k);
    match item
    case ExprItem(e, _) => YieldSize(e, m);
    case Decl(_, name, init, _) =>
      if init.Some? { YieldSize(init.value, m); }
      var w := if init.None? then m else More(Becomes, Yield(init.value, m));
      assert YieldItem(item, k).tail == More(Identifier(name), w);
      assert Length(YieldItem(item, k).tail) == 1 + Length(w);
    case Flow(_, result, _) => if result.Some? { YieldSize(result.value, m); }
    case Print(es, _) => YieldSizePrint(es, m);
  }

  lemma {:induction false} YieldSizePrint(es: seq<Expr>, k: Stream)
    ensures Length(YieldPrint(es, k)) == SizeAll(es, false) + Length(k)
    decreases es, 0
  {
    hide Yield, Size;
    if es != [] {
      if |es| == 1 {
        YieldSize(es[0], k);
      } else {
        YieldSize(es[0], More(Comma, YieldPrint(es[1..], k)));
        YieldSizePrint(es[1..], k);
      }
    }
  }

  /**
  `d` is no longer than `c`, and two tokens shorter wherever it misses one of the properties that putting `c` in
  parentheses could have bought.
  */
  predicate Leaner(d: Expr, c: Expr) {
    && Size(d) <= Size(c)
    && (Level(d) < Level(c) ==> Size(d) + 2 <= Size(c))
    && (Reach(d) < Reach(c) ==> Size(d) + 2 <= Size(c))
    && (First(d) == LBrace && First(c) != LBrace ==> Size(d) + 2 <= Size(c))
  }

  lemma LeanGroup(d: Expr, c: Expr, p: nat)
    requires Leaner(d, c)
    ensures p <= Level(c) ==> Size(AtLevel(d, p)) <= Size(c)
    ensures p < Reach(c) ==> Size(Within(d, p)) <= Size(c)
    ensures First(c) != LBrace ==> Size(Braceless(d)) <= Size(c)
    ensures Reach(AtLevel(d, p)) < Reach(c) ==> Size(AtLevel(d, p)) + 2 <= Size(c)
    ensures p < Reach(c) && First(Within(d, p)) == LBrace && First(c) != LBrace ==> Size(Within(d, p)) + 2 <= Size(c)
  {
    var g := Group(d);
    assert Size(g) == 2 + Size(d) && Level(g) == Reach(g) == CLOSED && First(g) == LParen;
    hide Size, Level, Reach, First;
  }

  /** The printer writes every tree down with the fewest tokens, so in particular with the fewest parentheses. */
  lemma {:induction false} PrinterIsMinimal(c: Expr)
    requires InGrammar(c)
    ensures Length(Yield(Dress(Bare(c)), End)) <= Length(Yield(c, End))
  {
    hide InGrammar, Yield, Size, Dress, Bare;
    Minimal(c);
    YieldSize(c, End);
    YieldSize(Dress(Bare(c)), End);
  }

  lemma {:induction false} Minimal(c: Expr)
    requires InGrammar(c)
    ensures Leaner(Dress(Bare(c)), c)
    decreases c, 2
  {
    if Level(c) < CLOSED {
      hide InGrammar, Dress, Bare, Size, Level;
      MinimalInfix(c);
    } else if c.Group? || c.Atom? || c.List? || c.Unary? {
      match c
      case Atom(_) =>
      case Group(inner) => Minimal(inner);
      case List(es, comma) => MinimalAll(es, comma);
      case Unary(_, a) => Minimal(a); LeanGroup(Dress(Bare(a)), a, UNARY);
    } else {
      hide InGrammar, Dress, Bare, Size, Level;
      MinimalControl(c);
    }
  }

  lemma {:induction false} MinimalInfix(c: Expr)
    requires InGrammar(c) && Level(c) < CLOSED
    ensures Leaner(Dress(Bare(c)), c)
    decreases c, 1
  {
    hide InGrammar, Dress, Bare, Size, Reach, First;
    if c.Binary? {
      MinimalBinary(c);
    } else if c.Call? || c.Member? {
      MinimalPostfix(c);
    } else {
      MinimalAssign(c);
    }
  }

  lemma {:induction false} MinimalPostfix(c: Expr)
    requires InGrammar(c) && (c.Call? || c.Member?)
    ensures Leaner(Dress(Bare(c)), c)
    decreases c, 0
  {
    hide SizeAll, AllInGrammar, BareAll, DressAll;
    match c
    case Call(f, args, comma) => MinimalAll(args, comma); MinimalLeft(f, PRIMARY);
    case Member(owner, _) => MinimalLeft(owner, PRIMARY);
  }

  lemma {:induction false} MinimalAssign(c: Expr)
    requires InGrammar(c) && (c.Assign? || c.Compound?)
    ensures Leaner(Dress(Bare(c)), c)
    decreases c, 0
  {
    Minimal(c.value);
    MinimalLeft(c.target, ASSIGNMENT);
  }

  lemma {:induction false} MinimalBinary(c: Expr)
    requires InGrammar(c) && c.Binary?
    ensures Leaner(Dress(Bare(c)), c)
    decreases c, 0
  {
    BinaryParts(c);
    MinimalLeft(c.left, LevelOf(c.o));
    Minimal(c.right);
    var l, r := Dress(Bare(c.left)), Dress(Bare(c.right));
    hide InGrammar, Dress, Bare, Size, Reach, First;
    LeanGroup(r, c.right, LevelOf(c.o) + 1);
    LeanerBinary(c, Within(l, LevelOf(c.o)), AtLevel(r, LevelOf(c.o) + 1));
  }

  lemma BinaryParts(c: Expr)
    requires InGrammar(c) && c.Binary?
    ensures InGrammar(c.left) && InGrammar(c.right) && LevelOf(c.o) < Reach(c.left) && LevelOf(c.o) < Level(c.right)
    ensures Dress(Bare(c)) ==
            Binary(c.o, Within(Dress(Bare(c.left)), LevelOf(c.o)), AtLevel(Dress(Bare(c.right)), LevelOf(c.o) + 1))
  {
    assert InGrammar(c.left) && InGrammar(c.right) && LevelOf(c.o) < Reach(c.left) && LevelOf(c.o) < Level(c.right) by {
      hide Dress, Bare, Reach, Level;
    }
    hide InGrammar, Within, AtLevel;
  }

  lemma LeanerBinary(c: Expr, l: Expr, r: Expr)
    requires c.Binary? && Size(l) <= Size(c.left) && Size(r) <= Size(c.right)
    requires First(l) == LBrace && First(c.left) != LBrace ==> Size(l) + 2 <= Size(c.left)
    requires Reach(r) < Reach(c.right) ==> Size(r) + 2 <= Size(c.right)
    ensures Leaner(Binary(c.o, l, r), c)
  {
    var d := Binary(c.o, l, r);
    assert Size(d) == 1 + Size(l) + Size(r) && Size(c) == 1 + Size(c.left) + Size(c.right) by {
      hide Level, Reach, First;
    }
    hide Size;
  }

  /** A left operand of an operator at `level`. */
  lemma {:induction false} MinimalLeft(l: Expr, level: nat)
    requires InGrammar(l) && level < Reach(l)
    ensures var d := Within(Dress(Bare(l)), level);
            Size(d) <= Size(l) && (First(d) == LBrace && First(l) != LBrace ==> Size(d) + 2 <= Size(l))
    decreases l, 3
  {
    hide InGrammar, Dress, Bare;
    Minimal(l);
    LeanGroup(Dress(Bare(l)), l, level);
  }

  lemma {:induction false} MinimalControl(c: Expr)
    requires InGrammar(c) && (c.Block? || c.If? || c.While? || c.DoWhile? || c.For?)
    ensures Leaner(Dress(Bare(c)), c)
    decreases c, 1
  {
    match c
    case Block(items) => MinimalItems(items);
    case If(cond, thn, els) =>
      Minimal(cond);
      MinimalItems(thn);
      if els.Some? { Minimal(els.value); }
    case While(cond, body) => Minimal(cond); MinimalItems(body);
    case DoWhile(body, cond) => Minimal(cond); MinimalItems(body);
    case For(_, _, _, _, _) => MinimalFor(c);
  }

  lemma {:induction false} MinimalFor(c: Expr)
    requires InGrammar(c) && c.For?
    ensures Leaner(Dress(Bare(c)), c)
    decreases c, 0
  {
    hide BodyInGrammar, InitInGrammar, SizeItem, SizeItems, BareItem, BareItems, DressInit, DressItems, Leaner;
    MinimalItems(c.body);
    if c.init.Some? { MinimalInit(c.init.value); }
    if c.test.Some? { MinimalHead(c.test.value); }
    if c.update.Some? { MinimalHead(c.update.value); }
    DressedFor(c);
    SmallerFor(c);
    LeanerLoop(Dress(Bare(c)), c);
  }

  /** What the printer makes of a `for` loop. */
  function ForShape(c: Expr): Expr
    requires c.For?
  {
    var body := DressItems(BareItems(c.body));
    if c.init.None? && c.update.None? then For(true, None, Head(c.test), None, body)
    else
      For(false, if c.init.None? then None else Some(DressInit(BareItem(c.init.value))),
          if c.test.None? then None else Some(Dress(Bare(c.test.value))), Head(c.update), body)
  }

  function Head(e: Option<Expr>): Option<Expr> {
    if e.None? then None else Some(Braceless(Dress(Bare(e.value))))
  }

  lemma DressedFor(c: Expr)
    requires c.For?
    ensures Dress(Bare(c)) == ForShape(c)
  {
    hide BareItem, BareItems, DressInit, DressItems;
  }

  lemma SmallerFor(c: Expr)
    requires c.For? && InGrammar(c)
    requires SizeItems(DressItems(BareItems(c.body))) <= SizeItems(c.body)
    requires c.init.Some? ==> SizeItem(DressInit(BareItem(c.init.value))) <= SizeItem(c.init.value)
    requires c.test.Some? ==>
               && Size(Dress(Bare(c.test.value))) <= Size(c.test.value)
               && Size(Head(c.test).value) <= Size(c.test.value) + if First(c.test.value) == LBrace then 2 else 0
    requires c.update.Some? ==>
               Size(Head(c.update).value) <= Size(c.update.value) + if First(c.update.value) == LBrace then 2 else 0
    ensures Size(ForShape(c)) <= Size(c)
  {
    ForHeads(c);
    var d := ForShape(c);
    SizeOfFor(c);
    SizeOfFor(d);
    hide Size, SizeItem, SizeItems, Dress, Bare, InGrammar, First, Head, DressInit, DressItems, BareItem, BareItems;
  }

  lemma ForHeads(c: Expr)
    requires c.For? && InGrammar(c)
    ensures c.short ==> c.init.None? && c.update.None? && (c.test.Some? ==> First(c.test.value) != LBrace)
    ensures c.update.Some? ==> First(c.update.value) != LBrace
  {
    hide First, BodyInGrammar, InitInGrammar;
  }

  lemma SizeOfFor(c: Expr)
    requires c.For?
    ensures Size(c) == 3 + SizeOption(c.test) + SizeOption(c.update) + SizeItems(c.body)
                       + if c.short then 0 else 1 + if c.init.None? then 1 else SizeItem(c.init.value)
  {
    hide SizeItem, SizeItems, SizeOption;
  }

  lemma LeanerLoop(d: Expr, c: Expr)
    requires d.For? && c.For? && Size(d) <= Size(c)
    ensures Leaner(d, c)
  {
  }

  /** An expression in the head of a `for` loop. */
  lemma {:induction false} MinimalHead(c: Expr)
    requires InGrammar(c)
    ensures var d := Dress(Bare(c));
            Size(d) <= Size(c) && Size(Braceless(d)) <= Size(c) + if First(c) == LBrace then 2 else 0
    decreases c, 3
  {
    hide InGrammar, Dress, Bare;
    Minimal(c);
    LeanGroup(Dress(Bare(c)), c, ASSIGNMENT);
  }

  lemma {:induction false} MinimalInit(init: Item)
    requires InitInGrammar(init)
    ensures SizeItem(DressInit(BareItem(init))) <= SizeItem(init)
    decreases init, 1
  {
    hide InGrammar, Size, Dress, Bare;
    if init.ExprItem? {
      Minimal(init.e);
      LeanGroup(Dress(Bare(init.e)), init.e, ASSIGNMENT);
    } else {
      MinimalItem(init);
    }
  }

  lemma {:induction false} MinimalAll(es: seq<Expr>, comma: bool)
    requires AllInGrammar(es)
    ensures SizeAll(DressAll(BareAll(es)), false) <= SizeAll(es, comma)
    decreases es, 0
  {
    hide InGrammar, Size, Dress, Bare;
    if es != [] {
      Minimal(es[0]);
      MinimalAll(es[1..], comma);
      assert BareAll(es)[1..] == BareAll(es[1..]);
      assert DressAll(BareAll(es))[1..] == DressAll(BareAll(es[1..]));
    }
  }

  lemma {:induction false} MinimalItems(items: seq<Item>)
    requires BodyInGrammar(items)
    ensures SizeItems(DressItems(BareItems(items))) <= SizeItems(items)
    decreases items, 0
  {
    hide ItemInGrammar, SizeItem, DressItem, BareItem;
    if items != [] {
      MinimalItem(items[0]);
      MinimalItems(items[1..]);
      assert BareItems(items)[1..] == BareItems(items[1..]);
      assert DressItems(BareItems(items))[1..] == DressItems(BareItems(items[1..]));
    }
  }

  lemma {:induction false} MinimalItem(item: Item)
    requires ItemInGrammar(item) && !item.end.ByEof?
    ensures SizeItem(DressItem(BareItem(item))) <= SizeItem(item)
    decreases item, 0
  {
    hide InGrammar, Size, Dress, Bare;
    match item
    case ExprItem(e, _) => Minimal(e);
    case Decl(_, _, init, _) => if init.Some? { Minimal(init.value); }
    case Flow(_, result, _) => if result.Some? { Minimal(result.value); }
    case Print(es, _) => MinimalAll(es, false);
  }
}
