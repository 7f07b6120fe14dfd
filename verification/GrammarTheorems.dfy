/** The parser accepts every tree of the grammar, so it decides the grammar and the grammar is unambiguous. */
module GrammarTheorems {
  import opened Wrappers
  import opened Grammar
  import opened GrammarParser

  predicate StartsExpr(ts: Stream) {
    ts.More? && HasPrefix(ts.head)
  }

  lemma {:induction false} Starts(e: Expr, k: Stream)
    requires InGrammar(e)
    ensures StartsExpr(Yield(e, k)) && Yield(e, k).head == First(e)
    decreases e
  {
    YieldStarts(e, k);
    match e
    case Binary(_, l, _) => Starts(l, k); YieldStarts(l, k);
    case Assign(l, _) => Starts(l, k); YieldStarts(l, k);
    case Compound(_, l, _) => Starts(l, k); YieldStarts(l, k);
    case Call(f, _, _) => Starts(f, k); YieldStarts(f, k);
    case Member(owner, _) => Starts(owner, k); YieldStarts(owner, k);
    case _ =>
  }

  lemma ArgsStart(es: seq<Expr>, comma: bool, close: Token, k: Stream)
    requires AllInGrammar(es) && !close.LexError?
    ensures Clean(YieldArgs(es, comma, close, k))
  {
    hide Yield, InGrammar;
    if es != [] {
      Starts(es[0], More(close, k));
      Starts(es[0], More(Comma, YieldArgs(es[1..], comma, close, k)));
    }
  }

  lemma ItemStarts(item: Item, k: Stream)
    requires ItemInGrammar(item)
    ensures YieldItem(item, k).More? && Clean(YieldItem(item, k)) && YieldItem(item, k).head != RBrace
    ensures item.ExprItem? ==> StartsExpr(YieldItem(item, k)) && YieldItem(item, k).head == First(item.e)
  {
    hide Yield, InGrammar;
    if item.ExprItem? { Starts(item.e, YieldEnd(item.end, k)); }
  }

  lemma BodyStarts(items: seq<Item>, k: Stream)
    requires BodyInGrammar(items)
    ensures YieldBody(items, k).More? && Clean(YieldBody(items, k))
    ensures At(RBrace, YieldBody(items, k)) <==> items == []
  {
    hide YieldItem, ItemInGrammar;
    if items != [] { ItemStarts(items[0], YieldBody(items[1..], k)); }
  }

  // ---------------------------------------------------------------------------------------------------
  // Completeness

  /** Reading a tree of the grammar leads to the point where the climbing loop holds that tree. */
  lemma {:induction false} Complete(e: Expr, p: nat, k: Stream)
    requires InGrammar(e) && ASSIGNMENT <= p <= UNARY && p <= Level(e) && Ends(e, k)
    ensures ParseAt(p, Yield(e, k)) == Climb(p, e, k)
    decreases e, 4
  {
    hide InGrammar, Yield, Read, ReadPrefix, ReadInfix, ReadBody, ReadItem, ReadArgs;
    if Level(e) == CLOSED {
      CompletePrefix(e, k);
    } else {
      CompleteInfix(e, p, k);
    }
  }

  /** The left operand of an infix tree, its operator token, and the yield of what comes after the operator. */
  function Left(e: Expr): Expr
    requires Level(e) < CLOSED
  {
    match e
    case Binary(_, l, _) => l
    case Assign(l, _) => l
    case Compound(_, l, _) => l
    case Call(f, _, _) => f
    case Member(owner, _) => owner
  }

  function Operator(e: Expr): Token
    requires Level(e) < CLOSED
  {
    match e
    case Binary(o, _, _) => Op(o)
    case Assign(_, _) => Becomes
    case Compound(a, _, _) => OpBecomes(a)
    case Call(_, _, _) => LParen
    case Member(_, _) => Dot
  }

  function AfterOperator(e: Expr, k: Stream): Stream
    requires Level(e) < CLOSED
  {
    match e
    case Binary(_, _, r) => Yield(r, k)
    case Assign(_, r) => Yield(r, k)
    case Compound(_, _, r) => Yield(r, k)
    case Call(_, args, comma) => YieldArgs(args, comma, RParen, k)
    case Member(_, field) => More(Identifier(field), k)
  }

  lemma {:induction false} CompleteInfix(e: Expr, p: nat, k: Stream)
    requires InGrammar(e) && ASSIGNMENT <= p <= UNARY && p <= Level(e) < CLOSED && Ends(e, k)
    ensures ParseAt(p, Yield(e, k)) == Climb(p, e, k)
    decreases e, 1
  {
    var ts := AfterOperator(e, k);
    assert InGrammar(Left(e)) && p <= Level(Left(e)) && Ends(Left(e), More(Operator(e), ts)) && Clean(ts) by {
      hide Yield, Climb, ParseAt, Read, ReadPrefix, ReadInfix, ReadBody, ReadItem, ReadArgs;
      OperatorFits(e, k);
    }
    assert Yield(e, k) == Yield(Left(e), More(Operator(e), ts)) by { hide InGrammar, Ends, Climb, ParseAt; }
    hide InGrammar, Yield, Ends, Infix, ParseAt, Read, ReadPrefix, ReadInfix, ReadBody, ReadItem, ReadArgs;
    Complete(Left(e), p, More(Operator(e), ts));
    CompleteStep(e, k);
  }

  lemma OperatorFits(e: Expr, k: Stream)
    requires InGrammar(e) && Level(e) < CLOSED && Ends(e, k)
    ensures InGrammar(Left(e)) && Ends(Left(e), More(Operator(e), AfterOperator(e, k)))
    ensures Level(e) == Precedence(Operator(e)) <= Level(Left(e)) && Clean(AfterOperator(e, k))
  {
    hide InGrammar, Yield, YieldArgs, AfterOperator, Dangles, Level, Reach, Left;
    OperatorParts(e, k);
    CleanAfterOperator(e, k);
    ReachBound(Left(e));
  }

  lemma CleanAfterOperator(e: Expr, k: Stream)
    requires InGrammar(e) && Level(e) < CLOSED && Ends(e, k)
    ensures Clean(AfterOperator(e, k))
  {
    hide Yield, YieldArgs, AllInGrammar, InGrammar, Ends, Reach, Precedence, Operator, Left;
    OperatorParts(e, k);
    if e.Binary? {
      Starts(e.right, k);
    } else if e.Assign? || e.Compound? {
      Starts(e.value, k);
    } else if e.Call? {
      ArgsStart(e.args, e.comma, RParen, k);
    }
  }

  lemma ReachBound(e: Expr)
    ensures Reach(e) <= Level(e) + 1
  {
  }

  /** The operands are in the grammar, and the left one does not reach over the operator. */
  lemma OperatorParts(e: Expr, k: Stream)
    requires InGrammar(e) && Level(e) < CLOSED && Ends(e, k)
    ensures InGrammar(Left(e)) && Level(e) == Precedence(Operator(e)) < Reach(Left(e)) && Clean(k)
    ensures e.Binary? ==> InGrammar(e.right)
    ensures e.Assign? || e.Compound? ==> InGrammar(e.value)
    ensures e.Call? ==> AllInGrammar(e.args)
  {
    assert Clean(k);
    hide Dangles, AllInGrammar, IsName, Ends, HeadPrecedence, Clean;
    LeftPart(e);
  }

  lemma LeftPart(e: Expr)
    requires InGrammar(e) && Level(e) < CLOSED
    ensures InGrammar(Left(e)) && Level(e) == Precedence(Operator(e)) < Reach(Left(e))
  {
    hide Dangles, AllInGrammar, IsName;
  }

  lemma {:induction false} CompleteStep(e: Expr, k: Stream)
    requires InGrammar(e) && Level(e) < CLOSED && Ends(e, k)
    ensures Precedence(Operator(e)) > 0 && Infix(Left(e), Operator(e), AfterOperator(e, k)) == Ok(e, k)
    decreases e, 0
  {
    hide Yield, Climb, ParseAt, ArgsFrom, YieldArgs, AllInGrammar, Read, ReadPrefix, ReadInfix, ReadBody, ReadItem,
      ReadArgs;
    match e
    case Binary(o, _, r) => CompleteOperand(r, LevelOf(o) + 1, k);
    case Assign(_, r) => CompleteOperand(r, ASSIGNMENT, k);
    case Compound(_, _, r) => CompleteOperand(r, ASSIGNMENT, k);
    case Call(_, args, comma) =>
      CompleteArgs(RParen, [], false, args, comma, k);
      assert [] + args == args;
    case Member(_, _) =>
  }

  /** A tree is read whole when the next token does not bind at the wanted level. */
  lemma {:induction false} CompleteOperand(e: Expr, p: nat, k: Stream)
    requires InGrammar(e) && ASSIGNMENT <= p <= UNARY && p <= Level(e) && Ends(e, k) && HeadPrecedence(k) < p
    ensures ParseAt(p, Yield(e, k)) == Ok(e, k)
    decreases e, 5
  {
    hide InGrammar, Yield, Read, ReadPrefix, ReadInfix, ReadBody, ReadItem, ReadArgs;
    Complete(e, p, k);
  }

  /** A tree standing where a token follows that is no operator. */
  lemma {:induction false} CompleteWhole(e: Expr, k: Stream)
    requires InGrammar(e) && HeadPrecedence(k) == 0 && Clean(k) && !At(KwElse, k)
    ensures Parse(Yield(e, k)) == Ok(e, k)
    ensures Ends(e, k)
    decreases e, 6
  {
    hide InGrammar, Yield, Read, ReadPrefix, ReadInfix, ReadBody, ReadItem, ReadArgs;
    CompleteOperand(e, ASSIGNMENT, k);
  }

  lemma {:induction false} CompletePrefix(e: Expr, k: Stream)
    requires InGrammar(e) && Level(e) == CLOSED && Ends(e, k)
    ensures Prefix(Yield(e, k)) == Ok(e, k)
    decreases e, 3
  {
    if e.Unary? {
      hide PrefixRule, InGrammar, Ends;
      CompleteUnary(e, k);
    } else if !e.Atom? {
      hide PrefixKeyword, InGrammar, Ends;
      CompleteKeyword(e, k);
    }
  }

  lemma {:induction false} CompleteUnary(e: Expr, k: Stream)
    requires InGrammar(e) && e.Unary? && Ends(e, k)
    ensures Clean(Yield(e.operand, k)) && PrefixRule(e.op, Yield(e.operand, k)) == Ok(e, k)
    decreases e, 0
  {
    hide Yield, ParseAt, Read, ReadPrefix;
    Starts(e.operand, k);
    CompleteOperand(e.operand, UNARY, k);
  }

  lemma {:induction false} CompleteKeyword(e: Expr, k: Stream)
    requires InGrammar(e) && Level(e) == CLOSED && !e.Atom? && !e.Unary? && Ends(e, k)
    ensures var ts := Yield(e, k); ts.More? && Clean(ts.tail) && !IsAtom(ts.head) && !IsUnary(ts.head)
                                   && PrefixKeyword(ts.head, ts.tail) == Ok(e, k)
    decreases e, 2, 1
  {
    hide Parse, ArgsFrom, BodyFrom, AfterIf, AfterWhile, AfterDo, AfterFor, Yield, InGrammar, YieldBody, Read,
      ReadPrefix, ReadInfix, ReadBody, ReadItem, ReadArgs;
    if e.If? || e.While? || e.DoWhile? || e.For? {
      CompleteControl(e, k);
    } else {
      CompleteBracketed(e, k);
    }
  }

  lemma {:induction false} CompleteBracketed(e: Expr, k: Stream)
    requires InGrammar(e) && (e.Group? || e.List? || e.Block?) && Clean(k)
    ensures var ts := Yield(e, k); ts.More? && Clean(ts.tail) && ts.head in {LParen, LBracket, LBrace}
                                   && PrefixKeyword(ts.head, ts.tail) == Ok(e, k)
    decreases e, 2, 0
  {
    hide Parse, ArgsFrom, BodyFrom, YieldArgs, YieldBody, BodyInGrammar, AllInGrammar, Read, ReadPrefix, ReadInfix,
      ReadBody, ReadItem, ReadArgs;
    match e
    case Group(inner) => CompleteGroup(inner, k);
    case List(es, comma) =>
      ArgsStart(es, comma, RBracket, k);
      CompleteArgs(RBracket, [], false, es, comma, k);
      assert [] + es == es;
    case Block(items) =>
      BodyStarts(items, k);
      CompleteBody([], items, k);
      assert [] + items == items;
  }

  lemma {:induction false} CompleteGroup(inner: Expr, k: Stream)
    requires InGrammar(inner) && Clean(k)
    ensures Clean(Yield(inner, More(RParen, k)))
    ensures PrefixKeyword(LParen, Yield(inner, More(RParen, k))) == Ok(Group(inner), k)
    decreases Group(inner), 1
  {
    hide Parse, Yield, InGrammar, Read, ReadPrefix, ReadInfix, ReadBody, ReadItem, ReadArgs;
    Starts(inner, More(RParen, k));
    CompleteWhole(inner, More(RParen, k));
  }

  lemma {:induction false} CompleteControl(e: Expr, k: Stream)
    requires InGrammar(e) && (e.If? || e.While? || e.DoWhile? || e.For?) && Ends(e, k)
    ensures var ts := Yield(e, k); ts.More? && Clean(ts.tail) && ts.head in {KwIf, KwWhile, KwDo, KwFor}
                                   && PrefixKeyword(ts.head, ts.tail) == Ok(e, k)
    decreases e, 2, 0
  {
    hide AfterIf, AfterWhile, AfterDo, AfterFor, YieldBody, BodyInGrammar, Yield, InGrammar, Parse, ArgsFrom, BodyFrom,
      Read, ReadPrefix, ReadInfix, ReadBody, ReadItem, ReadArgs;
    if e.If? {
      IfParts(e, k);
      CompleteIf(e, k);
    } else if e.For? {
      ForHead(e, k);
      CompleteFor(e, k);
    } else {
      WhileParts(e, k);
      if e.While? {
        CompleteWhile(e.cond, e.body, k);
      } else {
        CompleteDo(e.body, e.cond, k);
      }
    }
  }

  lemma ForHead(e: Expr, k: Stream)
    requires e.For?
    ensures Yield(e, k).More? && Yield(e, k).head == KwFor
  {
  }

  lemma WhileParts(e: Expr, k: Stream)
    requires InGrammar(e) && (e.While? || e.DoWhile?) && Ends(e, k)
    ensures InGrammar(e.cond) && BodyInGrammar(e.body) && Clean(k)
    ensures Yield(e, k) == if e.While? then More(KwWhile, Yield(e.cond, More(LBrace, YieldBody(e.body, k))))
                           else More(KwDo, More(LBrace, YieldBody(e.body, More(KwWhile, Yield(e.cond, k)))))
  {
    hide YieldBody, BodyInGrammar;
  }

  lemma {:induction false} CompleteWhile(c: Expr, body: seq<Item>, k: Stream)
    requires InGrammar(c) && BodyInGrammar(body) && Clean(k)
    ensures var ts := Yield(c, More(LBrace, YieldBody(body, k))); Clean(ts) && AfterWhile(ts) == Ok(While(c, body), k)
    decreases While(c, body), 0
  {
    hide Parse, BlockAt, Yield, YieldBody, InGrammar, BodyInGrammar, Read, ReadPrefix, ReadInfix, ReadBody,
      ReadItem, ReadArgs;
    Starts(c, More(LBrace, YieldBody(body, k)));
    CompleteWhole(c, More(LBrace, YieldBody(body, k)));
    CompleteBlock(body, k);
  }

  lemma {:induction false} CompleteDo(body: seq<Item>, c: Expr, k: Stream)
    requires InGrammar(c) && BodyInGrammar(body) && Ends(DoWhile(body, c), k)
    ensures var ts := More(LBrace, YieldBody(body, More(KwWhile, Yield(c, k))));
            Clean(ts) && AfterDo(ts) == Ok(DoWhile(body, c), k)
    decreases DoWhile(body, c), 0
  {
    hide ParseAt, BlockAt, Yield, YieldBody, InGrammar, BodyInGrammar, Read, ReadPrefix, ReadInfix, ReadBody,
      ReadItem, ReadArgs;
    Starts(c, k);
    CompleteBlock(body, More(KwWhile, Yield(c, k)));
    CompleteOperand(c, ASSIGNMENT, k);
  }

  lemma YieldsArgs(es: seq<Expr>, comma: bool, close: Token, k: Stream)
    ensures YieldArgs(es, comma, close, k) ==
            if es == [] then More(close, k)
            else if |es| == 1 && !comma then Yield(es[0], More(close, k))
            else Yield(es[0], More(Comma, YieldArgs(es[1..], comma, close, k)))
    ensures AllInGrammar(es) && es != [] ==> InGrammar(es[0]) && AllInGrammar(es[1..])
  {
    hide Yield, InGrammar;
  }

  lemma {:induction false} CompleteElement(close: Token, e: Expr, comma: bool, m: Stream)
    requires close in {RParen, RBracket} && InGrammar(e) && Clean(m) && (comma || At(close, m))
    ensures var ts := Yield(e, if comma then More(Comma, m) else m);
            ElementAt(close, ts) == Ok((e, comma), m) && !At(close, ts)
    decreases e, 7
  {
    hide Parse, Yield, InGrammar, Read, ReadPrefix, ReadInfix, ReadBody, ReadItem, ReadArgs;
    var k := if comma then More(Comma, m) else m;
    Starts(e, k);
    CompleteWhole(e, k);
  }

  lemma {:induction false} CompleteArgs(
      close: Token, acc: seq<Expr>, before: bool, es: seq<Expr>, comma: bool, k: Stream)
    requires close in {RParen, RBracket} && AllInGrammar(es) && Clean(k) && (es == [] ==> comma == before)
    ensures ArgsFrom(close, acc, before, YieldArgs(es, comma, close, k)) == Ok((acc + es, comma), k)
    decreases es, 0
  {
    hide ArgsFrom, ElementAt, YieldArgs, AllInGrammar, Parse, Yield, InGrammar, Read, ReadPrefix, ReadInfix,
      ReadBody, ReadItem, ReadArgs;
    ArgsUnfold(close, acc, before, YieldArgs(es, comma, close, k));
    YieldsArgs(es, comma, close, k);
    if es == [] {
      assert acc + es == acc;
    } else {
      assert acc + [es[0]] + es[1..] == acc + es;
      ArgsStart(es[1..], comma, close, k);
      if |es| == 1 && !comma {
        assert es[1..] == [];
        YieldsArgs([], comma, close, k);
        CompleteArgs(close, acc + [es[0]], false, [], comma, k);
        CompleteElement(close, es[0], false, More(close, k));
      } else {
        CompleteArgs(close, acc + [es[0]], true, es[1..], comma, k);
        CompleteElement(close, es[0], true, YieldArgs(es[1..], comma, close, k));
      }
    }
  }

  lemma {:induction false} CompleteBody(acc: seq<Item>, items: seq<Item>, k: Stream)
    requires BodyInGrammar(items) && Clean(k)
    ensures BodyFrom(acc, YieldBody(items, k)) == Ok(acc + items, k)
    decreases items, 1
  {
    hide YieldItem, ItemInGrammar, ItemAt, Read, ReadPrefix, ReadInfix, ReadBody, ReadItem, ReadArgs;
    if items == [] {
      assert acc + items == acc;
    } else {
      BodyStarts(items, k);
      BodyStarts(items[1..], k);
      CompleteItem(items[0], YieldBody(items[1..], k));
      CompleteBody(acc + [items[0]], items[1..], k);
      assert acc + [items[0]] + items[1..] == acc + items;
    }
  }

  lemma {:induction false} CompleteBlock(items: seq<Item>, k: Stream)
    requires BodyInGrammar(items) && Clean(k)
    ensures BlockAt(More(LBrace, YieldBody(items, k))) == Ok(items, k)
    decreases items, 2
  {
    BodyStarts(items, k);
    CompleteBody([], items, k);
  }

  function ElseYield(els: Option<Expr>, k: Stream): Stream {
    if els.None? then k else More(KwElse, Yield(els.value, k))
  }

  predicate GoodElse(els: Option<Expr>, k: Stream) {
    && Clean(k)
    && if els.None? then !At(KwElse, k)
       else (els.value.If? || els.value.Block?) && InGrammar(els.value) && Ends(els.value, k)
  }

  lemma IfParts(e: Expr, k: Stream)
    requires e.If? && InGrammar(e) && Ends(e, k)
    ensures InGrammar(e.cond) && BodyInGrammar(e.thenItems) && GoodElse(e.els, k)
    ensures Yield(e, k) == More(KwIf, Yield(e.cond, More(LBrace, YieldBody(e.thenItems, ElseYield(e.els, k)))))
  {
    hide YieldBody, BodyInGrammar;
    assert Yield(e, k) == More(KwIf, Yield(e.cond, More(LBrace, YieldBody(e.thenItems, ElseYield(e.els, k))))) by {
      hide InGrammar, Ends;
    }
    hide Yield;
  }

  lemma {:induction false} CompleteOptional(els: Option<Expr>, k: Stream)
    requires GoodElse(els, k)
    ensures ElseAt(ElseYield(els, k)) == Ok(els, k) && Clean(ElseYield(els, k))
    decreases els, 2
  {
    hide AfterElse, Yield, InGrammar, Ends, Read, ReadPrefix, ReadInfix, ReadBody, ReadItem, ReadArgs, ReadElse;
    if els.Some? {
      Starts(els.value, k);
      CompleteElse(els.value, k);
    }
  }

  lemma {:induction false} CompleteIf(e: Expr, k: Stream)
    requires e.If? && InGrammar(e) && Ends(e, k)
    ensures Yield(e, k).More? && AfterIf(Yield(e, k).tail) == Ok(e, k) && Clean(Yield(e, k).tail)
    decreases e, 0
  {
    hide Parse, BlockAt, YieldBody, BodyInGrammar, ElseAt, ElseYield, Yield, InGrammar, Ends, Read, ReadPrefix,
      ReadInfix, ReadBody, ReadItem, ReadArgs;
    IfParts(e, k);
    CompleteOptional(e.els, k);
    var m := ElseYield(e.els, k);
    Starts(e.cond, More(LBrace, YieldBody(e.thenItems, m)));
    CompleteWhole(e.cond, More(LBrace, YieldBody(e.thenItems, m)));
    CompleteBlock(e.thenItems, m);
  }

  lemma {:induction false} CompleteElse(els: Expr, k: Stream)
    requires (els.If? || els.Block?) && InGrammar(els) && Ends(els, k)
    ensures AfterElse(Yield(els, k)) == Ok(els, k)
    decreases els, 1
  {
    hide BlockAt, AfterIf, YieldBody, BodyInGrammar, Read, ReadPrefix, ReadInfix, ReadBody, ReadItem, ReadArgs;
    if els.If? {
      CompleteIf(els, k);
    } else {
      CompleteBlock(els.items, k);
    }
  }

  lemma {:induction false} CompleteUnless(stop: Token, e: Option<Expr>, k: Stream)
    requires e.Some? ==>
               InGrammar(e.value) && First(e.value) != stop && HeadPrecedence(k) == 0 && Clean(k) && !At(KwElse, k)
    requires e.None? ==> At(stop, k)
    ensures Unless(stop, YieldOption(e, k)) == Ok(e, k)
    ensures Clean(k) ==> Clean(YieldOption(e, k))
    decreases e, 5
  {
    hide Parse, InGrammar, Yield, Read, ReadPrefix, ReadInfix, ReadBody, ReadItem, ReadArgs;
    if e.Some? {
      Starts(e.value, k);
      CompleteWhole(e.value, k);
    }
  }

  lemma ForParts(e: Expr)
    requires e.For? && !e.short && InGrammar(e)
    ensures BodyInGrammar(e.body)
    ensures e.test.Some? ==> InGrammar(e.test.value) && First(e.test.value) != Semicolon
    ensures e.update.Some? ==> InGrammar(e.update.value) && First(e.update.value) != LBrace
  {
    if e.test.Some? {
      Starts(e.test.value, End);
    }
    hide First, Yield, BodyInGrammar, InitInGrammar;
  }

  lemma {:induction false} CompleteClauses(e: Expr, k: Stream)
    requires e.For? && !e.short && InGrammar(e) && Clean(k)
    ensures var ts := YieldOption(e.test, More(Semicolon, YieldOption(e.update, More(LBrace, YieldBody(e.body, k)))));
            ForClauses(e.init, ts) == Ok(e, k) && Clean(ts)
    decreases e, 0
  {
    ForParts(e);
    hide Unless, BlockAt, ForClauses, YieldOption, YieldBody, BodyInGrammar, InGrammar, Yield, First, GoodInit, ReadFor,
      Read, ReadPrefix, ReadInfix, ReadBody, ReadItem, ReadArgs;
    var m := More(LBrace, YieldBody(e.body, k));
    var last := YieldOption(e.update, m);
    CompleteUnless(LBrace, e.update, m);
    CompleteUnless(Semicolon, e.test, More(Semicolon, last));
    CompleteBlock(e.body, k);
    ClausesFollow(e.init, e.test, e.update, e.body, YieldOption(e.test, More(Semicolon, last)), last, m, k);
  }

  lemma ClausesFollow(init: Option<Item>, test: Option<Expr>, update: Option<Expr>, body: seq<Item>,
                      ts: Stream, l: Stream, m: Stream, k: Stream)
    requires Unless(Semicolon, ts) == Ok(test, More(Semicolon, l)) && Clean(l)
    requires Unless(LBrace, l) == Ok(update, m) && BlockAt(m) == Ok(body, k)
    ensures ForClauses(init, ts) == Ok(For(false, init, test, update, body), k)
  {
    hide Unless, BlockAt, YieldOption, YieldBody, BodyInGrammar, InGrammar, Yield, First, GoodInit, ReadFor, Read,
      ReadPrefix, ReadInfix, ReadBody, ReadItem, ReadArgs;
  }

  lemma {:induction false} CompleteFor(e: Expr, k: Stream)
    requires e.For? && InGrammar(e) && Clean(k)
    ensures Yield(e, k).More? && AfterFor(Yield(e, k).tail) == Ok(e, k) && Clean(Yield(e, k).tail)
    decreases e, 1
  {
    hide Parse, BlockAt, ForClauses, ItemAt, AfterFor, YieldInit, YieldBody, BodyInGrammar, Read, ReadPrefix,
      ReadInfix, ReadBody, ReadItem, ReadArgs;
    if e.short {
      CompleteShort(e.test, e.body, k);
      assert e == For(true, None, e.test, None, e.body);
    } else {
      CompleteClauses(e, k);
      var last := YieldOption(e.update, More(LBrace, YieldBody(e.body, k)));
      CompleteInit(e.init, YieldOption(e.test, More(Semicolon, last)));
    }
  }

  lemma {:induction false} CompleteShort(test: Option<Expr>, body: seq<Item>, k: Stream)
    requires test.Some? ==> InGrammar(test.value) && First(test.value) != LBrace
    requires BodyInGrammar(body) && Clean(k)
    ensures var ts := YieldOption(test, More(LBrace, YieldBody(body, k)));
            Clean(ts) && AfterFor(ts) == Ok(For(true, None, test, None, body), k)
    decreases For(true, None, test, None, body), 0
  {
    hide Parse, BlockAt, ForClauses, ItemAt, Yield, InGrammar, YieldBody, BodyInGrammar, Read, ReadPrefix,
      ReadInfix, ReadBody, ReadItem, ReadArgs;
    var last := More(LBrace, YieldBody(body, k));
    CompleteBlock(body, k);
    if test.Some? {
      Starts(test.value, last);
      CompleteWhole(test.value, last);
    }
  }

  lemma {:induction false} CompleteInit(init: Option<Item>, ts: Stream)
    requires (init.Some? ==> InitInGrammar(init.value)) && Clean(ts)
    ensures AfterFor(YieldInit(init, ts)) == ForClauses(init, ts) && Clean(YieldInit(init, ts))
    decreases init
  {
    hide Parse, BlockAt, ForClauses, ItemAt, Yield, InGrammar, YieldBody, BodyInGrammar, Read, ReadPrefix,
      ReadInfix, ReadBody, ReadItem, ReadArgs;
    if init.Some? {
      if init.value.ExprItem? {
        Starts(init.value.e, More(Semicolon, ts));
        CompleteWhole(init.value.e, More(Semicolon, ts));
      } else {
        CompleteItem(init.value, ts);
      }
    }
  }

  // ---------------------------------------------------------------------------------------------------
  // Items

  lemma EndStarts(end: Ending, k: Stream)
    requires Clean(k) && (end.ByEof? ==> k.End?)
    ensures EndAt(YieldEnd(end, k)) == Ok(end, k) && AtEnd(YieldEnd(end, k))
    ensures HeadPrecedence(YieldEnd(end, k)) == 0 && Clean(YieldEnd(end, k))
    ensures !At(KwElse, YieldEnd(end, k)) && !At(Becomes, YieldEnd(end, k)) && !At(Comma, YieldEnd(end, k))
  {
  }

  lemma {:induction false} CompleteItem(item: Item, k: Stream)
    requires ItemInGrammar(item) && ItemEnds(item, k)
    ensures ItemAt(YieldItem(item, k)) == Ok(item, k)
    decreases item, 1
  {
    hide Parse, PrintFrom, YieldPrint, Yield, InGrammar, DeclAt, FlowAt, YieldEnd, EndAt, AllInGrammar, First, Level,
      Read, ReadPrefix, ReadInfix, ReadBody, ReadItem, ReadArgs;
    match item
    case ExprItem(e, _) => CompleteExprItem(e, item.end, k);
    case Decl(_, _, init, _) => CompleteDecl(item, k);
    case Flow(_, result, _) => CompleteFlow(item, k);
    case Print(es, _) =>
      EndStarts(item.end, k);
      CompletePrint([], es, YieldEnd(item.end, k));
      assert [] + es == es;
  }

  lemma {:induction false} CompleteExprItem(e: Expr, end: Ending, k: Stream)
    requires InGrammar(e) && ItemEnds(ExprItem(e, end), k)
    ensures ItemAt(YieldItem(ExprItem(e, end), k)) == Ok(ExprItem(e, end), k)
    decreases ExprItem(e, end), 0
  {
    hide Parse, Yield, InGrammar, YieldEnd, EndAt, Read, ReadPrefix, ReadInfix, ReadBody, ReadItem, ReadArgs;
    EndStarts(end, k);
    Starts(e, YieldEnd(end, k));
    CompleteWhole(e, YieldEnd(end, k));
  }

  lemma {:induction false} CompleteDecl(item: Item, k: Stream)
    requires item.Decl? && ItemInGrammar(item) && ItemEnds(item, k)
    ensures YieldItem(item, k).More? && Clean(YieldItem(item, k).tail)
    ensures DeclAt(item.isConst, YieldItem(item, k).tail) == Ok(item, k)
    decreases item, 0
  {
    hide Parse, Yield, InGrammar, YieldEnd, EndAt, Read, ReadPrefix, ReadInfix, ReadBody, ReadItem, ReadArgs;
    var m := YieldEnd(item.end, k);
    EndStarts(item.end, k);
    if item.init.Some? {
      Starts(item.init.value, m);
      CompleteWhole(item.init.value, m);
    }
  }

  lemma {:induction false} CompleteFlow(item: Item, k: Stream)
    requires item.Flow? && ItemInGrammar(item) && ItemEnds(item, k)
    ensures YieldItem(item, k) == More(item.keyword, YieldItem(item, k).tail) && Clean(YieldItem(item, k).tail)
    ensures FlowAt(item.keyword, YieldItem(item, k).tail) == Ok(item, k)
    decreases item, 0
  {
    hide Parse, Yield, InGrammar, YieldEnd, EndAt, Read, ReadPrefix, ReadInfix, ReadBody, ReadItem, ReadArgs;
    var m := YieldEnd(item.end, k);
    EndStarts(item.end, k);
    if item.result.Some? {
      Starts(item.result.value, m);
      CompleteWhole(item.result.value, m);
    }
  }

  lemma YieldsPrint(es: seq<Expr>, k: Stream)
    requires es != []
    ensures YieldPrint(es, k) ==
            if |es| == 1 then Yield(es[0], k) else Yield(es[0], More(Comma, YieldPrint(es[1..], k)))
    ensures AllInGrammar(es) ==> InGrammar(es[0]) && AllInGrammar(es[1..])
  {
    hide Yield, InGrammar;
  }

  lemma PrintUnfold(acc: seq<Expr>, ts: Stream)
    ensures PrintFrom(acc, ts) ==
            var (e, k) :- Parse(ts);
            if At(Comma, k) then (if Clean(k.tail) then PrintFrom(acc + [e], k.tail) else Fail) else Ok(acc + [e], k)
  {
    hide Parse;
  }

  lemma {:induction false} CompletePrint(acc: seq<Expr>, es: seq<Expr>, k: Stream)
    requires AllInGrammar(es) && es != [] && AtEnd(k) && Clean(k)
    ensures PrintFrom(acc, YieldPrint(es, k)) == Ok(acc + es, k) && Clean(YieldPrint(es, k))
    decreases es, 0
  {
    hide PrintFrom, YieldPrint, AllInGrammar, Parse, Yield, InGrammar, Read, ReadPrefix, ReadInfix, ReadBody,
      ReadItem, ReadArgs;
    var e := es[0];
    PrintUnfold(acc, YieldPrint(es, k));
    YieldsPrint(es, k);
    if |es| == 1 {
      assert acc + [e] == acc + es;
      Starts(e, k);
      CompleteWhole(e, k);
    } else {
      CompletePrint(acc + [e], es[1..], k);
      assert acc + [e] + es[1..] == acc + es;
      Starts(e, More(Comma, YieldPrint(es[1..], k)));
      CompleteWhole(e, More(Comma, YieldPrint(es[1..], k)));
    }
  }

  // ---------------------------------------------------------------------------------------------------
  // The main results

  /** The parser accepts `e` at precedence `p`, and stops at `k`, exactly when the grammar says so. */
  lemma {:induction false} ParserDecidesGrammar(p: nat, ts: Stream, e: Expr, k: Stream)
    requires ASSIGNMENT <= p <= UNARY
    ensures ParseAt(p, ts) == Ok(e, k) <==>
              && Yield(e, k) == ts && InGrammar(e)
              && p <= Level(e) && HeadPrecedence(k) < p && Ends(e, k)
  {
    hide InGrammar, Yield, Ends, Level;
    if Yield(e, k) == ts && InGrammar(e) && p <= Level(e) && HeadPrecedence(k) < p && Ends(e, k) {
      CompleteOperand(e, p, k);
    }
  }

  /** One token list has one reading. */
  lemma {:induction false} Unambiguous(e: Expr, k: Stream, f: Expr, m: Stream)
    requires InGrammar(e) && Ends(e, k) && HeadPrecedence(k) == 0
    requires InGrammar(f) && Ends(f, m) && HeadPrecedence(m) == 0
    requires Yield(e, k) == Yield(f, m)
    ensures e == f && k == m
  {
    hide InGrammar, Yield, Ends, Level;
    CompleteOperand(e, ASSIGNMENT, k);
    CompleteOperand(f, ASSIGNMENT, m);
  }

  /** A source text is accepted exactly when it is the yield of a list of items, and then those are delivered. */
  lemma {:induction false} ProgramDecidesGrammar(ts: Stream, items: seq<Item>)
    ensures Program(ts) == Ok(items, End) <==> ProgramInGrammar(items) && YieldProgram(items) == ts
  {
    hide ProgramInGrammar, YieldProgram, ProgramFrom;
    if ProgramInGrammar(items) && YieldProgram(items) == ts {
      CompleteProgram([], items);
      assert [] + items == items;
    }
  }

  lemma {:induction false} CompleteProgram(acc: seq<Item>, items: seq<Item>)
    requires ProgramInGrammar(items)
    ensures ProgramFrom(acc, YieldProgram(items)) == Ok(acc + items, End)
    ensures Clean(YieldProgram(items))
    decreases items
  {
    hide ItemInGrammar, YieldItem, ItemAt;
    if items == [] {
      assert acc + items == acc;
    } else {
      var k := YieldProgram(items[1..]);
      CompleteProgram(acc + [items[0]], items[1..]);
      assert acc + [items[0]] + items[1..] == acc + items;
      ItemStarts(items[0], k);
      CompleteItem(items[0], k);
    }
  }
}
