/**
The lexer's rule for virtual semicolons against the parser's grammar: which tokens an item can end with, and what a
newline behind an item therefore does. The annotations, which end with names, `any` or `type`, the literals `nan` and
`inf`, and comments delivered as tokens are outside the grammar's fragment.
*/
module Terminators {
  import opened Wrappers
  import opened Grammar
  import opened GrammarParser
  import L = Lexemes
  import X = Lexer
  import OperatorGroups

  /** The lexer's kind of each of the parser's tokens; ERROR for what is in no rule. */
  function KindOf(t: Token): L.Kind {
    match t
    case Identifier(_) => L.IDENTIFIER
    case Integer(_) => L.INTEGER
    case Float(_) => L.FLOAT
    case Str(_) => L.STRING
    case True => L.TRUE
    case False => L.FALSE
    case Null => L.NULL
    case Self => L.SELF
    case LParen => L.LPAREN
    case RParen => L.RPAREN
    case LBracket => L.LBRACKET
    case RBracket => L.RBRACKET
    case LBrace => L.LBRACE
    case RBrace => L.RBRACE
    case Comma => L.COMMA
    case Semicolon => L.SEMICOLON
    case VirtualSemicolon => L.VSEMICOLON
    case Dot => L.DOT
    case Op(o) => OperatorKind(o)
    case Bang => L.BANG
    case KwNot => L.KW_NOT
    case Tilde => L.TILDE
    case Becomes => L.ASSIGN
    case OpBecomes(a) => CompoundKind(a)
    case KwIf => L.IF
    case KwElse => L.ELSE
    case KwWhile => L.WHILE
    case KwDo => L.DO
    case KwFor => L.FOR
    case KwVar => L.VAR
    case KwConst => L.CONST
    case KwReturn => L.RETURN
    case KwBreak => L.BREAK
    case KwContinue => L.CONTINUE
    case KwPrint => L.PRINT
    case _ => L.ERROR
  }

  function OperatorKind(o: Operator): L.Kind {
    match o
    case Plus => L.PLUS
    case Minus => L.MINUS
    case Star => L.STAR
    case Slash => L.SLASH
    case Percent => L.PERCENT
    case ShiftLeft => L.LSHIFT
    case ShiftRight => L.RSHIFT
    case Less => L.LESS
    case LessEqual => L.LESS_EQUAL
    case Greater => L.GREATER
    case GreaterEqual => L.GREATER_EQUAL
    case EqualEqual => L.EQUAL
    case BangEqual => L.BANG_EQUAL
    case Amp => L.AMP
    case Caret => L.CARET
    case Pipe => L.PIPE
    case AmpAmp => L.AMP_AMP
    case KwAnd => L.KW_AND
    case PipePipe => L.PIPE_PIPE
    case KwOr => L.KW_OR
  }

  function CompoundKind(a: ArithmeticOp): L.Kind {
    match a
    case Plus => L.PLUS_ASSIGN
    case Minus => L.MINUS_ASSIGN
    case Star => L.STAR_ASSIGN
    case Slash => L.SLASH_ASSIGN
    case Percent => L.PERCENT_ASSIGN
    case ShiftLeft => L.LSHIFT_ASSIGN
    case ShiftRight => L.RSHIFT_ASSIGN
    case Amp => L.AMP_ASSIGN
    case Caret => L.CARET_ASSIGN
    case Pipe => L.PIPE_ASSIGN
  }

  /** The kinds of the tokens that stand in the source text. */
  function WrittenKinds(ts: Stream): seq<L.Kind> {
    if ts.End? then []
    else if ts.head.VirtualSemicolon? then WrittenKinds(ts.tail)
    else [KindOf(ts.head)] + WrittenKinds(ts.tail)
  }

  /** The item without what ends it. */
  function Body(item: Item): Stream {
    YieldItem(item.(end := ByEof), End)
  }

  // ---------------------------------------------------------------------------------------------------
  // What reading the tokens of a tree does to the latest kind and the open brackets

  datatype State = State(last: L.Kind, open: Option<seq<L.Kind>>)

  function Reading(s: State, ts: Stream): State
    decreases ts
  {
    if ts.End? then s else Reading(Next(s, ts.head), ts.tail)
  }

  function Next(s: State, t: Token): State {
    if t.VirtualSemicolon? then s
    else State(KindOf(t), if s.open.None? then None else L.Turn(s.open.value, KindOf(t)))
  }

  /** The rightmost token of an expression. */
  function Last(e: Expr): Token {
    match e
    case Atom(t) => t
    case Group(_) => RParen
    case List(_, _) => RBracket
    case Unary(_, a) => Last(a)
    case Binary(_, _, r) => Last(r)
    case Assign(_, r) => Last(r)
    case Compound(_, _, r) => Last(r)
    case Call(_, _, _) => RParen
    case Member(_, field) => Identifier(field)
    case Block(_) => RBrace
    case If(_, _, els) => if els.None? then RBrace else Last(els.value)
    case While(_, _) => RBrace
    case DoWhile(_, c) => Last(c)
    case For(_, _, _, _, _) => RBrace
  }

  function LastOfItem(item: Item): Token {
    match item
    case ExprItem(e, _) => Last(e)
    case Decl(_, name, init, _) => if init.None? then Identifier(name) else Last(init.value)
    case Flow(keyword, result, _) => if result.None? then keyword else Last(result.value)
    case Print(es, _) => if es == [] then KwPrint else Last(es[|es| - 1])
  }

  /** Reading `ts` from `s` comes to `k`, behind a token of kind `last`, with the same brackets open as before. */
  predicate Passes(s: State, ts: Stream, last: L.Kind, k: Stream) {
    Reading(s, ts) == Reading(State(last, s.open), k)
  }

  lemma Plain(s: State, t: Token, k: Stream)
    requires s.open.Some? && !L.Bracket(KindOf(t)) && !t.VirtualSemicolon?
    ensures Passes(s, More(t, k), KindOf(t), k)
  {
  }

  /** An opening bracket, something that passes, and the closing bracket. */
  lemma Bracketed(s: State, open: Token, close: Token, ts: Stream, last: L.Kind, k: Stream)
    requires s.open.Some? && (open, close) in {(LParen, RParen), (LBracket, RBracket), (LBrace, RBrace)}
    requires Passes(Next(s, open), ts, last, More(close, k))
    ensures Passes(s, More(open, ts), KindOf(close), k) && Next(s, open).open.Some?
  {
    var st := s.open.value;
    assert (st + [KindOf(open)])[..|st|] == st;
    assert Next(State(last, Next(s, open).open), close) == State(KindOf(close), s.open);
  }

  lemma Then(s: State, ts: Stream, a: L.Kind, ms: Stream, b: L.Kind, k: Stream)
    requires Passes(s, ts, a, ms) && Passes(State(a, s.open), ms, b, k)
    ensures Passes(s, ts, b, k)
  {
  }

  lemma After(s: State, t: Token, ts: Stream, b: L.Kind, k: Stream)
    requires s.open.Some? && !L.Bracket(KindOf(t)) && !t.VirtualSemicolon?
    requires Passes(State(KindOf(t), s.open), ts, b, k)
    ensures Passes(s, More(t, ts), b, k)
  {
    Plain(s, t, ts);
    hide Passes, Reading;
    Then(s, More(t, ts), KindOf(t), ts, b, k);
  }

  /** Two parts with one token between them. */
  lemma Around(s: State, ts: Stream, a: L.Kind, t: Token, ms: Stream, b: L.Kind, k: Stream)
    requires s.open.Some? && !L.Bracket(KindOf(t)) && !t.VirtualSemicolon?
    requires Passes(s, ts, a, More(t, ms)) && Passes(State(KindOf(t), s.open), ms, b, k)
    ensures Passes(s, ts, b, k)
  {
    After(State(a, s.open), t, ms, b, k);
    hide Passes, Reading;
    Then(s, ts, a, More(t, ms), b, k);
  }

  lemma {:induction false} ExprPasses(e: Expr, k: Stream, s: State)
    requires InGrammar(e) && s.open.Some?
    ensures Passes(s, Yield(e, k), KindOf(Last(e)), k)
    decreases e, 3
  {
    hide Reading, Passes, L.Turn, OperatorKind, CompoundKind, KindOf, YieldArgs, YieldBody;
    match e
    case Atom(t) =>
      AtomKind(t);
      Plain(s, t, k);
    case Group(inner) =>
      Opens(s, LParen);
      ExprPasses(inner, More(RParen, k), Next(s, LParen));
      Bracketed(s, LParen, RParen, Yield(inner, More(RParen, k)), KindOf(Last(inner)), k);
    case List(es, comma) =>
      Opens(s, LBracket);
      var last := ArgsPass(es, comma, RBracket, k, Next(s, LBracket));
      Bracketed(s, LBracket, RBracket, YieldArgs(es, comma, RBracket, k), last, k);
    case Unary(op, a) =>
      UnaryKind(op);
      ExprPasses(a, k, State(KindOf(op), s.open));
      After(s, op, Yield(a, k), KindOf(Last(a)), k);
    case Binary(o, l, r) => InfixPasses(e, l, Op(o), r, k, s);
    case Assign(l, r) => InfixPasses(e, l, Becomes, r, k, s);
    case Compound(a, l, r) => InfixPasses(e, l, OpBecomes(a), r, k, s);
    case Call(_, _, _) =>
      CloseKinds();
      CallPasses(e, k, s);
    case Member(owner, field) =>
      MarkKinds();
      var rest := More(Identifier(field), k);
      ExprPasses(owner, More(Dot, rest), s);
      Plain(State(L.DOT, s.open), Identifier(field), k);
      Around(s, Yield(e, k), KindOf(Last(owner)), Dot, rest, KindOf(Identifier(field)), k);
    case Block(items) =>
      CloseKinds();
      BlockPasses(items, k, s);
    case If(_, _, _) => IfPasses(e, k, s);
    case While(_, _) =>
      CloseKinds();
      WhilePasses(e, k, s);
    case DoWhile(_, _) => DoPasses(e, k, s);
    case For(_, _, _, _, _) =>
      CloseKinds();
      ForPasses(e, k, s);
  }

  lemma AtomKind(t: Token)
    requires IsAtom(t)
    ensures !L.Bracket(KindOf(t))
  {
  }

  lemma UnaryKind(t: Token)
    requires IsUnary(t)
    ensures !L.Bracket(KindOf(t))
  {
  }

  lemma MarkKinds()
    ensures KindOf(Dot) == L.DOT && forall name: string :: KindOf(Identifier(name)) == L.IDENTIFIER
  {
  }

  lemma KeywordKinds()
    ensures KindOf(KwIf) == L.IF && KindOf(KwElse) == L.ELSE && KindOf(KwWhile) == L.WHILE && KindOf(KwDo) == L.DO
    ensures KindOf(KwFor) == L.FOR && KindOf(KwPrint) == L.PRINT && KindOf(Semicolon) == L.SEMICOLON
    ensures !L.Bracket(L.IF) && !L.Bracket(L.ELSE) && !L.Bracket(L.WHILE) && !L.Bracket(L.DO)
    ensures !L.Bracket(L.FOR) && !L.Bracket(L.PRINT) && !L.Bracket(L.SEMICOLON)
  {
  }

  lemma CloseKinds()
    ensures KindOf(RBrace) == L.RBRACE && KindOf(RParen) == L.RPAREN && KindOf(RBracket) == L.RBRACKET
  {
  }

  lemma Opens(s: State, t: Token)
    requires s.open.Some? && t in {LParen, LBracket, LBrace}
    ensures Next(s, t).open.Some?
  {
  }

  lemma CallPasses(e: Expr, k: Stream, s: State)
    requires e.Call? && InGrammar(e) && s.open.Some?
    ensures Passes(s, Yield(e, k), L.RPAREN, k)
    decreases e, 0
  {
    var inside := YieldArgs(e.args, e.comma, RParen, k);
    var a := KindOf(Last(e.callee));
    assert Yield(e, k) == Yield(e.callee, More(LParen, inside));
    hide Reading, Passes, Yield, YieldArgs, AllInGrammar;
    ExprPasses(e.callee, More(LParen, inside), s);
    Opens(State(a, s.open), LParen);
    var last := ArgsPass(e.args, e.comma, RParen, k, Next(State(a, s.open), LParen));
    Bracketed(State(a, s.open), LParen, RParen, inside, last, k);
    Then(s, Yield(e, k), a, More(LParen, inside), L.RPAREN, k);
  }

  lemma WhilePasses(e: Expr, k: Stream, s: State)
    requires e.While? && InGrammar(e) && s.open.Some?
    ensures Passes(s, Yield(e, k), L.RBRACE, k)
    decreases e, 0
  {
    var block := More(LBrace, YieldBody(e.body, k));
    var a := KindOf(Last(e.cond));
    assert Yield(e, k) == More(KwWhile, Yield(e.cond, block));
    KeywordKinds();
    assert InGrammar(e.cond) && BodyInGrammar(e.body);
    hide Reading, Passes, Yield, YieldBody, BodyInGrammar, InGrammar, KindOf, L.Bracket, Last;
    ExprPasses(e.cond, block, State(L.WHILE, s.open));
    BlockPasses(e.body, k, State(a, s.open));
    Then(State(L.WHILE, s.open), Yield(e.cond, block), a, block, L.RBRACE, k);
    After(s, KwWhile, Yield(e.cond, block), L.RBRACE, k);
  }

  lemma InfixPasses(e: Expr, l: Expr, t: Token, r: Expr, k: Stream, s: State)
    requires InGrammar(l) && InGrammar(r) && s.open.Some? && l < e && r < e && (t.Op? || t.Becomes? || t.OpBecomes?)
    ensures Passes(s, Yield(l, More(t, Yield(r, k))), KindOf(Last(r)), k)
    decreases e, 0
  {
    NoBracket(t);
    hide Reading, Passes, KindOf, Yield, InGrammar;
    ExprPasses(l, More(t, Yield(r, k)), s);
    ExprPasses(r, k, State(KindOf(t), s.open));
    Around(s, Yield(l, More(t, Yield(r, k))), KindOf(Last(l)), t, Yield(r, k), KindOf(Last(r)), k);
  }

  lemma NoBracket(t: Token)
    requires t.Op? || t.OpBecomes? || t.Becomes?
    ensures !L.Bracket(KindOf(t))
  {
  }

  lemma {:induction false} ArgsPass(es: seq<Expr>, comma: bool, close: Token, k: Stream, s: State)
    returns (last: L.Kind)
    requires AllInGrammar(es) && s.open.Some?
    ensures Passes(s, YieldArgs(es, comma, close, k), last, More(close, k))
    decreases es, 0
  {
    if es == [] {
      last := s.last;
    } else {
      hide Reading, Passes, Yield, InGrammar;
      last := KindOf(Last(es[0]));
      if |es| == 1 && !comma {
        ExprPasses(es[0], More(close, k), s);
      } else {
        var rest := YieldArgs(es[1..], comma, close, k);
        ExprPasses(es[0], More(Comma, rest), s);
        var after := ArgsPass(es[1..], comma, close, k, State(L.COMMA, s.open));
        Around(s, YieldArgs(es, comma, close, k), last, Comma, rest, after, More(close, k));
        last := after;
      }
    }
  }

  lemma BlockPasses(items: seq<Item>, k: Stream, s: State)
    requires BodyInGrammar(items) && s.open.Some?
    ensures Passes(s, More(LBrace, YieldBody(items, k)), L.RBRACE, k)
    decreases items, 1
  {
    hide Reading, Passes, YieldBody, BodyInGrammar;
    var last := BodyPasses(items, k, Next(s, LBrace));
    Bracketed(s, LBrace, RBrace, YieldBody(items, k), last, k);
  }

  lemma {:induction false} BodyPasses(items: seq<Item>, k: Stream, s: State) returns (last: L.Kind)
    requires BodyInGrammar(items) && s.open.Some?
    ensures Passes(s, YieldBody(items, k), last, More(RBrace, k))
    decreases items, 0
  {
    if items == [] {
      last := s.last;
    } else {
      hide Reading, Passes, YieldItem, ItemInGrammar;
      var rest := YieldBody(items[1..], k);
      var first := ItemPasses(items[0], rest, s);
      last := BodyPasses(items[1..], k, State(first, s.open));
      Then(s, YieldBody(items, k), first, rest, last, More(RBrace, k));
    }
  }

  lemma IfPasses(e: Expr, k: Stream, s: State)
    requires e.If? && InGrammar(e) && s.open.Some?
    ensures Passes(s, Yield(e, k), KindOf(Last(e)), k)
    decreases e, 1
  {
    var rest := if e.els.None? then k else More(KwElse, Yield(e.els.value, k));
    IfHeadPasses(e, rest, k, s);
    if e.els.Some? {
      var els := e.els.value;
      KeywordKinds();
      assert InGrammar(els) && Last(e) == Last(els);
      hide Reading, Passes, Yield, InGrammar, KindOf, L.Bracket, Last;
      ExprPasses(els, k, State(L.ELSE, s.open));
      Around(s, Yield(e, k), L.RBRACE, KwElse, Yield(els, k), KindOf(Last(els)), k);
    } else {
      CloseKinds();
    }
  }

  lemma IfHeadPasses(e: Expr, rest: Stream, k: Stream, s: State)
    requires e.If? && InGrammar(e) && s.open.Some?
    requires rest == if e.els.None? then k else More(KwElse, Yield(e.els.value, k))
    ensures Passes(s, Yield(e, k), L.RBRACE, rest)
    decreases e, 0
  {
    var block := More(LBrace, YieldBody(e.thenItems, rest));
    var s1 := State(L.IF, s.open);
    var a := KindOf(Last(e.cond));
    assert Yield(e, k) == More(KwIf, Yield(e.cond, block));
    KeywordKinds();
    assert InGrammar(e.cond) && BodyInGrammar(e.thenItems);
    hide Reading, Passes, Yield, YieldBody, BodyInGrammar, InGrammar, KindOf, L.Bracket, Last;
    ExprPasses(e.cond, block, s1);
    BlockPasses(e.thenItems, rest, State(a, s.open));
    Then(s1, Yield(e.cond, block), a, block, L.RBRACE, rest);
    After(s, KwIf, Yield(e.cond, block), L.RBRACE, rest);
  }

  lemma DoPasses(e: Expr, k: Stream, s: State)
    requires e.DoWhile? && InGrammar(e) && s.open.Some?
    ensures Passes(s, Yield(e, k), KindOf(Last(e)), k)
    decreases e, 0
  {
    var test := Yield(e.cond, k);
    var block := More(LBrace, YieldBody(e.body, More(KwWhile, test)));
    assert Yield(e, k) == More(KwDo, block);
    KeywordKinds();
    assert InGrammar(e.cond) && BodyInGrammar(e.body) && Last(e) == Last(e.cond);
    hide Reading, Passes, Yield, YieldBody, BodyInGrammar, InGrammar, KindOf, L.Bracket, Last;
    BlockPasses(e.body, More(KwWhile, test), State(L.DO, s.open));
    After(s, KwDo, block, L.RBRACE, More(KwWhile, test));
    ExprPasses(e.cond, k, State(L.WHILE, s.open));
    Around(s, Yield(e, k), L.RBRACE, KwWhile, test, KindOf(Last(e.cond)), k);
  }

  lemma OptionPasses(e: Option<Expr>, k: Stream, s: State) returns (last: L.Kind)
    requires (e.Some? ==> InGrammar(e.value)) && s.open.Some?
    ensures Passes(s, YieldOption(e, k), last, k)
    ensures last == if e.Some? then KindOf(Last(e.value)) else s.last
    decreases e
  {
    last := s.last;
    if e.Some? {
      ExprPasses(e.value, k, s);
      last := KindOf(Last(e.value));
    }
  }

  /** The head of a loop and its body, from the test on. */
  lemma TailPasses(e: Expr, k: Stream, s: State)
    requires e.For? && InGrammar(e) && s.open.Some?
    ensures Passes(s, YieldOption(e.update, More(LBrace, YieldBody(e.body, k))), L.RBRACE, k)
    decreases e, 1
  {
    var block := More(LBrace, YieldBody(e.body, k));
    assert (e.update.Some? ==> InGrammar(e.update.value)) && BodyInGrammar(e.body);
    hide Reading, Passes, Yield, YieldOption, YieldBody, BodyInGrammar, InGrammar, Last;
    var last := OptionPasses(e.update, block, s);
    BlockPasses(e.body, k, State(last, s.open));
    Then(s, YieldOption(e.update, block), last, block, L.RBRACE, k);
  }

  lemma ForPasses(e: Expr, k: Stream, s: State)
    requires e.For? && InGrammar(e) && s.open.Some?
    ensures Passes(s, Yield(e, k), L.RBRACE, k)
    decreases e, 2
  {
    var tail := YieldOption(e.update, More(LBrace, YieldBody(e.body, k)));
    var s1 := State(L.FOR, s.open);
    var semi := More(Semicolon, tail);
    var head := if e.short then YieldOption(e.test, tail) else YieldInit(e.init, YieldOption(e.test, semi));
    assert Yield(e, k) == More(KwFor, head);
    KeywordKinds();
    assert (e.test.Some? ==> InGrammar(e.test.value)) && (e.init.Some? ==> InitInGrammar(e.init.value));
    hide Reading, Passes, Yield, YieldOption, YieldInit, InGrammar, InitInGrammar, KindOf, L.Bracket, Last;
    if e.short {
      var last := OptionPasses(e.test, tail, s1);
      TailPasses(e, k, State(last, s.open));
      Then(s1, head, last, tail, L.RBRACE, k);
    } else {
      var first := InitPasses(e.init, YieldOption(e.test, semi), s1);
      var s2 := State(first, s.open);
      var last := OptionPasses(e.test, semi, s2);
      TailPasses(e, k, State(L.SEMICOLON, s.open));
      Around(s2, YieldOption(e.test, semi), last, Semicolon, tail, L.RBRACE, k);
      Then(s1, head, first, YieldOption(e.test, semi), L.RBRACE, k);
    }
    After(s, KwFor, head, L.RBRACE, k);
  }

  lemma InitPasses(init: Option<Item>, k: Stream, s: State) returns (last: L.Kind)
    requires (init.Some? ==> InitInGrammar(init.value)) && s.open.Some?
    ensures Passes(s, YieldInit(init, k), last, k)
    decreases init
  {
    if init.None? {
      Plain(s, Semicolon, k);
      last := L.SEMICOLON;
    } else {
      hide Reading, Passes, YieldItem, ItemInGrammar;
      last := ItemPasses(init.value, k, s);
    }
  }

  lemma EndPasses(end: Ending, k: Stream, s: State) returns (last: L.Kind)
    requires s.open.Some?
    ensures Passes(s, YieldEnd(end, k), last, k) && (end.ByEof? ==> last == s.last)
  {
    last := if end.BySemicolon? then L.SEMICOLON else s.last;
  }

  lemma {:induction false} ItemPasses(item: Item, k: Stream, s: State) returns (last: L.Kind)
    requires ItemInGrammar(item) && s.open.Some?
    ensures Passes(s, YieldItem(item, k), last, k)
    ensures item.end.ByEof? ==> last == KindOf(LastOfItem(item))
    decreases item, 1
  {
    hide Reading, Passes, Yield, InGrammar, YieldPrint, YieldEnd;
    var end := YieldEnd(item.end, k);
    var before := KindOf(LastOfItem(item));
    match item {
      case ExprItem(e, _) => ExprPasses(e, end, s);
      case Decl(_, _, _, _) => DeclPasses(item, end, s);
      case Flow(keyword, result, _) =>
        var _ := OptionPasses(result, end, State(KindOf(keyword), s.open));
        After(s, keyword, YieldOption(result, end), before, end);
      case Print(es, _) =>
        PrintPasses(es, end, State(L.PRINT, s.open));
        After(s, KwPrint, YieldPrint(es, end), before, end);
    }
    last := EndPasses(item.end, k, State(before, s.open));
    Then(s, YieldItem(item, k), before, end, last, k);
  }

  lemma DeclPasses(item: Item, end: Stream, s: State)
    requires item.Decl? && ItemInGrammar(item) && s.open.Some?
    ensures Passes(s, More(if item.isConst then KwConst else KwVar, More(Identifier(item.name),
              if item.init.None? then end else More(Becomes, Yield(item.init.value, end)))),
              KindOf(LastOfItem(item)), end)
    decreases item, 0
  {
    hide Reading, Passes, Yield, InGrammar, L.Turn;
    var keyword := if item.isConst then KwConst else KwVar;
    var s1 := State(KindOf(keyword), s.open);
    var name := Identifier(item.name);
    if item.init.None? {
      Plain(s1, name, end);
      After(s, keyword, More(name, end), L.IDENTIFIER, end);
    } else {
      var e := item.init.value;
      ExprPasses(e, end, State(L.ASSIGN, s.open));
      After(State(L.IDENTIFIER, s.open), Becomes, Yield(e, end), KindOf(Last(e)), end);
      After(s1, name, More(Becomes, Yield(e, end)), KindOf(Last(e)), end);
      After(s, keyword, More(name, More(Becomes, Yield(e, end))), KindOf(Last(e)), end);
    }
  }

  lemma {:induction false} PrintPasses(es: seq<Expr>, k: Stream, s: State)
    requires es != [] && AllInGrammar(es) && s.open.Some?
    ensures Passes(s, YieldPrint(es, k), KindOf(Last(es[|es| - 1])), k)
    decreases es, 0
  {
    hide Reading, Passes, Yield, InGrammar;
    if |es| == 1 {
      ExprPasses(es[0], k, s);
    } else {
      var rest := YieldPrint(es[1..], k);
      var last := KindOf(Last(es[|es| - 1]));
      ExprPasses(es[0], More(Comma, rest), s);
      PrintPasses(es[1..], k, State(L.COMMA, s.open));
      Around(s, YieldPrint(es, k), KindOf(Last(es[0])), Comma, rest, last, k);
    }
  }

  // ---------------------------------------------------------------------------------------------------
  // What an item can end with

  /** The last written token of the item, before what ends it, is of this kind. */
  predicate EndsWith(item: Item, kind: L.Kind) {
    var kinds := WrittenKinds(Body(item));
    kinds != [] && kinds[|kinds| - 1] == kind
  }

  lemma {:induction false} ExprEnds(e: Expr)
    requires InGrammar(e)
    ensures L.Terminator(KindOf(Last(e))) || Last(e).Self?
  {
    match e
    case Unary(_, a) => ExprEnds(a);
    case Binary(_, _, r) => ExprEnds(r);
    case Assign(_, r) => ExprEnds(r);
    case Compound(_, _, r) => ExprEnds(r);
    case If(_, _, els) =>
      if els.Some? {
        ExprEnds(els.value);
      }
    case DoWhile(_, c) => ExprEnds(c);
    case _ =>
  }

  lemma ItemEnds(item: Item)
    requires ItemInGrammar(item)
    ensures L.Terminator(KindOf(LastOfItem(item))) || LastOfItem(item).Self?
  {
    hide InGrammar, Last;
    match item
    case ExprItem(e, _) => ExprEnds(e);
    case Decl(_, _, init, _) =>
      if init.Some? {
        ExprEnds(init.value);
      }
    case Flow(_, result, _) =>
      if result.Some? {
        ExprEnds(result.value);
      }
    case Print(es, _) =>
      InAll(es, |es| - 1);
      ExprEnds(es[|es| - 1]);
  }

  lemma OnlySelf(item: Item)
    requires ItemInGrammar(item)
    ensures L.Terminator(KindOf(LastOfItem(item))) <==> KindOf(LastOfItem(item)) != L.SELF
  {
    ItemEnds(item);
  }

  lemma {:induction false} InAll(es: seq<Expr>, i: nat)
    requires AllInGrammar(es) && i < |es|
    ensures InGrammar(es[i])
  {
    hide InGrammar;
    if i > 0 {
      InAll(es[1..], i - 1);
    }
  }

  /** The latest kind and the open brackets are those of the kinds read. */
  lemma {:induction false} ReadingIs(before: seq<L.Kind>, s: State, ts: Stream)
    requires s.open == L.Nest(before)
    ensures Reading(s, ts).open == L.Nest(before + WrittenKinds(ts))
    ensures Reading(s, ts).last == LastOr(s.last, WrittenKinds(ts))
    decreases ts
  {
    hide KindOf, L.Nest, Next, LastOr;
    EndsItself(s.last);
    if ts.End? {
      assert before + [] == before;
    } else if ts.head.VirtualSemicolon? {
      assert Next(s, ts.head) == s by { SkipIs(s, ts.head); }
      ReadingIs(before, s, ts.tail);
    } else {
      var kind := KindOf(ts.head);
      var rest := WrittenKinds(ts.tail);
      assert WrittenKinds(ts) == [kind] + rest && Reading(s, ts) == Reading(Next(s, ts.head), ts.tail);
      NextIs(before, s, ts.head);
      hide WrittenKinds, Reading;
      ReadingIs(before + [kind], Next(s, ts.head), ts.tail);
      assert before + ([kind] + rest) == before + [kind] + rest;
      LastOfMore(s.last, kind, rest);
    }
  }

  function LastOr(last: L.Kind, kinds: seq<L.Kind>): L.Kind {
    if kinds == [] then last else kinds[|kinds| - 1]
  }

  lemma EndsItself(last: L.Kind)
    ensures LastOr(last, []) == last
  {
  }

  lemma LastOfMore(last: L.Kind, kind: L.Kind, rest: seq<L.Kind>)
    ensures LastOr(last, [kind] + rest) == LastOr(kind, rest)
  {
  }

  lemma SkipIs(s: State, t: Token)
    requires t.VirtualSemicolon?
    ensures Next(s, t) == s
  {
  }

  lemma NextIs(before: seq<L.Kind>, s: State, t: Token)
    requires s.open == L.Nest(before) && !t.VirtualSemicolon?
    ensures Next(s, t).open == L.Nest(before + [KindOf(t)]) && Next(s, t).last == KindOf(t)
  {
    hide KindOf, L.Turn;
    assert (before + [KindOf(t)])[..|before|] == before;
  }

  /** An item leaves the brackets as they were, and its last token can end a statement, or is `self`. */
  lemma ItemIsRead(item: Item, before: seq<L.Kind>)
    requires ItemInGrammar(item) && L.Nest(before).Some?
    ensures L.Nest(before + WrittenKinds(Body(item))) == L.Nest(before)
    ensures EndsWith(item, KindOf(LastOfItem(item)))
  {
    var s := State(L.MAX, L.Nest(before));
    var bare := item.(end := ByEof);
    assert ItemInGrammar(bare) && LastOfItem(bare) == LastOfItem(item);
    ItemEnds(item);
    hide ItemInGrammar, LastOfItem, YieldItem, L.Nest, L.Turn, WrittenKinds, KindOf;
    var last := ItemPasses(bare, End, s);
    ReadingIs(before, s, Body(item));
  }

  /** Kinds that no item of the fragment contains. */
  const OUTSIDE := {L.NAN, L.INF, L.ANY, L.TYPE, L.LINE_COMMENT, L.BLOCK_COMMENT}

  /** Exactly the kinds that can end an item of the grammar are on the lexer's list, but for `self`. */
  lemma ItemEndings(kind: L.Kind)
    requires kind !in OUTSIDE
    ensures (exists item :: ItemInGrammar(item) && EndsWith(item, kind)) <==> L.Terminator(kind) || kind == L.SELF
  {
    hide ItemInGrammar, EndsWith;
    forall item | ItemInGrammar(item) && EndsWith(item, kind) ensures L.Terminator(kind) || kind == L.SELF {
      ItemEnds(item);
      ItemIsRead(item, []);
      OneEnding(item, kind, KindOf(LastOfItem(item)));
    }
    if L.Terminator(kind) || kind == L.SELF {
      var item := Example(kind);
      ItemIsRead(item, []);
    }
  }

  lemma OneEnding(item: Item, a: L.Kind, b: L.Kind)
    requires EndsWith(item, a) && EndsWith(item, b)
    ensures a == b
  {
  }

  /** An item that ends with a token of this kind. */
  lemma Example(kind: L.Kind) returns (item: Item)
    requires (L.Terminator(kind) && kind !in OUTSIDE) || kind == L.SELF
    ensures ItemInGrammar(item) && KindOf(LastOfItem(item)) == kind
  {
    match kind
    case IDENTIFIER => item := ExprItem(Atom(Identifier("x")), BySemicolon);
    case INTEGER => item := ExprItem(Atom(Integer(1)), BySemicolon);
    case FLOAT => item := ExprItem(Atom(Float(0.5)), BySemicolon);
    case STRING => item := ExprItem(Atom(Str("")), BySemicolon);
    case TRUE => item := ExprItem(Atom(True), BySemicolon);
    case FALSE => item := ExprItem(Atom(False), BySemicolon);
    case NULL => item := ExprItem(Atom(Null), BySemicolon);
    case SELF => item := ExprItem(Atom(Self), BySemicolon);
    case RETURN => item := Flow(KwReturn, None, BySemicolon);
    case BREAK => item := Flow(KwBreak, None, BySemicolon);
    case CONTINUE => item := Flow(KwContinue, None, BySemicolon);
    case RPAREN => item := ExprItem(Group(Atom(Null)), BySemicolon);
    case RBRACKET => item := ExprItem(List([], false), BySemicolon);
    case RBRACE => item := ExprItem(Block([]), BySemicolon);
  }

  /**
  What the lexer does behind an item of the grammar, at top level or in a block: with a newline or the block's `}` next
  it delivers a virtual semicolon, except behind `self`; otherwise it delivers none.
  */
  lemma NewlineEndsItem(src: string, log: seq<X.Entry>, j: nat, k: nat, item: Item)
    requires X.Rules(src, log) && j <= k < |log| && ItemInGrammar(item)
    requires X.Kinds(log[..k]) == X.Kinds(log[..j]) + WrittenKinds(Body(item))
    requires L.Nest(X.Kinds(log[..j])).Some? && L.Flat(L.Nest(X.Kinds(log[..j])).value)
    ensures 0 < k
    ensures log[k].virtual <==>
              (X.NewlineIn(src, log[k - 1].to, log[k].from) || log[k].kind == L.RBRACE) && log[k - 1].kind != L.SELF
  {
    hide Body, WrittenKinds, ItemInGrammar, X.Rules, X.NewlineIn, L.Nest, L.Flat, L.Terminator, KindOf, LastOfItem;
    var last := KindOf(LastOfItem(item));
    ItemIsRead(item, X.Kinds(log[..j]));
    OnlySelf(item);
    assert 0 < k && X.Kinds(log[..k])[k - 1] == last;
    assert log[k - 1].kind == last;
    X.VirtualSemicolons(src, log, k);
  }

  /** `x = self`, a newline and `y`: no semicolon comes between, and the parser refuses the text, whatever follows. */
  lemma SelfRunsOn(src: string, log: seq<X.Entry>, x: string, y: string, ts: Stream)
    requires X.Rules(src, log) && |log| > 3 && X.Kinds(log[..3]) == [L.IDENTIFIER, L.ASSIGN, L.SELF]
    ensures !log[3].virtual
    ensures Program(More(Identifier(x), More(Becomes, More(Self, More(Identifier(y), ts))))).Fail?
  {
    SelfAtLineEnd(src, log, x);
    NoSeparator(x, y, ts);
  }

  lemma SelfAtLineEnd(src: string, log: seq<X.Entry>, x: string)
    requires X.Rules(src, log) && |log| > 3 && X.Kinds(log[..3]) == [L.IDENTIFIER, L.ASSIGN, L.SELF]
    ensures !log[3].virtual
  {
    var item := ExprItem(Assign(Atom(Identifier(x)), Atom(Self)), ByEof);
    SelfItem(x, item);
    NothingOpen();
    assert X.Kinds(log[..0]) == [];
    assert log[2].kind == X.Kinds(log[..3])[2];
    hide X.Rules, WrittenKinds, Body, ItemInGrammar, L.Flat, X.NewlineIn, L.Nest;
    NewlineEndsItem(src, log, 0, 3, item);
  }

  lemma NothingOpen()
    ensures L.Nest([]).Some? && L.Flat(L.Nest([]).value)
  {
  }

  lemma SelfItem(x: string, item: Item)
    requires item == ExprItem(Assign(Atom(Identifier(x)), Atom(Self)), ByEof)
    ensures ItemInGrammar(item) && WrittenKinds(Body(item)) == [L.IDENTIFIER, L.ASSIGN, L.SELF]
  {
    var a, b := Atom(Identifier(x)), Atom(Self);
    OperatorGroups.WriteAtom(Identifier(x), More(Becomes, More(Self, End)));
    OperatorGroups.WriteAtom(Self, End);
    OperatorGroups.WriteAssign(a, b, More(Identifier(x), More(Becomes, More(Self, End))), More(Self, End), End);
    assert Body(item) == More(Identifier(x), More(Becomes, More(Self, End)));
    assert WrittenKinds(More(Self, End)) == [L.SELF];
  }

  lemma NoSeparator(x: string, y: string, ts: Stream)
    ensures Program(More(Identifier(x), More(Becomes, More(Self, More(Identifier(y), ts))))).Fail?
  {
    var rest := More(Identifier(y), ts);
    var all := More(Identifier(x), More(Becomes, More(Self, rest)));
    var e := Assign(Atom(Identifier(x)), Atom(Self));
    OperatorGroups.WriteAtom(Identifier(x), More(Becomes, More(Self, rest)));
    OperatorGroups.WriteAtom(Self, rest);
    OperatorGroups.WriteAssign(Atom(Identifier(x)), Atom(Self), all, More(Self, rest), rest);
    hide OperatorGroups.Writes, Parse;
    OperatorGroups.Reads(e, all, rest);
    Unended(all, e, rest);
  }

  lemma Unended(ts: Stream, e: Expr, rest: Stream)
    requires ts.More? && ts.head.Identifier? && Parse(ts) == Ok(e, rest) && rest.More? && rest.head.Identifier?
    ensures Program(ts).Fail?
  {
    hide Parse, Read, ReadItem, YieldProgram, ProgramInGrammar, Yield;
    assert EndAt(rest).Fail?;
    assert ItemAt(ts).Fail?;
  }
}
