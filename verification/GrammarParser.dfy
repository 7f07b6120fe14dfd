/**
A parser without state for the grammar: it stops at the first error instead of going on in panic mode. Every contract
says that an accepted tree is in the grammar and yields exactly the tokens that were taken.
*/
module GrammarParser {
  import opened Wrappers
  import opened Grammar

  datatype Out<+T> = Fail | Ok(value: T, rest: Stream) {
    predicate IsFailure() { Fail? }
    function PropagateFailure<U>(): Out<U> requires Fail? { Fail }
    function Extract(): (T, Stream) requires Ok? { (value, rest) }
  }

  /** `e` was read from `ts` at precedence `p`, and `k` is left. */
  predicate Read(e: Expr, p: nat, ts: Stream, k: Stream) {
    && Yield(e, k) == ts && InGrammar(e)
    && p <= Level(e) && HeadPrecedence(k) < p && Ends(e, k)
    && Length(k) < Length(ts)
  }

  predicate ReadPrefix(e: Expr, ts: Stream, k: Stream) {
    Yield(e, k) == ts && InGrammar(e) && Level(e) == CLOSED && Ends(e, k) && Length(k) < Length(ts)
  }

  predicate ReadInfix(e: Expr, t: Token, ts: Stream, k: Stream) {
    Yield(e, k) == ts && InGrammar(e) && Level(e) == Precedence(t) && Ends(e, k)
  }

  predicate ReadBody(items: seq<Item>, ts: Stream, k: Stream) {
    YieldBody(items, k) == ts && BodyInGrammar(items) && Clean(k) && Length(k) < Length(ts)
  }

  predicate ReadArgs(es: seq<Expr>, comma: bool, close: Token, ts: Stream, k: Stream) {
    && YieldArgs(es, comma, close, k) == ts && AllInGrammar(es) && (comma ==> es != [])
    && Clean(k) && Length(k) < Length(ts)
  }

  predicate ReadItem(item: Item, ts: Stream, k: Stream) {
    YieldItem(item, k) == ts && ItemInGrammar(item) && ItemEnds(item, k) && Length(k) < Length(ts)
  }

  lemma {:induction false} YieldStarts(e: Expr, k: Stream)
    ensures Yield(e, k).More? && Yield(e, k).head == First(e)
    decreases e
  {
    match e
    case Binary(o, l, r) => YieldStarts(l, More(Op(o), Yield(r, k)));
    case Assign(l, r) => YieldStarts(l, More(Becomes, Yield(r, k)));
    case Compound(a, l, r) => YieldStarts(l, More(OpBecomes(a), Yield(r, k)));
    case Call(f, args, comma) => YieldStarts(f, More(LParen, YieldArgs(args, comma, RParen, k)));
    case Member(owner, field) => YieldStarts(owner, More(Dot, More(Identifier(field), k)));
    case _ =>
  }

  // ---------------------------------------------------------------------------------------------------
  // Tokens

  function Expect(t: Token, ts: Stream): (r: Out<Token>)
    ensures r.Ok? ==> ts == More(t, r.rest) && Clean(r.rest) && Length(r.rest) < Length(ts)
  {
    if ts.More? && ts.head == t && Clean(ts.tail) then Ok(t, ts.tail) else Fail
  }

  function ExpectName(ts: Stream): (r: Out<string>)
    ensures r.Ok? ==> ts == More(Identifier(r.value), r.rest) && Clean(r.rest) && Length(r.rest) < Length(ts)
  {
    if ts.More? && ts.head.Identifier? && Clean(ts.tail) then Ok(ts.head.name, ts.tail) else Fail
  }

  predicate At(t: Token, ts: Stream) {
    ts.More? && ts.head == t
  }

  predicate AtEnd(ts: Stream) {
    ts.End? || ts.head.Semicolon? || ts.head.VirtualSemicolon?
  }

  function EndAt(ts: Stream): (r: Out<Ending>)
    ensures r.Ok? ==> YieldEnd(r.value, r.rest) == ts && Clean(r.rest) && (r.value.ByEof? ==> r.rest.End?)
    ensures r.Ok? ==> AtEnd(ts) && Length(r.rest) <= Length(ts)
  {
    if ts.End? then Ok(ByEof, End)
    else if !Clean(ts.tail) then Fail
    else if ts.head.Semicolon? then Ok(BySemicolon, ts.tail)
    else if ts.head.VirtualSemicolon? then Ok(ByVirtual, ts.tail)
    else Fail
  }

  // ---------------------------------------------------------------------------------------------------
  // Each construct, once its parts have been read

  lemma AtomTree(t: Token, k: Stream)
    requires IsAtom(t)
    ensures Clean(k) ==> ReadPrefix(Atom(t), More(t, k), k)
  {
  }

  lemma UnaryTree(t: Token, a: Expr, ts: Stream, k: Stream)
    requires IsUnary(t) && Read(a, UNARY, ts, k)
    ensures ReadPrefix(Unary(t, a), More(t, ts), k)
  {
    var e := Unary(t, a);
    assert Yield(e, k) == More(t, ts) by { hide InGrammar, Ends; }
    assert Ends(e, k) by { hide Yield, InGrammar; }
    hide Yield, Ends;
  }

  lemma GroupTree(inner: Expr, ts: Stream, k: Stream)
    requires Read(inner, ASSIGNMENT, ts, More(RParen, k)) && Clean(k)
    ensures ReadPrefix(Group(inner), More(LParen, ts), k)
  {
    assert Yield(Group(inner), k) == More(LParen, ts) by { hide InGrammar, Ends; }
    hide Yield;
  }

  lemma ListTree(es: seq<Expr>, comma: bool, ts: Stream, k: Stream)
    requires ReadArgs(es, comma, RBracket, ts, k)
    ensures ReadPrefix(List(es, comma), More(LBracket, ts), k)
  {
    hide YieldArgs, AllInGrammar;
  }

  lemma BlockTree(items: seq<Item>, ts: Stream, k: Stream)
    requires ReadBody(items, ts, k)
    ensures ReadPrefix(Block(items), More(LBrace, ts), k)
  {
    hide YieldBody, BodyInGrammar;
  }

  lemma WhileTree(c: Expr, body: seq<Item>, ts: Stream, m: Stream, k: Stream)
    requires Read(c, ASSIGNMENT, ts, More(LBrace, m)) && ReadBody(body, m, k)
    ensures ReadPrefix(While(c, body), More(KwWhile, ts), k)
  {
    hide YieldBody, BodyInGrammar;
    assert Yield(While(c, body), k) == More(KwWhile, ts) by { hide InGrammar, Ends; }
    hide Yield;
  }

  lemma DoTree(body: seq<Item>, c: Expr, ts: Stream, m: Stream, k: Stream)
    requires ReadBody(body, ts, More(KwWhile, m)) && Read(c, ASSIGNMENT, m, k)
    ensures ReadPrefix(DoWhile(body, c), More(KwDo, More(LBrace, ts)), k)
  {
    hide YieldBody, BodyInGrammar;
    var e := DoWhile(body, c);
    assert Yield(e, k) == More(KwDo, More(LBrace, ts)) by { hide InGrammar, Ends; }
    assert Ends(e, k) by { hide Yield, InGrammar; }
    assert Length(k) < Length(m) < Length(More(KwWhile, m)) < Length(ts) < Length(More(LBrace, ts));
    hide Yield, Ends;
  }

  /** A `for` loop with a test only. */
  lemma ShortLoop(test: Option<Expr>, body: seq<Item>, ts: Stream, k: Stream)
    requires test.Some? ==> InGrammar(test.value) && First(test.value) != LBrace
    requires YieldOption(test, More(LBrace, YieldBody(body, k))) == ts && Length(k) < Length(ts)
    requires BodyInGrammar(body) && Clean(k)
    ensures ReadPrefix(For(true, None, test, None, body), More(KwFor, ts), k)
  {
    hide BodyInGrammar, YieldBody;
    var e := For(true, None, test, None, body);
    assert Yield(e, k) == More(KwFor, ts) by { hide InGrammar; }
    assert InGrammar(e) by { hide Yield, YieldOption, First; }
    hide Yield, InGrammar, YieldOption, First;
  }

  predicate ReadFor(e: Expr, ts: Stream, k: Stream) {
    e.For? && Yield(e, k) == ts && InGrammar(e) && Level(e) == CLOSED && Ends(e, k)
  }

  predicate GoodInit(init: Option<Item>, ts: Stream) {
    init.Some? ==> ItemInGrammar(init.value) && ItemEnds(init.value, ts)
                   && (init.value.ExprItem? || init.value.Decl?)
                   && (!init.value.end.ByEof? ==> InitInGrammar(init.value))
  }

  lemma DeclInit(init: Item, ts: Stream, k: Stream)
    requires ReadItem(init, ts, k) && init.Decl? && !init.isConst
    ensures GoodInit(Some(init), k) && YieldInit(Some(init), k) == ts
  {
    hide ItemInGrammar, YieldItem;
  }

  lemma ClausesTree(
      init: Option<Item>, test: Option<Expr>, update: Option<Expr>, body: seq<Item>, ts: Stream, m: Stream, k: Stream)
    requires test.Some? ==> InGrammar(test.value)
    requires update.Some? ==> InGrammar(update.value) && First(update.value) != LBrace
    requires YieldOption(test, More(Semicolon, YieldOption(update, More(LBrace, m)))) == ts
    requires ReadBody(body, m, k)
    ensures GoodInit(init, ts) ==> ReadFor(For(false, init, test, update, body), More(KwFor, YieldInit(init, ts)), k)
  {
    hide BodyInGrammar, YieldBody, InitInGrammar, ItemInGrammar;
    var e := For(false, init, test, update, body);
    assert Yield(e, k) == More(KwFor, YieldInit(init, ts)) by { hide InGrammar, YieldInit; }
    HeadOf(test, More(Semicolon, YieldOption(update, More(LBrace, m))));
    assert ts.More?;
    assert GoodInit(init, ts) ==> InGrammar(e) by { hide Yield, YieldOption, First; }
    hide Yield, InGrammar, YieldOption, YieldInit, First;
  }

  lemma BinaryTree(o: Operator, l: Expr, r: Expr, ts: Stream, k: Stream)
    requires Read(r, LevelOf(o) + 1, ts, k)
    ensures InGrammar(l) && LevelOf(o) < Reach(l) ==> ReadInfix(Binary(o, l, r), Op(o), Yield(l, More(Op(o), ts)), k)
  {
    if InGrammar(l) && LevelOf(o) < Reach(l) {
      var e := Binary(o, l, r);
      assert Yield(e, k) == Yield(l, More(Op(o), ts)) by { hide InGrammar, Ends, Reach; }
      assert Ends(e, k) by { hide Yield, InGrammar; }
      assert InGrammar(e) by { hide Yield, Ends; }
      hide Yield, Ends, InGrammar;
    }
  }

  lemma AssignTree(l: Expr, r: Expr, ts: Stream, k: Stream)
    requires Read(r, ASSIGNMENT, ts, k)
    ensures InGrammar(l) && ASSIGNMENT < Reach(l) ==> ReadInfix(Assign(l, r), Becomes, Yield(l, More(Becomes, ts)), k)
  {
    if InGrammar(l) && ASSIGNMENT < Reach(l) {
      var e := Assign(l, r);
      assert Yield(e, k) == Yield(l, More(Becomes, ts)) by { hide InGrammar, Ends, Reach; }
      assert Ends(e, k) by { hide Yield, InGrammar; }
      assert InGrammar(e) by { hide Yield, Ends; }
      hide Yield, Ends, InGrammar;
    }
  }

  lemma CompoundTree(a: ArithmeticOp, l: Expr, r: Expr, ts: Stream, k: Stream)
    requires Read(r, ASSIGNMENT, ts, k) && IsName(l)
    ensures InGrammar(l) && ASSIGNMENT < Reach(l) ==>
              ReadInfix(Compound(a, l, r), OpBecomes(a), Yield(l, More(OpBecomes(a), ts)), k)
  {
    if InGrammar(l) && ASSIGNMENT < Reach(l) {
      var e := Compound(a, l, r);
      assert Yield(e, k) == Yield(l, More(OpBecomes(a), ts)) by { hide InGrammar, Ends, Reach, IsName; }
      assert Ends(e, k) by { hide Yield, InGrammar, IsName; }
      assert InGrammar(e) by { hide Yield, Ends, IsName; }
      hide Yield, Ends, InGrammar, IsName;
    }
  }

  lemma CallTree(f: Expr, args: seq<Expr>, comma: bool, ts: Stream, k: Stream)
    requires ReadArgs(args, comma, RParen, ts, k)
    ensures InGrammar(f) && PRIMARY < Reach(f) ==>
              ReadInfix(Call(f, args, comma), LParen, Yield(f, More(LParen, ts)), k)
  {
    hide YieldArgs, AllInGrammar;
    assert Yield(Call(f, args, comma), k) == Yield(f, More(LParen, ts)) by { hide InGrammar, Reach; }
    hide Yield;
  }

  lemma MemberTree(owner: Expr, field: string, k: Stream)
    requires Clean(k)
    ensures InGrammar(owner) && PRIMARY < Reach(owner) ==>
              ReadInfix(Member(owner, field), Dot, Yield(owner, More(Dot, More(Identifier(field), k))), k)
  {
    assert Yield(Member(owner, field), k) == Yield(owner, More(Dot, More(Identifier(field), k))) by {
      hide InGrammar, Reach;
    }
    hide Yield;
  }

  lemma AllArgs(es: seq<Expr>, comma: bool, close: Token, ts: Stream, k: Stream)
    requires es[0..] == [] ==> !comma && ts == More(close, k) && Clean(k)
    requires es[0..] != [] ==> ReadArgs(es[0..], comma, close, ts, k)
    ensures ReadArgs(es, comma, close, ts, k)
  {
    assert es[0..] == es;
  }

  // ---------------------------------------------------------------------------------------------------
  // Expressions

  function ParseAt(p: nat, ts: Stream): (r: Out<Expr>)
    requires ASSIGNMENT <= p <= UNARY
    ensures r.Ok? ==> Read(r.value, p, ts, r.rest)
    decreases Length(ts), 3
  {
    hide InGrammar, Yield, Ends;
    var (left, k) :- Prefix(ts);
    Climb(p, left, k)
  }

  function Parse(ts: Stream): (r: Out<Expr>)
    ensures r.Ok? ==> Read(r.value, ASSIGNMENT, ts, r.rest)
    decreases Length(ts), 4
  {
    ParseAt(ASSIGNMENT, ts)
  }

  function Climb(p: nat, left: Expr, ts: Stream): (r: Out<Expr>)
    requires ASSIGNMENT <= p
    ensures r.Ok? ==> Length(r.rest) <= Length(ts)
    ensures r.Ok? && InGrammar(left) && p <= Level(left) && Ends(left, ts) && Length(ts) < Length(Yield(left, ts)) ==>
              Read(r.value, p, Yield(left, ts), r.rest)
    decreases Length(ts), 1
  {
    hide InGrammar, Yield;
    if p <= HeadPrecedence(ts) then
      if !Clean(ts.tail) then Fail
      else
        var (e, k) :- Infix(left, ts.head, ts.tail);
        Climb(p, e, k)
    else Ok(left, ts)
  }

  function Prefix(ts: Stream): (r: Out<Expr>)
    ensures r.Ok? ==> ReadPrefix(r.value, ts, r.rest)
    decreases Length(ts), 2
  {
    if ts.End? || !Clean(ts.tail) then Fail else PrefixRule(ts.head, ts.tail)
  }

  /** The prefix rule of `t`, which has just been taken. */
  function PrefixRule(t: Token, ts: Stream): (r: Out<Expr>)
    ensures r.Ok? && Clean(ts) ==> ReadPrefix(r.value, More(t, ts), r.rest)
    ensures r.Ok? ==> Length(r.rest) <= Length(ts)
    decreases Length(ts), 11
  {
    hide AllInGrammar, BodyInGrammar, Ends, InGrammar, Level, Reach, Yield, YieldArgs, YieldBody;
    if IsAtom(t) then
      AtomTree(t, ts);
      Ok(Atom(t), ts)
    else if IsUnary(t) then
      var (a, k) :- ParseAt(UNARY, ts);
      UnaryTree(t, a, ts, k);
      Ok(Unary(t, a), k)
    else PrefixKeyword(t, ts)
  }

  predicate HasPrefix(t: Token) {
    IsAtom(t) || IsUnary(t) || t in {LParen, LBracket, LBrace, KwIf, KwWhile, KwDo, KwFor}
  }

  function PrefixKeyword(t: Token, ts: Stream): (r: Out<Expr>)
    ensures r.Ok? ==> ReadPrefix(r.value, More(t, ts), r.rest)
    decreases Length(ts), 10
  {
    hide AllInGrammar, BodyInGrammar, Ends, InGrammar, Level, Reach, Yield, YieldArgs, YieldBody;
    match t
    case LParen =>
      var (inner, k) :- Parse(ts);
      var (_, m) :- Expect(RParen, k);
      GroupTree(inner, ts, m);
      Ok(Group(inner), m)
    case LBracket =>
      var (args, k) :- ArgsFrom(RBracket, [], false, ts);
      AllArgs(args.0, args.1, RBracket, ts, k);
      ListTree(args.0, args.1, ts, k);
      Ok(List(args.0, args.1), k)
    case LBrace =>
      var (items, k) :- BodyFrom([], ts);
      assert items[0..] == items;
      BlockTree(items, ts, k);
      Ok(Block(items), k)
    case KwIf => AfterIf(ts)
    case KwWhile => AfterWhile(ts)
    case KwDo => AfterDo(ts)
    case KwFor => AfterFor(ts)
    case _ => Fail
  }

  function Infix(left: Expr, t: Token, ts: Stream): (r: Out<Expr>)
    requires Precedence(t) > 0
    ensures r.Ok? ==> Length(r.rest) <= Length(ts)
    ensures r.Ok? && InGrammar(left) && Precedence(t) < Reach(left) ==>
              ReadInfix(r.value, t, Yield(left, More(t, ts)), r.rest)
    decreases Length(ts), 10
  {
    hide AllInGrammar, BodyInGrammar, Ends, InGrammar, Level, Reach, Yield, YieldArgs, YieldBody;
    match t
    case Op(o) =>
      var (right, k) :- ParseAt(LevelOf(o) + 1, ts);
      BinaryTree(o, left, right, ts, k);
      Ok(Binary(o, left, right), k)
    case Becomes =>
      var (value, k) :- Parse(ts);
      AssignTree(left, value, ts, k);
      Ok(Assign(left, value), k)
    case OpBecomes(a) =>
      if !IsName(left) then Fail
      else
        var (value, k) :- Parse(ts);
        CompoundTree(a, left, value, ts, k);
        Ok(Compound(a, left, value), k)
    case LParen =>
      var (args, k) :- ArgsFrom(RParen, [], false, ts);
      AllArgs(args.0, args.1, RParen, ts, k);
      CallTree(left, args.0, args.1, ts, k);
      Ok(Call(left, args.0, args.1), k)
    case Dot =>
      var (field, k) :- ExpectName(ts);
      MemberTree(left, field, k);
      Ok(Member(left, field), k)
  }

  /** Elements up to the closing token; `comma` tells that the latest token taken was a comma. */
  function ArgsFrom(close: Token, acc: seq<Expr>, comma: bool, ts: Stream): (r: Out<(seq<Expr>, bool)>)
    ensures r.Ok? ==> Length(r.rest) < Length(ts)
    ensures r.Ok? ==> acc <= r.value.0
    ensures r.Ok? ==> var es := r.value.0[|acc|..];
                      if es == [] then r.value.1 == comma && ts == More(close, r.rest) && Clean(r.rest)
                      else ReadArgs(es, r.value.1, close, ts, r.rest)
    decreases Length(ts), 6
  {
    hide InGrammar, Yield, Ends;
    if At(close, ts) then
      var (_, k) :- Expect(close, ts);
      Ok((acc, comma), k)
    else
      var (e, m) :- ElementAt(close, ts);
      var (all, k) :- ArgsFrom(close, acc + [e.0], e.1, m);
      OneMoreArg(close, acc, e.0, e.1, all.0, all.1, ts, m, k);
      Ok(all, k)
  }

  lemma ArgsUnfold(close: Token, acc: seq<Expr>, comma: bool, ts: Stream)
    ensures ArgsFrom(close, acc, comma, ts) ==
            if At(close, ts) then (if Clean(ts.tail) then Ok((acc, comma), ts.tail) else Fail)
            else
              var (e, k) :- ElementAt(close, ts);
              ArgsFrom(close, acc + [e.0], e.1, k)
  {
    hide ElementAt;
  }

  /** One element and the comma after it, which may be missing only before the closing token. */
  function ElementAt(close: Token, ts: Stream): (r: Out<(Expr, bool)>)
    ensures r.Ok? ==> Length(r.rest) < Length(ts)
    ensures r.Ok? ==> Read(r.value.0, ASSIGNMENT, ts, if r.value.1 then More(Comma, r.rest) else r.rest)
    ensures r.Ok? && !r.value.1 ==> At(close, r.rest)
    decreases Length(ts), 5
  {
    hide InGrammar, Yield, Ends;
    var (e, k) :- Parse(ts);
    if At(close, k) then Ok((e, false), k)
    else
      var (_, m) :- Expect(Comma, k);
      Ok((e, true), m)
  }

  lemma OneMoreArg(
      close: Token, acc: seq<Expr>, e: Expr, after: bool, all: seq<Expr>, comma: bool, ts: Stream, m: Stream,
      rest: Stream)
    requires Read(e, ASSIGNMENT, ts, if after then More(Comma, m) else m) && acc + [e] <= all
    requires var es := all[|acc + [e]|..];
             if es == [] then comma == after && m == More(close, rest) && Clean(rest)
             else ReadArgs(es, comma, close, m, rest)
    requires !after ==> all == acc + [e]
    requires Length(rest) < Length(m)
    ensures all[|acc|..] != [] && ReadArgs(all[|acc|..], comma, close, ts, rest)
  {
    hide InGrammar, Yield, Ends;
    var es := all[|acc|..];
    assert es[0] == e && es[1..] == all[|acc + [e]|..];
    assert AllInGrammar(es);
    assert YieldArgs(es, comma, close, rest) == ts;
    assert Clean(rest);
    assert Length(m) <= Length(ts);
  }

  /** Items up to the closing brace. */
  function BodyFrom(acc: seq<Item>, ts: Stream): (r: Out<seq<Item>>)
    ensures r.Ok? ==> acc <= r.value && ReadBody(r.value[|acc|..], ts, r.rest)
    decreases Length(ts), 8
  {
    hide ItemInGrammar, YieldItem;
    if At(RBrace, ts) then
      var (_, k) :- Expect(RBrace, ts);
      Ok(acc, k)
    else
      var (item, k) :- ItemAt(ts);
      var (all, m) :- BodyFrom(acc + [item], k);
      var items := all[|acc|..];
      assert items[0] == item && items[1..] == all[|acc| + 1..];
      Ok(all, m)
  }

  /** A block with its opening brace. */
  function BlockAt(ts: Stream): (r: Out<seq<Item>>)
    ensures r.Ok? ==> ts.More? && ts.head == LBrace && ReadBody(r.value, ts.tail, r.rest)
    decreases Length(ts), 6
  {
    var (_, k) :- Expect(LBrace, ts);
    var (items, m) :- BodyFrom([], k);
    assert items[0..] == items;
    Ok(items, m)
  }

  function AfterIf(ts: Stream): (r: Out<Expr>)
    ensures r.Ok? ==> r.value.If? && ReadPrefix(r.value, More(KwIf, ts), r.rest)
    decreases Length(ts), 5
  {
    hide AllInGrammar, BodyInGrammar, Ends, InGrammar, Level, Reach, Yield, YieldArgs, YieldBody;
    var (c, k) :- Parse(ts);
    var (thenItems, m) :- BlockAt(k);
    var (els, rest) :- ElseAt(m);
    IfTree(c, thenItems, els, ts, m, rest);
    Ok(If(c, thenItems, els), rest)
  }

  predicate ReadElse(els: Option<Expr>, ts: Stream, k: Stream) {
    if els.None? then ts == k && !At(KwElse, k)
    else (els.value.If? || els.value.Block?) && At(KwElse, ts) && ReadPrefix(els.value, ts.tail, k)
  }

  function ElseAt(ts: Stream): (r: Out<Option<Expr>>)
    ensures r.Ok? ==> ReadElse(r.value, ts, r.rest) && Length(r.rest) <= Length(ts)
    decreases Length(ts), 8
  {
    hide InGrammar, Yield, Ends;
    if At(KwElse, ts) then
      var (_, k) :- Expect(KwElse, ts);
      var (els, m) :- AfterElse(k);
      Ok(Some(els), m)
    else Ok(None, ts)
  }

  function AfterElse(ts: Stream): (r: Out<Expr>)
    ensures r.Ok? ==> (r.value.If? || r.value.Block?) && ReadPrefix(r.value, ts, r.rest)
    decreases Length(ts), 7
  {
    hide AllInGrammar, BodyInGrammar, Ends, InGrammar, Level, Reach, Yield, YieldArgs, YieldBody;
    if At(KwIf, ts) && Clean(ts.tail) then AfterIf(ts.tail)
    else
      var (items, k) :- BlockAt(ts);
      BlockTree(items, ts.tail, k);
      Ok(Block(items), k)
  }

  function AfterWhile(ts: Stream): (r: Out<Expr>)
    ensures r.Ok? ==> ReadPrefix(r.value, More(KwWhile, ts), r.rest)
    decreases Length(ts), 5
  {
    hide AllInGrammar, BodyInGrammar, Ends, InGrammar, Level, Reach, Yield, YieldArgs, YieldBody;
    var (c, k) :- Parse(ts);
    var (body, m) :- BlockAt(k);
    WhileTree(c, body, ts, k.tail, m);
    Ok(While(c, body), m)
  }

  function AfterDo(ts: Stream): (r: Out<Expr>)
    ensures r.Ok? ==> ReadPrefix(r.value, More(KwDo, ts), r.rest)
    decreases Length(ts), 7
  {
    hide AllInGrammar, BodyInGrammar, Ends, InGrammar, Level, Reach, Yield, YieldArgs, YieldBody;
    var (body, k) :- BlockAt(ts);
    var (_, m) :- Expect(KwWhile, k);
    var (c, rest) :- Parse(m);
    DoTree(body, c, ts.tail, m, rest);
    Ok(DoWhile(body, c), rest)
  }

  lemma IfTree(c: Expr, thenItems: seq<Item>, els: Option<Expr>, ts: Stream, k: Stream, rest: Stream)
    requires InGrammar(c) && BodyInGrammar(thenItems)
    requires Yield(c, More(LBrace, YieldBody(thenItems, k))) == ts
    requires Length(k) < Length(ts) && Clean(k) && ReadElse(els, k, rest)
    ensures ReadPrefix(If(c, thenItems, els), More(KwIf, ts), rest)
  {
    hide BodyInGrammar, YieldBody;
    var e := If(c, thenItems, els);
    assert Yield(e, rest) == More(KwIf, ts) by { hide InGrammar, Ends; }
    assert InGrammar(e) by { hide Yield, Ends; }
    assert Ends(e, rest) by { hide Yield, InGrammar; }
  }

  lemma SemicolonItem(e: Expr, ts: Stream, k: Stream)
    requires Read(e, ASSIGNMENT, ts, More(Semicolon, k)) && First(e) != LBrace && Clean(k)
    ensures GoodInit(Some(ExprItem(e, BySemicolon)), k) && YieldInit(Some(ExprItem(e, BySemicolon)), k) == ts
  {
    hide InGrammar, Yield, Ends, First;
    var init := ExprItem(e, BySemicolon);
    assert ItemInGrammar(init);
    assert InitInGrammar(init);
    assert YieldItem(init, k) == ts;
  }

  lemma NoInit(k: Stream)
    ensures GoodInit(None, k) && YieldInit(None, k) == More(Semicolon, k)
  {
  }

  function AfterFor(ts: Stream): (r: Out<Expr>)
    ensures r.Ok? ==> ReadPrefix(r.value, More(KwFor, ts), r.rest)
    decreases Length(ts), 9
  {
    hide AllInGrammar, BodyInGrammar, Ends, InGrammar, Level, Reach, Yield, YieldArgs, YieldBody, GoodInit,
      YieldInit, First;
    if At(LBrace, ts) then
      var (body, k) :- BlockAt(ts);
      ShortLoop(None, body, ts, k);
      Ok(For(true, None, None, None, body), k)
    else if At(KwVar, ts) then
      var (init, k) :- ItemAt(ts);
      DeclInit(init, ts, k);
      ForClauses(Some(init), k)
    else if At(Semicolon, ts) then
      var (_, k) :- Expect(Semicolon, ts);
      NoInit(k);
      ForClauses(None, k)
    else ForFirst(ts)
  }

  /** A loop head that starts with an expression: the test, or what runs first. */
  function ForFirst(ts: Stream): (r: Out<Expr>)
    requires !At(LBrace, ts)
    ensures r.Ok? ==> ReadPrefix(r.value, More(KwFor, ts), r.rest)
    decreases Length(ts), 8
  {
    hide AllInGrammar, BodyInGrammar, Ends, InGrammar, Level, Reach, Yield, YieldArgs, YieldBody, GoodInit,
      YieldInit, First;
    var (e, k) :- Parse(ts);
    YieldStarts(e, k);
    if At(LBrace, k) then
      var (body, m) :- BlockAt(k);
      ShortLoop(Some(e), body, ts, m);
      Ok(For(true, None, Some(e), None, body), m)
    else
      var (_, m) :- Expect(Semicolon, k);
      SemicolonItem(e, ts, m);
      ForClauses(Some(ExprItem(e, BySemicolon)), m)
  }

  /** The test, the update and the body of a loop with clauses. */
  function ForClauses(init: Option<Item>, ts: Stream): (r: Out<Expr>)
    ensures r.Ok? ==> Length(r.rest) < Length(ts)
    ensures r.Ok? && GoodInit(init, ts) ==> ReadFor(r.value, More(KwFor, YieldInit(init, ts)), r.rest)
    decreases Length(ts), 7
  {
    hide AllInGrammar, BodyInGrammar, Ends, InGrammar, Level, Reach, Yield, YieldArgs, YieldBody, GoodInit;
    var (test, k) :- Unless(Semicolon, ts);
    var (_, m) :- Expect(Semicolon, k);
    var (update, k') :- Unless(LBrace, m);
    var (body, rest) :- BlockAt(k');
    HeadOf(update, k');
    ClausesTree(init, test, update, body, ts, k'.tail, rest);
    Ok(For(false, init, test, update, body), rest)
  }

  lemma HeadOf(e: Option<Expr>, k: Stream)
    ensures e.Some? ==> YieldOption(e, k).More? && YieldOption(e, k).head == First(e.value)
  {
    hide Yield, First;
    if e.Some? {
      YieldStarts(e.value, k);
    }
  }

  /** An expression that is left out when `stop` comes at once. */
  function Unless(stop: Token, ts: Stream): (r: Out<Option<Expr>>)
    ensures r.Ok? ==> YieldOption(r.value, r.rest) == ts && Length(r.rest) <= Length(ts)
    ensures r.Ok? && r.value.Some? ==> Read(r.value.value, ASSIGNMENT, ts, r.rest) && !At(stop, ts)
    decreases Length(ts), 5
  {
    if At(stop, ts) then Ok(None, ts)
    else
      var (e, k) :- Parse(ts);
      Ok(Some(e), k)
  }

  // ---------------------------------------------------------------------------------------------------
  // Items

  function ItemAt(ts: Stream): (r: Out<Item>)
    ensures r.Ok? ==> ReadItem(r.value, ts, r.rest)
    ensures r.Ok? && ts.head == KwVar ==> r.value.Decl? && !r.value.isConst
    decreases Length(ts), 7
  {
    hide InGrammar, Yield;
    if ts.More? && ts.head in {KwVar, KwConst} then
      if !Clean(ts.tail) then Fail else DeclAt(ts.head.KwConst?, ts.tail)
    else if ts.More? && ts.head in {KwReturn, KwBreak, KwContinue} then
      if !Clean(ts.tail) then Fail else FlowAt(ts.head, ts.tail)
    else if ts.More? && ts.head.KwPrint? then
      if !Clean(ts.tail) then Fail
      else
        var (es, k) :- PrintFrom([], ts.tail);
        var (end, m) :- EndAt(k);
        Ok(Print(es, end), m)
    else
      var (e, k) :- Parse(ts);
      assert First(e) != KwVar by { YieldStarts(e, k); }
      var (end, m) :- EndAt(k);
      Ok(ExprItem(e, end), m)
  }

  function DeclAt(isConst: bool, ts: Stream): (r: Out<Item>)
    ensures r.Ok? ==> r.value.Decl? && r.value.isConst == isConst
    ensures r.Ok? ==> ReadItem(r.value, More(if isConst then KwConst else KwVar, ts), r.rest)
    decreases Length(ts), 5
  {
    hide InGrammar, Yield;
    var (name, k) :- ExpectName(ts);
    if At(Becomes, k) then
      var (_, m) :- Expect(Becomes, k);
      var (e, k') :- Parse(m);
      var (end, rest) :- EndAt(k');
      Ok(Decl(isConst, name, Some(e), end), rest)
    else
      var (end, rest) :- EndAt(k);
      Ok(Decl(isConst, name, None, end), rest)
  }

  function FlowAt(keyword: Token, ts: Stream): (r: Out<Item>)
    requires keyword in {KwReturn, KwBreak, KwContinue}
    ensures r.Ok? ==> r.value.Flow? && ReadItem(r.value, More(keyword, ts), r.rest)
    decreases Length(ts), 5
  {
    hide InGrammar, Yield;
    if keyword.KwContinue? || AtEnd(ts) then
      var (end, k) :- EndAt(ts);
      Ok(Flow(keyword, None, end), k)
    else
      var (e, k) :- Parse(ts);
      var (end, m) :- EndAt(k);
      assert YieldOption(Some(e), YieldEnd(end, m)) == ts;
      Ok(Flow(keyword, Some(e), end), m)
  }

  function PrintFrom(acc: seq<Expr>, ts: Stream): (r: Out<seq<Expr>>)
    ensures r.Ok? ==> Length(r.rest) < Length(ts) && acc < r.value && !At(Comma, r.rest)
    ensures r.Ok? ==> YieldPrint(r.value[|acc|..], r.rest) == ts && AllInGrammar(r.value[|acc|..])
    decreases Length(ts), 5
  {
    hide InGrammar, Yield, Ends, AllInGrammar, YieldPrint;
    var (e, k) :- Parse(ts);
    if At(Comma, k) then
      var (_, m) :- Expect(Comma, k);
      var (all, k') :- PrintFrom(acc + [e], m);
      OneMorePrinted(e, acc, all, ts, m, k');
      Ok(all, k')
    else
      OnePrinted(e, acc, ts, k);
      Ok(acc + [e], k)
  }

  lemma OneMorePrinted(e: Expr, acc: seq<Expr>, all: seq<Expr>, ts: Stream, m: Stream, k: Stream)
    requires Read(e, ASSIGNMENT, ts, More(Comma, m)) && acc + [e] < all
    requires YieldPrint(all[|acc + [e]|..], k) == m && AllInGrammar(all[|acc + [e]|..])
    ensures acc < all && YieldPrint(all[|acc|..], k) == ts && AllInGrammar(all[|acc|..])
  {
    hide InGrammar, Yield, Ends;
    var es := all[|acc|..];
    assert es[0] == e && es[1..] == all[|acc + [e]|..];
  }

  lemma OnePrinted(e: Expr, acc: seq<Expr>, ts: Stream, k: Stream)
    requires Read(e, ASSIGNMENT, ts, k)
    ensures YieldPrint((acc + [e])[|acc|..], k) == ts && AllInGrammar((acc + [e])[|acc|..])
  {
    hide InGrammar, Yield, Ends;
    assert (acc + [e])[|acc|..] == [e] && [e][1..] == [];
  }

  /** The items of a whole source text. */
  function Program(ts: Stream): (r: Out<seq<Item>>)
    ensures r.Ok? ==> r.rest.End? && ProgramInGrammar(r.value) && YieldProgram(r.value) == ts
  {
    var r := ProgramFrom([], ts);
    assert r.Ok? ==> r.value[0..] == r.value;
    r
  }

  function ProgramFrom(acc: seq<Item>, ts: Stream): (r: Out<seq<Item>>)
    ensures r.Ok? ==> r.rest.End? && acc <= r.value
    ensures r.Ok? ==> ProgramInGrammar(r.value[|acc|..]) && YieldProgram(r.value[|acc|..]) == ts
    decreases Length(ts)
  {
    hide ItemInGrammar, YieldItem;
    if ts.End? then Ok(acc, End)
    else
      var (item, k) :- ItemAt(ts);
      var (all, m) :- ProgramFrom(acc + [item], k);
      var items := all[|acc|..];
      assert items[0] == item && items[1..] == all[|acc| + 1..];
      Ok(all, m)
  }
}
