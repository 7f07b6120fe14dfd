/**
The parser as the C code runs it: a window of three tokens over the lexer, a sticky panic flag with the first error,
and recursive descent that goes on after an error until the calls have returned.

Every method is proved against `GrammarParser`: the flag is set exactly when that parser fails, and otherwise the tree
and the remaining tokens are the same. In every state, panicking or not, the descent terminates.
*/
module Parser {
  import opened Wrappers
  import opened Grammar
  import opened GrammarParser

  datatype Report = Report(message: string, token: Option<Token>)

  /** What one call of `NextItem` delivers. */
  datatype Parsed = Parsed(item: Item) | ErrorItem(report: Report)

  predicate NoErrors(ts: Stream) {
    ts.More? ==> !ts.head.LexError? && NoErrors(ts.tail)
  }

  predicate IsItemEnd(t: Option<Token>) {
    t.None? || t.value.Semicolon? || t.value.VirtualSemicolon?
  }

  /** What is left behind the first item end. */
  function BehindItem(ts: Stream): Stream {
    if ts.End? then End
    else if ts.head.Semicolon? || ts.head.VirtualSemicolon? then ts.tail
    else BehindItem(ts.tail)
  }

  lemma BehindNext(ts: Stream)
    ensures BehindItem(ts) == if AtEnd(ts) then Rest(ts) else BehindItem(Rest(ts))
  {
  }

  function Rest(ts: Stream): Stream {
    if ts.End? then End else ts.tail
  }

  function Both(a: Option<Expr>, b: Option<Expr>, f: (Expr, Expr) -> Expr): Option<Expr> {
    if a.Some? && b.Some? then Some(f(a.value, b.value)) else None
  }

  lemma ClausesUnfold(init: Option<Item>, ts: Stream)
    ensures ForClauses(init, ts) ==
            var (test, k) :- TestAt(ts);
            var (update, m) :- Unless(LBrace, k);
            var (body, rest) :- BlockAt(m);
            Ok(For(false, init, test, update, body), rest)
  {
    hide Unless, BlockAt, ReadFor, GoodInit, YieldInit;
  }

  lemma FirstUnfolds(ts: Stream)
    requires !At(LBrace, ts)
    ensures ForFirst(ts) ==
            var (e, k) :- Parse(ts);
            if At(LBrace, k) then (var (body, m) :- BlockAt(k); Ok(For(true, None, Some(e), None, body), m))
            else (var (_, m) :- Expect(Semicolon, k); ForClauses(Some(ExprItem(e, BySemicolon)), m))
  {
    hide Parse, BlockAt, ForClauses, ReadPrefix;
  }

  lemma ItemUnfolds(ts: Stream)
    ensures ItemAt(ts) ==
            if ts.More? && ts.head in {KwVar, KwConst} then
              (if Clean(ts.tail) then DeclAt(ts.head.KwConst?, ts.tail) else Fail)
            else if ts.More? && ts.head in {KwReturn, KwBreak, KwContinue} then
              (if Clean(ts.tail) then FlowAt(ts.head, ts.tail) else Fail)
            else if ts.More? && ts.head.KwPrint? then (if Clean(ts.tail) then PrintAt(ts.tail) else Fail)
            else ExprItemAt(ts)
  {
    hide Parse, DeclAt, FlowAt, PrintFrom, EndAt, ReadItem;
  }

  lemma BodyUnfolds(acc: seq<Item>, ts: Stream)
    ensures BodyFrom(acc, ts) ==
            if At(RBrace, ts) then (if Clean(ts.tail) then Ok(acc, ts.tail) else Fail)
            else
              var (item, k) :- ItemAt(ts);
              BodyFrom(acc + [item], k)
  {
    hide ItemAt, ReadBody;
  }

  // ---------------------------------------------------------------------------------------------------
  // Null left operands

  predicate PlainName(e: Option<Expr>) {
    e.Some? && e.value.Atom? && e.value.t.Identifier?
  }

  /**
  Where the left operand of an infix rule comes from: a prefix rule, which may have built no tree, or the infix rule
  run just before in the same climbing loop, whose own left operand was or was not a plain name.
  */
  datatype Left = FromPrefix(missing: bool) | FromInfix(t: Token, named: bool)

  /** The code's pointer to that operand is null. */
  predicate NullLeft(l: Left) {
    match l
    case FromPrefix(missing) => missing
    case FromInfix(t, named) => t.OpBecomes? && !named
  }

  /** One infix rule that was run: its token, its left operand, and whether the parser was panicking. */
  datatype Step = Step(t: Token, left: Left, panic: bool)

  /** Only the rule for compound assignments looks at its left operand. */
  predicate ReadsNull(s: Step) {
    s.t.OpBecomes? && NullLeft(s.left)
  }

  /**
  Holding `left`, the loop comes without an error to a compound assignment to something that is no plain name, with
  another compound assignment right behind it.
  */
  predicate Doubled(p: nat, left: Expr, ts: Stream)
    decreases Length(ts)
  {
    && ts.More? && 0 < p <= Precedence(ts.head) && Clean(ts.tail)
    && if ts.head.OpBecomes? && !PlainName(Some(Bare(left))) then ts.tail.More? && ts.tail.head.OpBecomes?
       else Infix(left, ts.head, ts.tail).Ok? &&
            Doubled(p, Infix(left, ts.head, ts.tail).value, Infix(left, ts.head, ts.tail).rest)
  }

  predicate DoubledAt(p: nat, ts: Stream) {
    Prefix(ts).Ok? && Doubled(p, Prefix(ts).value, Prefix(ts).rest)
  }

  /** `)` where an expression should start, and a compound assignment behind it. */
  predicate EmptyGroup(ts: Stream) {
    ts.More? && ts.head == RParen && ts.tail.More? && ts.tail.head.OpBecomes?
  }

  /** An expression in which the loop comes to a compound assignment without a left operand. */
  predicate Doomed(p: nat, ts: Stream) {
    DoubledAt(p, ts) || (p == ASSIGNMENT && ts.More? && ts.head == LParen && EmptyGroup(ts.tail))
  }

  /** An expression item in which that happens. */
  predicate DoomedItem(ts: Stream) {
    && ts.More? && ts.head !in {KwVar, KwConst, KwReturn, KwContinue, KwBreak, KwPrint}
    && Doomed(ASSIGNMENT, ts)
  }

  function ExprItemAt(ts: Stream): Out<Item> {
    var (e, k) :- Parse(ts);
    var (end, m) :- EndAt(k);
    Ok(ExprItem(e, end), m)
  }

  function PrintAt(ts: Stream): Out<Item> {
    var (es, k) :- PrintFrom([], ts);
    var (end, m) :- EndAt(k);
    Ok(Print(es, end), m)
  }

  function TestAt(ts: Stream): Out<Option<Expr>> {
    var (test, k) :- Unless(Semicolon, ts);
    var (_, m) :- Expect(Semicolon, k);
    Ok(test, m)
  }

  class SnukParser {
    var previous: Option<Token>
    var current: Option<Token>
    var next: Option<Token>
    var lexer: Stream
    var panic: bool
    var report: Report
    /** Every infix rule run so far, in order. */
    ghost var steps: seq<Step>
    /** The code has looked at a left operand through a null pointer. */
    ghost var nullRead: bool

    /** A null pointer was read exactly when some step says so, and only while panicking. */
    ghost predicate Logged()
      reads this`steps, this`nullRead
    {
      && (nullRead <==> exists i :: 0 <= i < |steps| && ReadsNull(steps[i]))
      && (forall i :: 0 <= i < |steps| && ReadsNull(steps[i]) ==> steps[i].panic)
    }

    /** After end-of-file only end-of-file follows. */
    ghost predicate Valid()
      reads this
    {
      (current.None? ==> next.None?) && (next.None? ==> lexer.End?) && Logged()
    }

    /** The tokens from the current one on. */
    ghost function Ahead(): Stream
      reads this
    {
      if current.None? then End else More(current.value, if next.None? then End else More(next.value, lexer))
    }

    /**
    The parser is no further back than `ts`, an error reported earlier is still the one reported, and without an error
    nothing was read through a null pointer.
    */
    ghost predicate Progress(ts: Stream, was: bool, first: Report, read: bool)
      reads this
    {
      && Valid() && Length(Ahead()) <= Length(ts) && (NoErrors(ts) ==> NoErrors(Ahead()))
      && (was ==> panic && report == first) && (if panic then read ==> nullRead else nullRead == read)
    }

    /** The parser did what `out` says: it panics exactly when `out` failed. */
    ghost predicate Follows<T>(was: bool, out: Out<T>)
      reads this
    {
      panic == (was || out.Fail?) && (!panic ==> Ahead() == out.rest)
    }

    // -------------------------------------------------------------------------------------------------
    // Token window

    constructor (source: Stream)
      ensures Valid() && Ahead() == source && panic == !Clean(source) && !nullRead && steps == []
    {
      previous, report := None, Report("", None);
      current := if source.End? then None else Some(source.head);
      next := if source.End? || source.tail.End? then None else Some(source.tail.head);
      lexer := if source.End? || source.tail.End? then End else source.tail.tail;
      panic, steps, nullRead := false, [], false;
      new;
      if current.Some? && current.value.LexError? {
        Error("lexer error");
      }
    }

    method Error(message: string)
      modifies this`panic, this`report
      ensures panic
      ensures report == if old(panic) then old(report) else Report(message, current)
    {
      if !panic {
        panic := true;
        report := Report(message, current);
      }
    }

    method Advance()
      requires Valid()
      modifies this`previous, this`current, this`next, this`lexer, this`panic, this`report
      ensures Progress(old(Ahead()), old(panic), old(report), old(nullRead))
      ensures previous == old(current) && Ahead() == Rest(old(Ahead()))
      ensures old(Ahead()).More? ==> Length(Ahead()) < Length(old(Ahead()))
      ensures panic == (old(panic) || !Clean(Ahead()))
      ensures Clean(Ahead()) ==> report == old(report)
    {
      previous := current;
      current := next;
      if current.Some? && current.value.LexError? {
        Error("lexer error");
      }
      if lexer.End? {
        next := None;
      } else {
        next := Some(lexer.head);
        lexer := lexer.tail;
      }
    }

    function Check(t: Token): bool
      reads this
    {
      current == Some(t)
    }

    method Match(t: Token) returns (taken: bool)
      requires Valid()
      modifies this`previous, this`current, this`next, this`lexer, this`panic, this`report
      ensures Progress(old(Ahead()), old(panic), old(report), old(nullRead))
      ensures taken == At(t, old(Ahead()))
      ensures taken ==> Length(Ahead()) < Length(old(Ahead()))
      ensures taken ==> Ahead() == old(Ahead()).tail && previous == Some(t) && panic == (old(panic) || !Clean(Ahead()))
      ensures !taken ==> Ahead() == old(Ahead()) && previous == old(previous) && panic == old(panic)
      ensures !taken ==> report == old(report)
    {
      if !Check(t) {
        return false;
      }
      Advance();
      return true;
    }

    /** One match after the other, until one takes the token. */
    method MatchAny(kinds: set<Token>) returns (taken: bool)
      requires Valid()
      modifies this`previous, this`current, this`next, this`lexer, this`panic, this`report
      ensures Progress(old(Ahead()), old(panic), old(report), old(nullRead))
      ensures taken == (old(Ahead()).More? && old(Ahead()).head in kinds)
      ensures taken ==> Length(Ahead()) < Length(old(Ahead()))
      ensures taken ==> Ahead() == old(Ahead()).tail && previous == Some(old(Ahead()).head)
      ensures taken ==> panic == (old(panic) || !Clean(Ahead()))
      ensures !taken ==> Ahead() == old(Ahead()) && panic == old(panic) && report == old(report)
    {
      taken := current.Some? && current.value in kinds;
      if taken {
        Advance();
      }
    }

    method ExpectToken(t: Token, message: string)
      requires Valid()
      modifies this`previous, this`current, this`next, this`lexer, this`panic, this`report
      ensures Progress(old(Ahead()), old(panic), old(report), old(nullRead))
      ensures Follows(old(panic), Expect(t, old(Ahead())))
      ensures !panic ==> previous == Some(t)
      ensures !At(t, old(Ahead())) ==> Ahead() == old(Ahead())
    {
      var taken := Match(t);
      if !taken {
        Error(message);
      }
    }

    method ExpectIdentifier(message: string) returns (name: string)
      requires Valid()
      modifies this`previous, this`current, this`next, this`lexer, this`panic, this`report
      ensures Progress(old(Ahead()), old(panic), old(report), old(nullRead))
      ensures Follows(old(panic), ExpectName(old(Ahead())))
      ensures !panic ==> name == ExpectName(old(Ahead())).value
    {
      name := "";
      if current.Some? && current.value.Identifier? {
        name := current.value.name;
        Advance();
      } else {
        Error(message);
      }
    }

    function CheckItemEnd(): bool
      reads this
    {
      IsItemEnd(current)
    }

    method MatchItemEnd() returns (taken: bool)
      requires Valid()
      modifies this`previous, this`current, this`next, this`lexer, this`panic, this`report
      ensures Progress(old(Ahead()), old(panic), old(report), old(nullRead))
      ensures taken == AtEnd(old(Ahead()))
      ensures taken ==> IsItemEnd(previous) && Ahead() == Rest(old(Ahead())) && panic == (old(panic) || !Clean(Ahead()))
      ensures !taken ==> Ahead() == old(Ahead()) && previous == old(previous) && panic == old(panic)
      ensures !taken || Clean(Ahead()) ==> report == old(report)
    {
      if !CheckItemEnd() {
        return false;
      }
      Advance();
      return true;
    }

    method ExpectItemEnd()
      requires Valid()
      modifies this`previous, this`current, this`next, this`lexer, this`panic, this`report
      ensures Progress(old(Ahead()), old(panic), old(report), old(nullRead))
      ensures Follows(old(panic), EndAt(old(Ahead())))
      ensures !panic ==> IsItemEnd(previous)
    {
      var taken := MatchItemEnd();
      if !taken {
        Error("expected a new line or a semicolon");
      }
    }

    // -------------------------------------------------------------------------------------------------
    // Expressions

    method ParseExpr() returns (e: Option<Expr>)
      requires Valid()
      modifies this
      ensures Progress(old(Ahead()), old(panic), old(report), old(nullRead))
      ensures old(Ahead()).More? ==> Length(Ahead()) < Length(old(Ahead()))
      ensures Follows(old(panic), Parse(old(Ahead())))
      ensures !panic ==> e == Some(Bare(Parse(old(Ahead())).value))
      ensures !old(panic) && Doomed(ASSIGNMENT, old(Ahead())) ==> nullRead
      decreases Length(Ahead()), 2
    {
      hide Logged, Doomed, Prefix, ParseAt, Bare, Read, ReadPrefix, ReadInfix, ReadBody, ReadItem, ReadArgs,
        Length, NoErrors, Yield, Ends, Level, Reach, InGrammar;
      ghost var missing;
      e, missing := ParsePrecedence(ASSIGNMENT);
    }

    /** The climbing loop. `missing` says that the code returns a null pointer. */
    method ParsePrecedence(p: nat) returns (e: Option<Expr>, ghost missing: bool)
      requires Valid() && ASSIGNMENT <= p <= UNARY
      modifies this
      ensures Progress(old(Ahead()), old(panic), old(report), old(nullRead))
      ensures old(Ahead()).More? ==> Length(Ahead()) < Length(old(Ahead()))
      ensures Follows(old(panic), ParseAt(p, old(Ahead())))
      ensures !panic ==> e == Some(Bare(ParseAt(p, old(Ahead())).value))
      ensures missing ==> e.None? && panic
      ensures !old(panic) && Doomed(p, old(Ahead())) ==> nullRead
      ensures EmptyGroup(old(Ahead())) ==> missing && Ahead() == old(Ahead()).tail
      decreases Length(Ahead()), 1
    {
      hide Doomed, Prefix, PrefixRule, Infix, Bare, Length, Read, ReadPrefix, ReadInfix, ReadBody, ReadItem, ReadArgs,
        NoErrors, Yield, Ends, Level, Reach, InGrammar, Logged;
      ghost var ts := Ahead();
      var found;
      ghost var left;
      found, e, missing, left := ParsePrefix(p);
      if !found {
        return;
      }
      ghost var from := FromPrefix(missing);
      while current.Some? && p <= Precedence(current.value)
        invariant Progress(ts, old(panic), old(report), old(nullRead)) && Length(Ahead()) < Length(ts)
        invariant panic ==> old(panic) || ParseAt(p, ts).Fail?
        invariant !panic ==> e == Some(Bare(left)) && ParseAt(p, ts) == Climb(p, left, Ahead())
        invariant (missing ==> e.None? && panic) && (NullLeft(from) ==> missing)
        invariant missing ==> NullLeft(from) || current.None?
        invariant !old(panic) && Doomed(p, ts) ==> nullRead || Doubling(p, left, from)
        decreases Length(Ahead())
      {
        e, missing, left, from := ClimbOnce(p, e, left, from);
      }
    }

    /** The token an expression starts with and its prefix rule, if it has one. */
    method ParsePrefix(p: nat) returns (found: bool, e: Option<Expr>, ghost missing: bool, ghost left: Expr)
      requires Valid() && ASSIGNMENT <= p <= UNARY
      modifies this
      ensures Progress(old(Ahead()), old(panic), old(report), old(nullRead))
      ensures found <==> old(Ahead()).More? && HasPrefix(old(Ahead()).head)
      ensures old(Ahead()).More? ==> Length(Ahead()) < Length(old(Ahead()))
      ensures missing ==> e.None? && panic
      ensures !found ==> missing && Ahead() == Rest(old(Ahead())) && !Doomed(p, old(Ahead()))
      ensures panic ==> old(panic) || ParseAt(p, old(Ahead())).Fail?
      ensures !panic ==> e == Some(Bare(left)) && ParseAt(p, old(Ahead())) == Climb(p, left, Ahead())
      ensures found && !old(panic) && Doomed(p, old(Ahead())) ==> Doubling(p, left, FromPrefix(missing))
      decreases Length(Ahead()), 0
    {
      hide PrefixRule, Bare, Length, Read, ReadPrefix, ReadInfix, ReadBody, ReadItem, ReadArgs, NoErrors, Yield, Ends,
        Level, Reach, InGrammar, Logged, Doubled;
      ghost var ts := Ahead();
      Advance();
      left := Atom(Null);
      found := previous.Some? && HasPrefix(previous.value);
      if !found {
        assert Prefix(ts).Fail? by { if ts.More? { NoPrefix(ts.head, ts.tail); } }
        Error("expected expression");
        return false, None, true, left;
      }
      e, missing := RunPrefix();
      if !panic {
        left := Prefix(ts).value;
      }
    }

    /** The next compound assignment that the loop runs looks at a null pointer. */
    ghost predicate Doubling(p: nat, left: Expr, from: Left)
      reads this
    {
      if panic then p <= ASSIGNMENT && NullLeft(from) && AtCompound() else Doubled(p, left, Ahead())
    }

    /** One round of the loop. */
    method ClimbOnce(p: nat, left: Option<Expr>, ghost l: Expr, ghost from: Left)
      returns (e: Option<Expr>, ghost missing: bool, ghost grown: Expr, ghost now: Left)
      requires Valid() && current.Some? && ASSIGNMENT <= p <= Precedence(current.value)
      requires (!panic ==> left == Some(Bare(l))) && (NullLeft(from) ==> left.None? && panic)
      modifies this
      ensures Progress(old(Ahead()), old(panic), old(report), old(nullRead))
      ensures Length(Ahead()) < Length(old(Ahead()))
      ensures panic ==> old(panic) || Climb(p, l, old(Ahead())).Fail?
      ensures !panic ==> e == Some(Bare(grown)) && Climb(p, l, old(Ahead())) == Climb(p, grown, Ahead())
      ensures (missing ==> e.None? && panic) && (NullLeft(now) ==> missing)
      ensures missing ==> NullLeft(now) || current.None?
      ensures old(Doubling(p, l, from)) ==> nullRead || (!old(panic) && Doubling(p, grown, now))
      decreases Length(Ahead()), 0
    {
      hide PrefixRule, Infix, Bare, Length, Read, ReadPrefix, ReadInfix, ReadBody, ReadItem, ReadArgs, NoErrors,
        Yield, Ends, Level, Reach, InGrammar, Logged, Prefix;
      ghost var us, named := Ahead(), PlainName(left);
      Advance();
      ghost var right := Infix(l, us.head, us.tail);
      e, missing := RunInfix(previous.value, left, l, from);
      now, grown := FromInfix(us.head, named), if panic then l else right.value;
    }

    ghost predicate AtCompound()
      reads this
    {
      current.Some? && current.value.OpBecomes?
    }

    /** The prefix column of the rules table. */
    method RunPrefix() returns (e: Option<Expr>, ghost missing: bool)
      requires Valid() && previous.Some? && HasPrefix(previous.value)
      modifies this
      ensures Progress(old(Ahead()), old(panic), old(report), old(nullRead))
      ensures Follows(old(panic), PrefixRule(old(previous.value), old(Ahead())))
      ensures !panic ==> e == Some(Bare(PrefixRule(old(previous.value), old(Ahead())).value))
      ensures missing ==> e.None? && panic
      ensures old(previous) == Some(LParen) && EmptyGroup(old(Ahead())) ==> missing && Ahead() == old(Ahead()).tail
      decreases Length(Ahead()), 10
    {
      hide Logged, Doomed, Prefix, ParseAt, AfterIf, AfterWhile, AfterDo, AfterFor, ArgsFrom, BodyFrom, Read,
        ReadPrefix, ReadInfix, ReadBody, ReadItem, ReadArgs, Length, NoErrors, Yield, Ends, Level, Reach, InGrammar;
      var t := previous.value;
      missing := false;
      if IsAtom(t) {
        e := Some(Atom(t));
      } else if IsUnary(t) {
        var a;
        ghost var hole;
        a, hole := ParsePrecedence(UNARY);
        e := if a.Some? then Some(Unary(t, a.value)) else None;
      } else if t == LParen {
        e, missing := ParseGroup();
      } else if t == LBracket {
        e := ParseList();
        missing := e.None?;
      } else if t == LBrace {
        e := ParseBlock();
        missing := e.None?;
      } else if t == KwIf {
        e := ParseIf();
      } else if t == KwFor {
        e := ParseFor();
      } else {
        e := ParseWhile();
      }
    }

    method ParseGroup() returns (e: Option<Expr>, ghost missing: bool)
      requires Valid()
      modifies this
      ensures Progress(old(Ahead()), old(panic), old(report), old(nullRead))
      ensures Follows(old(panic), PrefixKeyword(LParen, old(Ahead())))
      ensures !panic ==> e == Some(Bare(PrefixKeyword(LParen, old(Ahead())).value))
      ensures missing ==> e.None? && panic
      ensures EmptyGroup(old(Ahead())) ==> missing && Ahead() == old(Ahead()).tail
      decreases Length(Ahead()), 4
    {
      hide Logged, Doomed, Prefix, ParseAt, Read, ReadPrefix, ReadInfix, ReadBody, ReadItem, ReadArgs, Length,
        NoErrors, Yield, Ends, Level, Reach, InGrammar;
      e, missing := ParsePrecedence(ASSIGNMENT);
      ExpectToken(RParen, "expected ')'");
    }

    /**
    The infix column of the rules table. The rule for compound assignments looks at its left operand without a check;
    where the code would follow a null pointer the model goes on as if it had found no name.
    */
    method RunInfix(t: Token, left: Option<Expr>, ghost l: Expr, ghost from: Left)
      returns (e: Option<Expr>, ghost missing: bool)
      requires Valid() && previous == Some(t) && Precedence(t) > 0 && (!panic ==> left == Some(Bare(l)))
      requires NullLeft(from) ==> left.None? && panic
      modifies this
      ensures Progress(old(Ahead()), old(panic), old(report), old(nullRead))
      ensures Follows(old(panic), Infix(l, t, old(Ahead())))
      ensures !panic ==> e == Some(Bare(Infix(l, t, old(Ahead())).value))
      ensures t.OpBecomes? && NullLeft(from) ==> nullRead
      ensures missing ==> e.None? && panic && (NullLeft(FromInfix(t, PlainName(left))) || current.None?)
      ensures NullLeft(FromInfix(t, PlainName(left))) ==> missing && Ahead() == old(Ahead())
      decreases Length(Ahead()), 10
    {
      hide Follows, Clean, PlainName, Logged, Doomed, Prefix, Infix, Bare, Read, ReadPrefix, ReadInfix, ReadBody,
        ReadItem, ReadArgs, Length, NoErrors, InGrammar, Yield, Ends, Level, Reach;
      LogStep(t, from);
      missing := false;
      match t
      case Op(o) => e := ParseBinary(o, left, l);
      case Becomes => e := ParseAssignment(left, l);
      case OpBecomes(a) => e, missing := ParseCompound(a, left, l);
      case LParen => e, missing := ParseCall(left, l);
      case Dot => e := ParseMember(left, l);
    }

    method ParseBinary(o: Operator, left: Option<Expr>, ghost l: Expr) returns (e: Option<Expr>)
      requires Valid() && (!panic ==> left == Some(Bare(l)))
      modifies this
      ensures Progress(old(Ahead()), old(panic), old(report), old(nullRead))
      ensures Follows(old(panic), Infix(l, Op(o), old(Ahead())))
      ensures !panic ==> e == Some(Bare(Infix(l, Op(o), old(Ahead())).value))
      decreases Length(Ahead()), 5
    {
      hide Logged, Doomed, Prefix, ParseAt, Read, ReadPrefix, ReadInfix, ReadBody, ReadItem, ReadArgs, Length,
        NoErrors, InGrammar, Yield, Ends, Level, Reach;
      var right;
      ghost var hole;
      right, hole := ParsePrecedence(LevelOf(o) + 1);
      e := Both(left, right, (a, b) => Binary(o, a, b));
    }

    method ParseAssignment(left: Option<Expr>, ghost l: Expr) returns (e: Option<Expr>)
      requires Valid() && (!panic ==> left == Some(Bare(l)))
      modifies this
      ensures Progress(old(Ahead()), old(panic), old(report), old(nullRead))
      ensures Follows(old(panic), Infix(l, Becomes, old(Ahead())))
      ensures !panic ==> e == Some(Bare(Infix(l, Becomes, old(Ahead())).value))
      decreases Length(Ahead()), 5
    {
      hide Logged, Doomed, Prefix, ParseAt, Read, ReadPrefix, ReadInfix, ReadBody, ReadItem, ReadArgs, Length,
        NoErrors, InGrammar, Yield, Ends, Level, Reach;
      var value := ParseExpr();
      e := Both(left, value, (a, b) => Assign(a, b));
    }

    method ParseCompound(a: ArithmeticOp, left: Option<Expr>, ghost l: Expr)
      returns (e: Option<Expr>, ghost missing: bool)
      requires Valid() && (!panic ==> left == Some(Bare(l)))
      modifies this
      ensures Progress(old(Ahead()), old(panic), old(report), old(nullRead))
      ensures Follows(old(panic), Infix(l, OpBecomes(a), old(Ahead())))
      ensures !panic ==> e == Some(Bare(Infix(l, OpBecomes(a), old(Ahead())).value))
      ensures missing == !PlainName(left) && (missing ==> e.None? && panic && Ahead() == old(Ahead()))
      decreases Length(Ahead()), 5
    {
      hide Logged, Doomed, Prefix, ParseAt, Read, ReadPrefix, ReadInfix, ReadBody, ReadItem, ReadArgs, Length,
        NoErrors, InGrammar, Yield, Ends, Level, Reach;
      BareName(l);
      if !PlainName(left) {
        Error("invalid assignment target");
        return None, true;
      }
      var value := ParseExpr();
      e, missing := Both(left, value, (b, c) => Compound(a, b, c)), false;
    }

    method ParseMember(left: Option<Expr>, ghost l: Expr) returns (e: Option<Expr>)
      requires Valid() && (!panic ==> left == Some(Bare(l)))
      modifies this
      ensures Progress(old(Ahead()), old(panic), old(report), old(nullRead))
      ensures Follows(old(panic), Infix(l, Dot, old(Ahead())))
      ensures !panic ==> e == Some(Bare(Infix(l, Dot, old(Ahead())).value))
    {
      hide Logged, Doomed, Prefix, Read, ReadPrefix, ReadInfix, ReadBody, ReadItem, ReadArgs, Length, NoErrors,
        InGrammar, Yield, Ends, Level, Reach;
      var field := ExpectIdentifier("expected a member");
      e := if left.Some? && !panic then Some(Member(left.value, field)) else None;
    }

    /** Records an infix rule that is about to run. */
    ghost method LogStep(t: Token, from: Left)
      requires Valid() && (NullLeft(from) ==> panic)
      modifies this`steps, this`nullRead
      ensures Valid() && steps == old(steps) + [Step(t, from, panic)]
      ensures nullRead <==> old(nullRead) || (t.OpBecomes? && NullLeft(from))
    {
      var s := Step(t, from, panic);
      assert (steps + [s])[|steps|] == s;
      if nullRead {
        var i :| 0 <= i < |steps| && ReadsNull(steps[i]);
        assert (steps + [s])[i] == steps[i];
      }
      steps := steps + [s];
      nullRead := nullRead || ReadsNull(s);
    }

    /**
    The loop of `parse_call` and `parse_list`. That the latest token is the closing one is a sound test for having left
    the loop at the closing token and not at the end of the file.
    */
    method ParseElements(close: Token, message: string) returns (elements: Option<seq<Expr>>)
      requires Valid() && close in {RParen, RBracket} && (!panic ==> previous.Some? && previous != Some(close))
      modifies this
      ensures Progress(old(Ahead()), old(panic), old(report), old(nullRead))
      ensures Follows(old(panic), ArgsFrom(close, [], false, old(Ahead())))
      ensures !panic ==> elements == Some(BareAll(ArgsFrom(close, [], false, old(Ahead())).value.0))
      ensures elements.None? ==> panic && current.None?
      decreases Length(Ahead()), 4
    {
      hide Logged, Doomed, Prefix, Length, NoErrors, ArgsFrom, ElementAt, Bare, BareAll, InGrammar, Yield,
        YieldArgs, AllInGrammar, Read, ReadPrefix, ReadInfix, ReadBody, ReadItem, ReadArgs, Ends, Level, Reach;
      NothingAtEnd();
      ghost var ts := Ahead();
      ghost var out := ArgsFrom(close, [], false, ts);
      ghost var taken: seq<Expr> := [];
      ghost var comma := false;
      var list: seq<Expr> := [];
      assert BareAll([]) == [];
      ArgsUnfold(close, [], false, ts);
      var closed := Match(close);
      while !closed && current.Some?
        invariant Progress(ts, old(panic), old(report), old(nullRead))
        invariant panic ==> old(panic) || out.Fail?
        invariant !panic ==> list == BareAll(taken)
        invariant !panic && closed ==> out == Ok((taken, comma), Ahead())
        invariant !panic && !closed ==> out == ArgsFrom(close, taken, comma, Ahead()) && previous != Some(close)
        invariant if closed then previous == Some(close) else !At(close, Ahead())
        decreases Length(Ahead())
      {
        list, closed, taken, comma := ParseOneMore(close, list, taken, comma);
      }
      ArgsUnfold(close, taken, comma, Ahead());
      if previous != Some(close) {
        Error(message);
        return None;
      }
      elements := Some(list);
    }

    /** One round of that loop. */
    method ParseOneMore(close: Token, list: seq<Expr>, ghost taken: seq<Expr>, ghost comma: bool)
      returns (longer: seq<Expr>, closed: bool, ghost more: seq<Expr>, ghost last: bool)
      requires Valid() && close in {RParen, RBracket} && current.Some? && !At(close, Ahead())
      requires !panic ==> list == BareAll(taken)
      modifies this
      ensures Progress(old(Ahead()), old(panic), old(report), old(nullRead))
      ensures Length(Ahead()) < Length(old(Ahead()))
      ensures panic ==> old(panic) || ArgsFrom(close, taken, comma, old(Ahead())).Fail?
      ensures !panic ==> longer == BareAll(more)
      ensures !panic ==> ArgsFrom(close, taken, comma, old(Ahead())) ==
                         if closed then Ok((more, last), Ahead()) else ArgsFrom(close, more, last, Ahead())
      ensures if closed then previous == Some(close) else !At(close, Ahead()) && (!panic ==> previous != Some(close))
      decreases Length(Ahead()), 3, 1
    {
      hide Logged, Doomed, Prefix, ArgsFrom, ElementAt, Bare, BareAll, InGrammar, Yield, YieldArgs, AllInGrammar,
        Read, ReadPrefix, ReadInfix, ReadBody, ReadItem, ReadArgs, Length, NoErrors, Ends, Level, Reach;
      ghost var us := Ahead();
      ArgsUnfold(close, taken, comma, us);
      longer, more, last := list, taken, comma;
      var e := ParseElement(close);
      if e.Some? {
        longer := longer + [e.value];
      }
      if !panic {
        BareAllAppend(taken, ElementAt(close, us).value.0);
        more, last := taken + [ElementAt(close, us).value.0], ElementAt(close, us).value.1;
      }
      ArgsUnfold(close, more, last, Ahead());
      closed := Match(close);
    }

    method ParseElement(close: Token) returns (e: Option<Expr>)
      requires Valid() && close in {RParen, RBracket}
      modifies this
      ensures Progress(old(Ahead()), old(panic), old(report), old(nullRead))
      ensures old(Ahead()).More? ==> Length(Ahead()) < Length(old(Ahead()))
      ensures Follows(old(panic), ElementAt(close, old(Ahead())))
      ensures !panic ==> e == Some(Bare(ElementAt(close, old(Ahead())).value.0))
      ensures !panic ==> if ElementAt(close, old(Ahead())).value.1 then previous == Some(Comma) else At(close, Ahead())
      decreases Length(Ahead()), 3, 0
    {
      hide Logged, Doomed, Prefix, Parse, Bare, Read, Length, NoErrors, Yield, Ends, Level, Reach, InGrammar;
      e := ParseExpr();
      if !Check(close) {
        ExpectToken(Comma, "expected comma");
      }
    }

    method ParseCall(callee: Option<Expr>, ghost l: Expr) returns (e: Option<Expr>, ghost missing: bool)
      requires Valid() && previous == Some(LParen) && (!panic ==> callee == Some(Bare(l)))
      modifies this
      ensures Progress(old(Ahead()), old(panic), old(report), old(nullRead))
      ensures Follows(old(panic), Infix(l, LParen, old(Ahead())))
      ensures !panic ==> e == Some(Bare(Infix(l, LParen, old(Ahead())).value))
      ensures missing ==> e.None? && panic && current.None?
      decreases Length(Ahead()), 5
    {
      hide Logged, Doomed, Prefix, ArgsFrom, Read, ReadPrefix, ReadInfix, ReadBody, ReadItem, ReadArgs, Length,
        NoErrors, Yield, Ends, Level, Reach, InGrammar;
      var args := ParseElements(RParen, "expected ')'");
      missing := args.None?;
      e := if callee.Some? && args.Some? then Some(Call(callee.value, args.value, false)) else None;
    }

    method ParseList() returns (e: Option<Expr>)
      requires Valid() && previous == Some(LBracket)
      modifies this
      ensures Progress(old(Ahead()), old(panic), old(report), old(nullRead))
      ensures Follows(old(panic), PrefixKeyword(LBracket, old(Ahead())))
      ensures !panic ==> e == Some(Bare(PrefixKeyword(LBracket, old(Ahead())).value))
      ensures e.None? ==> panic
      decreases Length(Ahead()), 5
    {
      hide Logged, Doomed, Prefix, ArgsFrom, Read, ReadPrefix, ReadInfix, ReadBody, ReadItem, ReadArgs, Length,
        NoErrors, Yield, Ends, Level, Reach, InGrammar;
      var elements := ParseElements(RBracket, "expected ']' after list elements");
      e := if elements.Some? then Some(List(elements.value, false)) else None;
    }

    /** The items of a block whose opening brace has been taken. */
    method ParseItems() returns (items: Option<seq<Item>>)
      requires Valid() && (!panic ==> previous == Some(LBrace))
      modifies this
      ensures Progress(old(Ahead()), old(panic), old(report), old(nullRead))
      ensures Follows(old(panic), BodyFrom([], old(Ahead())))
      ensures !panic ==> items == Some(BareItems(BodyFrom([], old(Ahead())).value))
      decreases Length(Ahead()), 5
    {
      hide Logged, Doomed, Prefix, ItemAt, BodyFrom, BareItem, ItemInGrammar, YieldItem, YieldBody, BodyInGrammar, Read,
        ReadPrefix, ReadInfix, ReadBody, ReadItem, ReadArgs, NoErrors, Yield, Ends, Level, Reach, InGrammar;
      NothingAtEnd();
      ghost var ts := Ahead();
      ghost var out := BodyFrom([], ts);
      ghost var taken: seq<Item> := [];
      var list: seq<Item> := [];
      BodyUnfolds([], ts);
      assert BareItems([]) == [];
      var closed := Match(RBrace);
      while !closed && current.Some?
        invariant Progress(ts, old(panic), old(report), old(nullRead))
        invariant panic ==> old(panic) || out.Fail?
        invariant !panic ==> list == BareItems(taken)
        invariant !panic && closed ==> out == Ok(taken, Ahead()) && previous == Some(RBrace)
        invariant !panic && !closed ==> out == BodyFrom(taken, Ahead()) && previous != Some(RBrace)
        invariant !closed ==> !At(RBrace, Ahead())
        decreases Length(Ahead())
      {
        ghost var us := Ahead();
        BodyUnfolds(taken, us);
        var item := ParseItem();
        if item.Some? {
          list := list + [item.value];
        }
        if !panic {
          BareItemsAppend(taken, ItemAt(us).value);
          taken := taken + [ItemAt(us).value];
        }
        BodyUnfolds(taken, Ahead());
        closed := Match(RBrace);
      }
      BodyUnfolds(taken, Ahead());
      if previous != Some(RBrace) {
        Error("block was not closed");
        return None;
      }
      items := Some(list);
    }

    method ParseBlock() returns (e: Option<Expr>)
      requires Valid() && (!panic ==> previous == Some(LBrace))
      modifies this
      ensures Progress(old(Ahead()), old(panic), old(report), old(nullRead))
      ensures Follows(old(panic), PrefixKeyword(LBrace, old(Ahead())))
      ensures !panic ==> e == Some(Bare(PrefixKeyword(LBrace, old(Ahead())).value))
      ensures e.None? ==> panic
      decreases Length(Ahead()), 6
    {
      hide Logged, Doomed, Prefix, BodyFrom, Read, ReadPrefix, ReadInfix, ReadBody, ReadItem, ReadArgs, Length,
        NoErrors, Yield, Ends, Level, Reach, InGrammar;
      var items := ParseItems();
      e := if items.Some? then Some(Block(items.value)) else None;
    }

    /** The opening brace and the block after it. */
    method ParseBraced(message: string) returns (items: Option<seq<Item>>)
      requires Valid()
      modifies this
      ensures Progress(old(Ahead()), old(panic), old(report), old(nullRead))
      ensures Follows(old(panic), BlockAt(old(Ahead())))
      ensures !panic ==> items == Some(BareItems(BlockAt(old(Ahead())).value))
      decreases Length(Ahead()), 6
    {
      hide Logged, Doomed, Prefix, BodyFrom, Read, ReadPrefix, ReadInfix, ReadBody, ReadItem, ReadArgs, Length,
        NoErrors, Yield, Ends, Level, Reach, InGrammar;
      ExpectToken(LBrace, message);
      items := ParseItems();
    }

    method ParseIf() returns (e: Option<Expr>)
      requires Valid()
      modifies this
      ensures Progress(old(Ahead()), old(panic), old(report), old(nullRead))
      ensures Follows(old(panic), AfterIf(old(Ahead())))
      ensures !panic ==> e == Some(Bare(AfterIf(old(Ahead())).value))
      decreases Length(Ahead()), 8
    {
      hide Logged, Doomed, Prefix, Parse, BlockAt, ElseAt, Length, Read, ReadPrefix, ReadBody, ReadElse, NoErrors,
        InGrammar, Yield, Ends, Level, Reach;
      var c := ParseExpr();
      var thenItems := ParseBraced("expected '{'");
      var els := ParseElse();
      e := if c.Some? && thenItems.Some? then Some(If(c.value, thenItems.value, els)) else None;
    }

    method ParseElse() returns (e: Option<Expr>)
      requires Valid()
      modifies this
      ensures Progress(old(Ahead()), old(panic), old(report), old(nullRead))
      ensures Follows(old(panic), ElseAt(old(Ahead())))
      ensures !panic ==> e == BareOption(ElseAt(old(Ahead())).value)
      decreases Length(Ahead()), 3
    {
      hide Logged, Doomed, Prefix, AfterElse, Length, Read, ReadPrefix, ReadBody, NoErrors, InGrammar, Yield,
        Ends, Level, Reach;
      e := None;
      var taken := Match(KwElse);
      if taken {
        e := ParseElseBranch();
      }
    }

    method ParseElseBranch() returns (e: Option<Expr>)
      requires Valid()
      modifies this
      ensures Progress(old(Ahead()), old(panic), old(report), old(nullRead))
      ensures Follows(old(panic), AfterElse(old(Ahead())))
      ensures !panic ==> e == Some(Bare(AfterElse(old(Ahead())).value))
      decreases Length(Ahead()), 9
    {
      hide Logged, Doomed, Prefix, AfterIf, BlockAt, Length, Read, ReadPrefix, ReadInfix, ReadBody, ReadItem,
        ReadArgs, NoErrors, Yield, Ends, Level, Reach, InGrammar;
      var taken := Match(KwIf);
      if taken {
        e := ParseIf();
      } else {
        var items := ParseBraced("expected '{'");
        e := if items.Some? then Some(Block(items.value)) else None;
      }
    }

    /** `parse_while`, entered with `while` or `do` as the latest token. */
    method ParseWhile() returns (e: Option<Expr>)
      requires Valid() && previous in {Some(KwWhile), Some(KwDo)}
      modifies this
      ensures Progress(old(Ahead()), old(panic), old(report), old(nullRead))
      ensures var out := if old(previous) == Some(KwDo) then AfterDo(old(Ahead())) else AfterWhile(old(Ahead()));
              Follows(old(panic), out) && (!panic ==> e == Some(Bare(out.value)))
      decreases Length(Ahead()), 8, 1
    {
      hide Logged, Doomed, Prefix, Parse, BlockAt, AfterDo, Length, Read, ReadPrefix, ReadInfix, ReadBody,
        ReadItem, ReadArgs, NoErrors, Yield, Ends, Level, Reach, InGrammar;
      if previous == Some(KwDo) {
        e := ParseDoWhile();
        return;
      }
      var c := ParseExpr();
      var body := ParseBraced("expected '{'");
      e := if body.Some? && c.Some? then Some(While(c.value, body.value)) else None;
    }

    method ParseDoWhile() returns (e: Option<Expr>)
      requires Valid()
      modifies this
      ensures Progress(old(Ahead()), old(panic), old(report), old(nullRead))
      ensures Follows(old(panic), AfterDo(old(Ahead())))
      ensures !panic ==> e == Some(Bare(AfterDo(old(Ahead())).value))
      decreases Length(Ahead()), 8, 0
    {
      hide Logged, Doomed, Prefix, Parse, BlockAt, Length, Read, ReadPrefix, ReadInfix, ReadBody, ReadItem,
        ReadArgs, NoErrors, Yield, Ends, Level, Reach, InGrammar;
      var body := ParseBraced("expected '{'");
      ExpectToken(KwWhile, "expected while");
      var c := ParseExpr();
      e := if body.Some? && c.Some? then Some(DoWhile(body.value, c.value)) else None;
    }

    method ParseFor() returns (e: Option<Expr>)
      requires Valid()
      modifies this
      ensures Progress(old(Ahead()), old(panic), old(report), old(nullRead))
      ensures Follows(old(panic), AfterFor(old(Ahead())))
      ensures !panic ==> e == Some(Bare(AfterFor(old(Ahead())).value))
      decreases Length(Ahead()), 9
    {
      hide Logged, Doomed, Prefix, ForFirst, BlockAt, ItemAt, ForClauses, Length, Read, ReadPrefix, ReadInfix,
        ReadBody, ReadItem, ReadArgs, NoErrors, Yield, Ends, Level, Reach, InGrammar;
      ghost var ts := Ahead();
      if Check(LBrace) {
        var forever := ParseBraced("expected '{'");
        return if forever.Some? then Some(For(false, None, None, None, forever.value)) else None;
      }
      if Check(KwVar) {
        var init := ParseItem();
        e := ParseClauses(init, if panic then None else Some(ItemAt(ts).value));
        return;
      }
      var semicolon := Match(Semicolon);
      if semicolon {
        e := ParseClauses(None, None);
        return;
      }
      e := ParseForFirst();
    }

    /** A loop head that starts with an expression: the test, or what runs first. */
    method ParseForFirst() returns (e: Option<Expr>)
      requires Valid() && !At(LBrace, Ahead())
      modifies this
      ensures Progress(old(Ahead()), old(panic), old(report), old(nullRead))
      ensures Follows(old(panic), ForFirst(old(Ahead())))
      ensures !panic ==> e == Some(Bare(ForFirst(old(Ahead())).value))
      decreases Length(Ahead()), 8
    {
      hide Logged, Doomed, Prefix, Parse, ForFirst, BlockAt, ForClauses, Read, ReadPrefix, ReadBody, ReadItem, ReadArgs,
        Length, NoErrors, Yield, Ends, Level, Reach, InGrammar;
      ghost var ts := Ahead();
      FirstUnfolds(ts);
      var first := ParseExpr();
      if Check(LBrace) {
        var body := ParseBraced("expected body of for loop");
        return if first.Some? && body.Some? then Some(For(false, None, first, None, body.value)) else None;
      }
      ExpectToken(Semicolon, "expected ';' or '{' after for expression");
      e := ParseClauses(
        if first.Some? then Some(ExprItem(first.value, BySemicolon)) else None,
        if panic then None else Some(ExprItem(Parse(ts).value, BySemicolon)));
    }

    /** The test, the update and the body, which end every form of the loop with clauses. */
    method ParseClauses(init: Option<Item>, ghost c: Option<Item>) returns (e: Option<Expr>)
      requires Valid()
      requires !panic ==> init == if c.None? then None else Some(BareItem(c.value))
      modifies this
      ensures Progress(old(Ahead()), old(panic), old(report), old(nullRead))
      ensures Follows(old(panic), ForClauses(c, old(Ahead())))
      ensures !panic ==> e == Some(Bare(ForClauses(c, old(Ahead())).value))
      decreases Length(Ahead()), 7
    {
      hide Logged, Doomed, Prefix, Parse, Unless, TestAt, ForClauses, BlockAt, Length, Read, ReadPrefix, ReadInfix,
        ReadBody, ReadItem, ReadArgs, NoErrors, BareItems, BareItem, InGrammar, Yield, Ends, Level, Reach;
      ClausesUnfold(c, Ahead());
      var test := ParseTest();
      var update := ParseUnless(LBrace);
      var body := ParseBraced("expected body of for loop");
      e := if body.Some? then Some(For(false, init, test, update, body.value)) else None;
    }

    /** The test of a loop head and the semicolon after it. */
    method ParseTest() returns (test: Option<Expr>)
      requires Valid()
      modifies this
      ensures Progress(old(Ahead()), old(panic), old(report), old(nullRead))
      ensures Follows(old(panic), TestAt(old(Ahead())))
      ensures !panic ==> test == BareOption(TestAt(old(Ahead())).value)
      decreases Length(Ahead()), 4
    {
      hide Logged, Doomed, Prefix, Unless, Length, Read, ReadPrefix, ReadInfix, ReadBody, ReadItem, ReadArgs,
        NoErrors, Yield, Ends, Level, Reach, InGrammar;
      test := ParseUnless(Semicolon);
      ExpectToken(Semicolon, "expected ';' after condition");
    }

    method ParseUnless(stop: Token) returns (e: Option<Expr>)
      requires Valid()
      modifies this
      ensures Progress(old(Ahead()), old(panic), old(report), old(nullRead))
      ensures Follows(old(panic), Unless(stop, old(Ahead())))
      ensures !panic ==> e == BareOption(Unless(stop, old(Ahead())).value)
      decreases Length(Ahead()), 3
    {
      hide Logged, Doomed, Prefix, Parse, Length, Read, ReadPrefix, ReadInfix, ReadBody, ReadItem, ReadArgs,
        NoErrors, Yield, Ends, Level, Reach, InGrammar;
      e := None;
      if !Check(stop) {
        e := ParseExpr();
      }
    }

    // -------------------------------------------------------------------------------------------------
    // Items

    method ParseItem() returns (item: Option<Item>)
      requires Valid()
      modifies this
      ensures Progress(old(Ahead()), old(panic), old(report), old(nullRead))
      ensures old(Ahead()).More? ==> Length(Ahead()) < Length(old(Ahead()))
      ensures Follows(old(panic), ItemAt(old(Ahead())))
      ensures !panic ==> item == Some(BareItem(ItemAt(old(Ahead())).value)) && IsItemEnd(previous)
      ensures !old(panic) && DoomedItem(old(Ahead())) ==> nullRead
      decreases Length(Ahead()), 4
    {
      hide Logged, Doomed, Prefix, Parse, ItemAt, ExprItemAt, DeclAt, FlowAt, PrintFrom, EndAt, Length, Read,
        ReadPrefix, ReadInfix, ReadBody, ReadItem, ReadArgs, NoErrors, Yield, Ends, Level, Reach, InGrammar;
      ItemUnfolds(Ahead());
      var isDecl := MatchAny({KwVar, KwConst});
      if isDecl {
        item := ParseDecl(previous == Some(KwConst));
        return;
      }
      var isFlow := MatchAny({KwReturn, KwContinue, KwBreak});
      if isFlow {
        item := ParseFlow();
        return;
      }
      var isPrint := Match(KwPrint);
      if isPrint {
        item := ParsePrint();
        return;
      }
      item := ParseExprItem();
    }

    method ParseExprItem() returns (item: Option<Item>)
      requires Valid()
      modifies this
      ensures Progress(old(Ahead()), old(panic), old(report), old(nullRead))
      ensures old(Ahead()).More? ==> Length(Ahead()) < Length(old(Ahead()))
      ensures Follows(old(panic), ExprItemAt(old(Ahead())))
      ensures !panic ==> item == Some(BareItem(ExprItemAt(old(Ahead())).value)) && IsItemEnd(previous)
      ensures !old(panic) && Doomed(ASSIGNMENT, old(Ahead())) ==> nullRead
      decreases Length(Ahead()), 3
    {
      hide Logged, Doomed, Prefix, Parse, EndAt, Length, Read, ReadPrefix, ReadInfix, ReadBody, ReadItem, ReadArgs,
        NoErrors, Yield, Ends, Level, Reach, InGrammar;
      var e := ParseExpr();
      ExpectItemEnd();
      item := if e.Some? then Some(ExprItem(e.value, BySemicolon)) else None;
    }

    /** An unannotated declaration; the initial value is `null` when none is written. */
    method ParseDecl(isConst: bool) returns (item: Option<Item>)
      requires Valid()
      modifies this
      ensures Progress(old(Ahead()), old(panic), old(report), old(nullRead))
      ensures Follows(old(panic), DeclAt(isConst, old(Ahead())))
      ensures !panic ==> item == Some(BareItem(DeclAt(isConst, old(Ahead())).value)) && IsItemEnd(previous)
      decreases Length(Ahead()), 3
    {
      hide Logged, Doomed, Prefix, Parse, EndAt, Length, Read, ReadPrefix, ReadInfix, ReadBody, ReadItem,
        ReadArgs, NoErrors, Yield, Ends, Level, Reach, InGrammar;
      var name := ExpectIdentifier("expected an identifier");
      var value := Some(Atom(Null));
      var taken := Match(Becomes);
      if taken {
        value := ParseExpr();
      }
      ExpectItemEnd();
      item := if value.Some? then Some(Decl(isConst, name, value, BySemicolon)) else None;
    }

    method ParseFlow() returns (item: Option<Item>)
      requires Valid() && previous in {Some(KwReturn), Some(KwBreak), Some(KwContinue)}
      modifies this
      ensures Progress(old(Ahead()), old(panic), old(report), old(nullRead))
      ensures Follows(old(panic), FlowAt(old(previous.value), old(Ahead())))
      ensures !panic ==> item == Some(BareItem(FlowAt(old(previous.value), old(Ahead())).value)) && IsItemEnd(previous)
      decreases Length(Ahead()), 3
    {
      hide Logged, Doomed, Prefix, Parse, EndAt, Length, Read, ReadPrefix, ReadInfix, ReadBody, ReadItem,
        ReadArgs, NoErrors, Yield, Ends, Level, Reach, InGrammar;
      var keyword := previous.value;
      var value := None;
      if (keyword == KwReturn || keyword == KwBreak) && !CheckItemEnd() {
        value := ParseExpr();
      }
      ExpectItemEnd();
      item := Some(Flow(keyword, value, BySemicolon));
    }

    method ParsePrint() returns (item: Option<Item>)
      requires Valid()
      modifies this
      ensures Progress(old(Ahead()), old(panic), old(report), old(nullRead))
      ensures Follows(old(panic), PrintAt(old(Ahead())))
      ensures !panic ==> item == Some(BareItem(PrintAt(old(Ahead())).value)) && IsItemEnd(previous)
      decreases Length(Ahead()), 3
    {
      hide Logged, Doomed, Prefix, Parse, EndAt, Bare, InGrammar, Yield, YieldPrint, AllInGrammar, Read,
        ReadPrefix, ReadInfix, ReadBody, ReadItem, ReadArgs, Length, NoErrors, Ends, Level, Reach;
      ghost var ts := Ahead();
      ghost var out := PrintFrom([], ts);
      ghost var taken: seq<Expr> := [];
      var list: seq<Expr> := [];
      ghost var us := ts;
      var more := true;
      while more
        invariant Progress(ts, old(panic), old(report), old(nullRead)) && Length(Ahead()) <= Length(ts)
        invariant panic ==> old(panic) || out.Fail?
        invariant !panic ==> list == BareAll(taken)
        invariant !panic ==> out == if more then PrintFrom(taken, Ahead()) else Ok(taken, Ahead())
        decreases Length(Ahead()), more
      {
        us := Ahead();
        var e := ParseExpr();
        if e.Some? {
          list := list + [e.value];
        }
        if !panic {
          BareAllAppend(taken, Parse(us).value);
          taken := taken + [Parse(us).value];
        }
        more := Match(Comma);
      }
      ExpectItemEnd();
      item := Some(Print(list, BySemicolon));
    }

    // -------------------------------------------------------------------------------------------------
    // Items of the source text, with recovery

    /** Leaves panic mode and skips to behind the next item end, unless an item end was just taken. */
    method Sync() returns (item: Parsed)
      requires Valid() && panic
      modifies this`previous, this`current, this`next, this`lexer, this`panic, this`report
      ensures Valid() && Length(Ahead()) <= Length(old(Ahead())) && item.ErrorItem?
      ensures NoErrors(old(Ahead())) ==> !panic && NoErrors(Ahead()) && item.report == old(report)
      ensures Ahead() ==
              if old(previous).Some? && IsItemEnd(old(previous)) then old(Ahead()) else BehindItem(old(Ahead()))
      ensures IsItemEnd(previous)
    {
      panic := false;
      if previous.None? || (previous.value != VirtualSemicolon && previous.value != Semicolon) {
        hide BehindItem;
        BehindNext(Ahead());
        var taken := MatchItemEnd();
        while !taken
          invariant Valid() && Length(Ahead()) <= Length(old(Ahead()))
          invariant NoErrors(old(Ahead())) ==> !panic && NoErrors(Ahead()) && report == old(report)
          invariant taken ==> IsItemEnd(previous) && Ahead() == BehindItem(old(Ahead()))
          invariant !taken ==> Ahead().More? && BehindItem(Rest(Ahead())) == BehindItem(old(Ahead()))
          decreases Length(Ahead()), !taken
        {
          Advance();
          BehindNext(Ahead());
          taken := MatchItemEnd();
        }
      }
      return ErrorItem(report);
    }

    /**
    `snuk_parser_next_item`: nothing exactly at the end of the file, and otherwise at least one token is used up. A
    malformed item is reported once; when the lexer finds no error, parsing goes on behind an item end, not panicking.
    */
    method NextItem() returns (r: Option<Parsed>)
      requires Valid()
      modifies this
      ensures Valid()
      ensures r.None? <==> old(Ahead()).End?
      ensures r.None? ==> Ahead() == old(Ahead()) && panic == old(panic)
      ensures r.Some? ==> Length(Ahead()) < Length(old(Ahead()))
      ensures r.Some? ==> (r.value.Parsed? <==> !old(panic) && ItemAt(old(Ahead())).Ok?)
      ensures r.Some? && r.value.Parsed? ==>
                var out := ItemAt(old(Ahead()));
                r.value.item == BareItem(out.value) && Ahead() == out.rest && !panic
      ensures r.Some? && r.value.ErrorItem? ==> IsItemEnd(previous)
      ensures NoErrors(old(Ahead())) ==> NoErrors(Ahead()) && (r.Some? ==> !panic)
      ensures r.None? || r.value.Parsed? ==> nullRead == old(nullRead)
      ensures !old(panic) && DoomedItem(old(Ahead())) ==> nullRead
    {
      hide Logged, Doomed, Prefix, ItemAt, BareItem, Length, Read, ReadPrefix, ReadInfix, ReadBody, ReadItem,
        ReadArgs, NoErrors, Yield, Ends, Level, Reach, InGrammar;
      if current.None? {
        return None;
      }
      var item := ParseItem();
      if panic {
        var error := Sync();
        return Some(error);
      }
      return Some(Parsed(item.value));
    }

    /**
    The loop of the runtime: it reaches the end of every source text after at most one call per token. No error is
    delivered exactly when the whole text is in the grammar, and then no null pointer is read.
    */
    method ParseAll() returns (out: seq<Parsed>)
      requires Valid()
      modifies this
      ensures Valid() && Ahead().End?
      ensures |out| <= Length(old(Ahead()))
      ensures AllParsed(out) <==> Program(old(Ahead())).Ok? && (!old(panic) || old(Ahead()).End?)
      ensures AllParsed(out) ==> Delivered(out, Program(old(Ahead())).value) && nullRead == old(nullRead)
    {
      hide ItemAt, BareItem, ProgramInGrammar, YieldProgram, Yield, Ends, Level, Reach, InGrammar, Logged,
        DoomedItem;
      ghost var ts := Ahead();
      ghost var taken: seq<Item> := [];
      ghost var good, bad: nat := true, 0;
      var done := false;
      out := [];
      while !done
        invariant Valid() && |out| + Length(Ahead()) <= Length(ts)
        invariant done ==> Ahead().End?
        invariant good ==> Delivered(out, taken) && Program(ts) == ProgramFrom(taken, Ahead())
        invariant good ==> nullRead == old(nullRead)
        invariant good ==> panic == old(panic) && (panic ==> out == []) && (out == [] ==> Ahead() == ts)
        invariant !good ==> bad < |out| && out[bad].ErrorItem? && ts.More? && (old(panic) || Program(ts).Fail?)
        decreases Length(Ahead()), !done
      {
        ghost var us := Ahead();
        var r := NextItem();
        if r.None? {
          done := true;
        } else {
          out := out + [r.value];
          if good && r.value.Parsed? {
            taken := taken + [ItemAt(us).value];
          } else if good {
            good, bad := false, |out| - 1;
          }
        }
      }
    }
  }

  /** `1 += += ...`, where the first compound assignment leaves no tree for the second, and `() += ...`. */
  lemma DoomedExamples(i: int, a: ArithmeticOp, b: ArithmeticOp, rest: Stream)
    ensures DoomedItem(More(Integer(i), More(OpBecomes(a), More(OpBecomes(b), rest))))
    ensures DoomedItem(More(LParen, More(RParen, More(OpBecomes(a), rest))))
  {
    var ts := More(Integer(i), More(OpBecomes(a), More(OpBecomes(b), rest)));
    assert Prefix(ts) == Ok(Atom(Integer(i)), ts.tail);
    assert !PlainName(Some(Bare(Atom(Integer(i)))));
  }

  method ReadThroughNull(i: int, a: ArithmeticOp, b: ArithmeticOp, rest: Stream) returns (p: SnukParser, q: SnukParser)
    ensures fresh(p) && p.nullRead && fresh(q) && q.nullRead
  {
    DoomedExamples(i, a, b, rest);
    p := new SnukParser(More(Integer(i), More(OpBecomes(a), More(OpBecomes(b), rest))));
    var item := p.NextItem();
    q := new SnukParser(More(LParen, More(RParen, More(OpBecomes(a), rest))));
    item := q.NextItem();
  }

  /** Exactly these items were delivered, as abstract trees. */
  ghost predicate Delivered(out: seq<Parsed>, items: seq<Item>) {
    |out| == |items| && forall i | 0 <= i < |out| :: out[i] == Parsed(BareItem(items[i]))
  }

  predicate AllParsed(out: seq<Parsed>) {
    forall i | 0 <= i < |out| :: out[i].Parsed?
  }

  lemma NothingAtEnd()
    ensures Parse(End).Fail? && ItemAt(End).Fail? && ElementAt(RParen, End).Fail? && ElementAt(RBracket, End).Fail?
  {
  }

  lemma NoPrefix(t: Token, ts: Stream)
    requires !HasPrefix(t)
    ensures PrefixRule(t, ts).Fail?
  {
  }
}
