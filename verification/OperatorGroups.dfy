/**
Which operators bind tighter, said without the parser's levels: the ten groups of binary operators as the language lists
them, and how operator expressions of any length are read.
*/
module OperatorGroups {
  import opened Wrappers
  import opened Grammar
  import opened GrammarParser
  import opened GrammarTheorems

  /** Loosest first; unary operators bind tighter than all of them, calls and member access tighter still. */
  const GROUPS: seq<set<Operator>> := [
    {PipePipe, KwOr},
    {AmpAmp, KwAnd},
    {Pipe},
    {Caret},
    {Amp},
    {EqualEqual, BangEqual},
    {Less, LessEqual, Greater, GreaterEqual},
    {ShiftLeft, ShiftRight},
    {Plus, Minus},
    {Star, Slash, Percent}]

  /** `b` is in a later group than `a`. */
  predicate Later(a: Operator, b: Operator) {
    exists i, j :: 0 <= i < j < |GROUPS| && a in GROUPS[i] && b in GROUPS[j]
  }

  lemma GroupOf(o: Operator) returns (i: nat)
    ensures i < |GROUPS| && o in GROUPS[i] && LevelOf(o) == i + 2
  {
    i := LevelOf(o) - 2;
  }

  lemma OneGroup(o: Operator, i: nat)
    requires i < |GROUPS| && o in GROUPS[i]
    ensures LevelOf(o) == i + 2
  {
  }

  /** Each operator is in one group, and the parser's levels are those of the groups. */
  lemma LaterBindsTighter(a: Operator, b: Operator)
    ensures Later(a, b) <==> LevelOf(a) < LevelOf(b)
  {
    hide LevelOf;
    var i := GroupOf(a);
    var j := GroupOf(b);
    if Later(a, b) {
      var m, n :| 0 <= m < n < |GROUPS| && a in GROUPS[m] && b in GROUPS[n];
      OneGroup(a, m);
      OneGroup(b, n);
    }
  }

  // ---------------------------------------------------------------------------------------------------
  // Operator expressions of any length

  predicate Atoms(xs: seq<Token>) {
    forall i :: 0 <= i < |xs| ==> IsAtom(xs[i])
  }

  /** No token that continues an expression comes next. */
  predicate Stops(k: Stream) {
    k.More? ==>
      !(k.head.LParen? || k.head.Dot? || k.head.Op? || k.head.Becomes? || k.head.OpBecomes? || k.head.LexError?)
  }

  /** `xs[0] os[0] xs[1] os[1] ...`, then `k`. */
  function Flat(xs: seq<Token>, os: seq<Operator>, k: Stream): Stream
    requires |xs| == |os| + 1
  {
    if os == [] then More(xs[0], k) else More(xs[0], More(Op(os[0]), Flat(xs[1..], os[1..], k)))
  }

  /** The operator at `i` is of the loosest group there is, and the last one of that group. */
  predicate Splits(os: seq<Operator>, i: nat) {
    && i < |os|
    && (forall j :: 0 <= j < |os| ==> !Later(os[j], os[i]))
    && (forall j :: i < j < |os| ==> Later(os[i], os[j]))
  }

  function Split(os: seq<Operator>): (i: nat)
    requires os != []
    ensures Splits(os, i)
  {
    hide Later;
    var n := |os| - 1;
    if n == 0 then
      LaterBindsTighter(os[0], os[0]);
      0
    else
      var i := Split(os[..n]);
      SplitsMore(os, i);
      if Later(os[i], os[n]) then i else n
  }

  lemma SplitsMore(os: seq<Operator>, i: nat)
    requires os != [] && Splits(os[..|os| - 1], i)
    ensures Splits(os, if Later(os[i], os[|os| - 1]) then i else |os| - 1)
  {
    hide Later, LevelOf;
    var n := |os| - 1;
    forall a, b ensures Later(a, b) <==> LevelOf(a) < LevelOf(b) {
      LaterBindsTighter(a, b);
    }
    assert forall j :: 0 <= j < n ==> os[..n][j] == os[j];
  }

  /** Operators of one group nest to the left, those of a later group inside those of an earlier one. */
  function Nest(xs: seq<Token>, os: seq<Operator>): Expr
    requires |xs| == |os| + 1
    decreases |os|
  {
    if os == [] then Atom(xs[0])
    else
      var i := Split(os);
      Binary(os[i], Nest(xs[..i + 1], os[..i]), Nest(xs[i + 1..], os[i + 1..]))
  }

  lemma {:induction false} FlatSplits(xs: seq<Token>, os: seq<Operator>, i: nat, k: Stream)
    requires |xs| == |os| + 1 && i < |os|
    ensures Flat(xs, os, k) == Flat(xs[..i + 1], os[..i], More(Op(os[i]), Flat(xs[i + 1..], os[i + 1..], k)))
  {
    if i > 0 {
      FlatSplits(xs[1..], os[1..], i - 1, k);
      assert xs[..i + 1][1..] == xs[1..][..i] && os[..i][1..] == os[1..][..i - 1];
      assert xs[1..][i..] == xs[i + 1..] && os[1..][i..] == os[i + 1..];
    }
  }

  lemma {:induction false} NestYields(xs: seq<Token>, os: seq<Operator>, k: Stream)
    requires |xs| == |os| + 1
    ensures Yield(Nest(xs, os), k) == Flat(xs, os, k)
    decreases |os|
  {
    if os != [] {
      var i := Split(os);
      var l, r := Nest(xs[..i + 1], os[..i]), Nest(xs[i + 1..], os[i + 1..]);
      assert Nest(xs, os) == Binary(os[i], l, r);
      hide Split, Splits, Nest;
      NestYields(xs[i + 1..], os[i + 1..], k);
      NestYields(xs[..i + 1], os[..i], More(Op(os[i]), Yield(r, k)));
      FlatSplits(xs, os, i, k);
      hide Flat;
    }
  }

  /** Every operator is of level `n` or more. */
  predicate AtLeast(os: seq<Operator>, n: nat) {
    forall i :: 0 <= i < |os| ==> n <= LevelOf(os[i])
  }

  /** `e` may stand wherever operators of level `n` or more are read. */
  predicate Fits(e: Expr, n: nat) {
    InGrammar(e) && !Dangles(e) && n <= Level(e) && n < Reach(e)
  }

  lemma BinaryFits(o: Operator, l: Expr, r: Expr)
    requires Fits(l, LevelOf(o)) && Fits(r, LevelOf(o) + 1)
    ensures Fits(Binary(o, l, r), LevelOf(o))
  {
    hide LevelOf;
  }

  lemma {:induction false} NestFits(xs: seq<Token>, os: seq<Operator>, n: nat)
    requires |xs| == |os| + 1 && Atoms(xs) && AtLeast(os, n) && n <= UNARY
    ensures Fits(Nest(xs, os), n)
    decreases |os|
  {
    if os == [] {
      assert IsAtom(xs[0]);
    } else {
      var i := Split(os);
      hide InGrammar, Dangles, LevelOf, Level, Reach;
      SplitLevels(os, i, n);
      hide Fits, Split, Splits, AtLeast;
      NestFits(xs[..i + 1], os[..i], LevelOf(os[i]));
      NestFits(xs[i + 1..], os[i + 1..], LevelOf(os[i]) + 1);
      BinaryFits(os[i], Nest(xs[..i + 1], os[..i]), Nest(xs[i + 1..], os[i + 1..]));
      LooserFits(Nest(xs, os), LevelOf(os[i]), n);
    }
  }

  lemma SplitLevels(os: seq<Operator>, i: nat, n: nat)
    requires Splits(os, i) && AtLeast(os, n)
    ensures n <= LevelOf(os[i]) && AtLeast(os[..i], LevelOf(os[i])) && AtLeast(os[i + 1..], LevelOf(os[i]) + 1)
  {
    hide LevelOf;
    var o := os[i];
    forall j | 0 <= j < |os| ensures LevelOf(o) <= LevelOf(os[j]) && (i < j ==> LevelOf(o) < LevelOf(os[j])) {
      LaterBindsTighter(os[j], o);
      LaterBindsTighter(o, os[j]);
    }
    hide Later;
  }

  lemma LooserFits(e: Expr, n: nat, m: nat)
    requires Fits(e, n) && m <= n
    ensures Fits(e, m)
  {
    hide InGrammar, Dangles, Level, Reach;
  }

  lemma Ending(e: Expr, k: Stream)
    requires Stops(k) && !Dangles(e)
    ensures Ends(e, k) && HeadPrecedence(k) == 0
  {
  }

  /** Every operator expression over atoms, however long, is read by the groups alone. */
  lemma FlatIsNested(xs: seq<Token>, os: seq<Operator>, k: Stream)
    requires |xs| == |os| + 1 && Atoms(xs) && Stops(k)
    ensures Parse(Flat(xs, os, k)) == Ok(Nest(xs, os), k)
  {
    NestYields(xs, os, k);
    NestFits(xs, os, ASSIGNMENT);
    Ending(Nest(xs, os), k);
    ParserDecidesGrammar(ASSIGNMENT, Flat(xs, os, k), Nest(xs, os), k);
  }

  // ---------------------------------------------------------------------------------------------------
  // Short forms

  /** `e` is grammatical, has no open `if` at its end, and is written as `ts` before `k`. */
  predicate Writes(e: Expr, ts: Stream, k: Stream) {
    Yield(e, k) == ts && InGrammar(e) && !Dangles(e)
  }

  lemma Reads(e: Expr, ts: Stream, k: Stream)
    requires Writes(e, ts, k) && Stops(k)
    ensures Parse(ts) == Ok(e, k)
  {
    hide InGrammar, Yield;
    Ending(e, k);
    ParserDecidesGrammar(ASSIGNMENT, ts, e, k);
  }

  lemma WriteAtom(a: Token, k: Stream)
    requires IsAtom(a)
    ensures Writes(Atom(a), More(a, k), k) && Level(Atom(a)) == Reach(Atom(a)) == CLOSED
  {
  }

  lemma WriteUnary(u: Token, a: Expr, ts: Stream, k: Stream)
    requires IsUnary(u) && Writes(a, ts, k) && PRIMARY <= Level(a) && PRIMARY <= Reach(a)
    ensures Writes(Unary(u, a), More(u, ts), k) && Level(Unary(u, a)) == CLOSED && Reach(Unary(u, a)) == UNARY
  {
  }

  lemma WriteBinary(l: Expr, o: Operator, r: Expr, ls: Stream, rs: Stream, k: Stream)
    requires Writes(l, ls, More(Op(o), rs)) && Writes(r, rs, k) && LevelOf(o) < Reach(l) && LevelOf(o) < Level(r)
    ensures Writes(Binary(o, l, r), ls, k)
    ensures Level(Binary(o, l, r)) == LevelOf(o) && Reach(Binary(o, l, r)) == Min(LevelOf(o) + 1, Reach(r))
  {
    hide LevelOf;
  }

  lemma WriteAssign(l: Expr, r: Expr, ls: Stream, rs: Stream, k: Stream)
    requires Writes(l, ls, More(Becomes, rs)) && Writes(r, rs, k) && ASSIGNMENT < Reach(l)
    ensures Writes(Assign(l, r), ls, k)
  {
  }

  lemma WriteCompound(x: string, m: ArithmeticOp, r: Expr, rs: Stream, k: Stream)
    requires Writes(r, rs, k)
    ensures Writes(Compound(m, Atom(Identifier(x)), r), More(Identifier(x), More(OpBecomes(m), rs)), k)
  {
    var e := Compound(m, Atom(Identifier(x)), r);
    WriteAtom(Identifier(x), More(OpBecomes(m), rs));
    assert Yield(e, k) == More(Identifier(x), More(OpBecomes(m), rs)) by { hide InGrammar, Dangles; }
    assert InGrammar(e) && !Dangles(e) by { hide Yield; }
  }

  /** `b.f(c)` */
  function MethodCall(b: Token, f: string, c: Token): Expr {
    Call(Member(Atom(b), f), [Atom(c)], false)
  }

  function MethodCallTokens(b: Token, f: string, c: Token, k: Stream): Stream {
    More(b, More(Dot, More(Identifier(f), More(LParen, More(c, More(RParen, k))))))
  }

  lemma WriteMethodCall(b: Token, f: string, c: Token, k: Stream)
    requires IsAtom(b) && IsAtom(c)
    ensures Writes(MethodCall(b, f, c), MethodCallTokens(b, f, c, k), k)
    ensures Level(MethodCall(b, f, c)) == PRIMARY && Reach(MethodCall(b, f, c)) == CLOSED
  {
    var rest := More(LParen, More(c, More(RParen, k)));
    assert AllInGrammar([Atom(c)]) by {
      assert [Atom(c)][1..] == [];
      assert AllInGrammar([]);
    }
    WriteAtom(b, More(Dot, More(Identifier(f), rest)));
    assert InGrammar(Member(Atom(b), f));
    assert YieldArgs([Atom(c)], false, RParen, k) == More(c, More(RParen, k)) by {
      assert Yield(Atom(c), More(RParen, k)) == More(c, More(RParen, k));
    }
    assert Yield(Member(Atom(b), f), rest) == More(b, More(Dot, More(Identifier(f), rest)));
  }

  /** `a o b p c`. */
  lemma TwoOperators(a: Token, o: Operator, b: Token, p: Operator, c: Token, k: Stream)
    requires IsAtom(a) && IsAtom(b) && IsAtom(c) && Stops(k)
    ensures Parse(More(a, More(Op(o), More(b, More(Op(p), More(c, k)))))) ==
            Ok(if Later(o, p) then Binary(o, Atom(a), Binary(p, Atom(b), Atom(c)))
               else Binary(p, Binary(o, Atom(a), Atom(b)), Atom(c)), k)
  {
    var cs := More(c, k);
    var bs := More(b, More(Op(p), cs));
    var all := More(a, More(Op(o), bs));
    LaterBindsTighter(o, p);
    WriteAtom(a, More(Op(o), bs));
    WriteAtom(b, More(Op(p), cs));
    WriteAtom(c, k);
    hide Writes, Later, LevelOf, Stops, Parse;
    if Later(o, p) {
      WriteBinary(Atom(b), p, Atom(c), bs, cs, k);
      WriteBinary(Atom(a), o, Binary(p, Atom(b), Atom(c)), all, bs, k);
      Reads(Binary(o, Atom(a), Binary(p, Atom(b), Atom(c))), all, k);
    } else {
      WriteBinary(Atom(a), o, Atom(b), all, bs, More(Op(p), cs));
      WriteBinary(Binary(o, Atom(a), Atom(b)), p, Atom(c), all, cs, k);
      Reads(Binary(p, Binary(o, Atom(a), Atom(b)), Atom(c)), all, k);
    }
  }

  /** `-a o b`, for every unary and every binary operator. */
  lemma UnaryBindsTighter(u: Token, a: Token, o: Operator, b: Token, k: Stream)
    requires IsUnary(u) && IsAtom(a) && IsAtom(b) && Stops(k)
    ensures Parse(More(u, More(a, More(Op(o), More(b, k))))) == Ok(Binary(o, Unary(u, Atom(a)), Atom(b)), k)
  {
    var bs := More(b, k);
    var as_ := More(a, More(Op(o), bs));
    WriteAtom(a, More(Op(o), bs));
    WriteAtom(b, k);
    hide Writes, Stops, Parse;
    WriteUnary(u, Atom(a), as_, More(Op(o), bs));
    WriteBinary(Unary(u, Atom(a)), o, Atom(b), More(u, as_), bs, k);
    Reads(Binary(o, Unary(u, Atom(a)), Atom(b)), More(u, as_), k);
  }

  /** `a o b.f(c)` and `-b.f(c)`. */
  lemma CallsBindTightest(a: Token, o: Operator, b: Token, f: string, c: Token, u: Token, k: Stream)
    requires IsUnary(u) && IsAtom(a) && IsAtom(b) && IsAtom(c) && Stops(k)
    ensures Parse(More(a, More(Op(o), MethodCallTokens(b, f, c, k)))) == Ok(Binary(o, Atom(a), MethodCall(b, f, c)), k)
    ensures Parse(More(u, MethodCallTokens(b, f, c, k))) == Ok(Unary(u, MethodCall(b, f, c)), k)
  {
    var call := MethodCall(b, f, c);
    var cs := MethodCallTokens(b, f, c, k);
    WriteAtom(a, More(Op(o), cs));
    WriteMethodCall(b, f, c, k);
    hide Writes, Stops, Parse, MethodCall, MethodCallTokens;
    WriteBinary(Atom(a), o, call, More(a, More(Op(o), cs)), cs, k);
    Reads(Binary(o, Atom(a), call), More(a, More(Op(o), cs)), k);
    WriteUnary(u, call, cs, k);
    Reads(Unary(u, call), More(u, cs), k);
  }

  /** `a = b o c` and `a o b = c`. */
  lemma AssignmentIsLoosest(a: Token, b: Token, o: Operator, c: Token, k: Stream)
    requires IsAtom(a) && IsAtom(b) && IsAtom(c) && Stops(k)
    ensures Parse(More(a, More(Becomes, More(b, More(Op(o), More(c, k)))))) ==
            Ok(Assign(Atom(a), Binary(o, Atom(b), Atom(c))), k)
    ensures Parse(More(a, More(Op(o), More(b, More(Becomes, More(c, k)))))) ==
            Ok(Assign(Binary(o, Atom(a), Atom(b)), Atom(c)), k)
  {
    OperatorInValue(a, b, o, c, k);
    OperatorInTarget(a, o, b, c, k);
  }

  lemma OperatorInTarget(a: Token, o: Operator, b: Token, c: Token, k: Stream)
    requires IsAtom(a) && IsAtom(b) && IsAtom(c) && Stops(k)
    ensures Parse(More(a, More(Op(o), More(b, More(Becomes, More(c, k)))))) ==
            Ok(Assign(Binary(o, Atom(a), Atom(b)), Atom(c)), k)
  {
    hide Writes, Stops, Parse, LevelOf, Level, Reach, Read, IsAtom;
    var cs := More(c, k);
    var bs := More(b, More(Becomes, cs));
    WriteAtom(a, More(Op(o), bs));
    WriteAtom(b, More(Becomes, cs));
    WriteAtom(c, k);
    WriteBinary(Atom(a), o, Atom(b), More(a, More(Op(o), bs)), bs, More(Becomes, cs));
    WriteAssign(Binary(o, Atom(a), Atom(b)), Atom(c), More(a, More(Op(o), bs)), cs, k);
    Reads(Assign(Binary(o, Atom(a), Atom(b)), Atom(c)), More(a, More(Op(o), bs)), k);
  }

  lemma OperatorInValue(a: Token, b: Token, o: Operator, c: Token, k: Stream)
    requires IsAtom(a) && IsAtom(b) && IsAtom(c) && Stops(k)
    ensures Parse(More(a, More(Becomes, More(b, More(Op(o), More(c, k)))))) ==
            Ok(Assign(Atom(a), Binary(o, Atom(b), Atom(c))), k)
  {
    var cs := More(c, k);
    var bs := More(b, More(Op(o), cs));
    WriteAtom(a, More(Becomes, bs));
    WriteAtom(b, More(Op(o), cs));
    WriteAtom(c, k);
    hide Writes, Stops, Parse, LevelOf, Level, Reach;
    WriteBinary(Atom(b), o, Atom(c), bs, cs, k);
    WriteAssign(Atom(a), Binary(o, Atom(b), Atom(c)), More(a, More(Becomes, bs)), bs, k);
    Reads(Assign(Atom(a), Binary(o, Atom(b), Atom(c))), More(a, More(Becomes, bs)), k);
  }

  /** `a = b = c`. */
  lemma AssignmentsNestRight(a: Token, b: Token, c: Token, k: Stream)
    requires IsAtom(a) && IsAtom(b) && IsAtom(c) && Stops(k)
    ensures Parse(More(a, More(Becomes, More(b, More(Becomes, More(c, k)))))) ==
            Ok(Assign(Atom(a), Assign(Atom(b), Atom(c))), k)
  {
    var cs := More(c, k);
    var bs := More(b, More(Becomes, cs));
    WriteAtom(a, More(Becomes, bs));
    WriteAtom(b, More(Becomes, cs));
    WriteAtom(c, k);
    hide Writes, Stops, Parse, LevelOf, Level, Reach;
    WriteAssign(Atom(b), Atom(c), bs, cs, k);
    WriteAssign(Atom(a), Assign(Atom(b), Atom(c)), More(a, More(Becomes, bs)), bs, k);
    Reads(Assign(Atom(a), Assign(Atom(b), Atom(c))), More(a, More(Becomes, bs)), k);
  }

  /** `x += b o c` and `x += y += c`. */
  lemma CompoundIsLoosest(x: string, m: ArithmeticOp, b: Token, o: Operator, y: string, c: Token, k: Stream)
    requires IsAtom(b) && IsAtom(c) && Stops(k)
    ensures Parse(More(Identifier(x), More(OpBecomes(m), More(b, More(Op(o), More(c, k)))))) ==
            Ok(Compound(m, Atom(Identifier(x)), Binary(o, Atom(b), Atom(c))), k)
    ensures Parse(More(Identifier(x), More(OpBecomes(m), More(Identifier(y), More(OpBecomes(m), More(c, k)))))) ==
            Ok(Compound(m, Atom(Identifier(x)), Compound(m, Atom(Identifier(y)), Atom(c))), k)
  {
    var cs := More(c, k);
    var bs := More(b, More(Op(o), cs));
    var ys := More(Identifier(y), More(OpBecomes(m), cs));
    WriteAtom(b, More(Op(o), cs));
    WriteAtom(c, k);
    hide Writes, Stops, Parse, LevelOf, Level, Reach;
    WriteBinary(Atom(b), o, Atom(c), bs, cs, k);
    WriteCompound(x, m, Binary(o, Atom(b), Atom(c)), bs, k);
    Reads(Compound(m, Atom(Identifier(x)), Binary(o, Atom(b), Atom(c))),
      More(Identifier(x), More(OpBecomes(m), bs)), k);
    WriteCompound(y, m, Atom(c), cs, k);
    WriteCompound(x, m, Compound(m, Atom(Identifier(y)), Atom(c)), ys, k);
    Reads(Compound(m, Atom(Identifier(x)), Compound(m, Atom(Identifier(y)), Atom(c))),
      More(Identifier(x), More(OpBecomes(m), ys)), k);
  }
}
