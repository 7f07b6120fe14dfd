/** The forms of statements, token by token, and the trees they are read as. */
module StatementForms {
  import opened Wrappers
  import opened Grammar
  import opened GrammarParser
  import opened GrammarTheorems
  import opened OperatorGroups

  /** `{ b; }` */
  function Braced(b: Token, k: Stream): Stream {
    More(LBrace, More(b, More(Semicolon, More(RBrace, k))))
  }

  function Only(b: Token): seq<Item> {
    [ExprItem(Atom(b), BySemicolon)]
  }

  lemma OnlyIsWritten(b: Token, k: Stream)
    requires IsAtom(b)
    ensures BodyInGrammar(Only(b)) && More(LBrace, YieldBody(Only(b), k)) == Braced(b, k)
  {
    var item := ExprItem(Atom(b), BySemicolon);
    assert Only(b)[1..] == [] && ItemInGrammar(item);
    assert YieldItem(item, More(RBrace, k)) == More(b, More(Semicolon, More(RBrace, k)));
  }

  /** `while a { b; }` and `do { b; } while a`. */
  lemma WhileForms(a: Token, b: Token, k: Stream)
    requires IsAtom(a) && IsAtom(b) && Stops(k)
    ensures Parse(More(KwWhile, More(a, Braced(b, k)))) == Ok(While(Atom(a), Only(b)), k)
    ensures Parse(More(KwDo, Braced(b, More(KwWhile, More(a, k))))) == Ok(DoWhile(Only(b), Atom(a)), k)
  {
    hide Parse, Stops, IsAtom, Only, BodyInGrammar, YieldBody;
    WriteAtom(a, Braced(b, k));
    WriteAtom(a, k);
    OnlyIsWritten(b, k);
    OnlyIsWritten(b, More(KwWhile, More(a, k)));
    Reads(While(Atom(a), Only(b)), More(KwWhile, More(a, Braced(b, k))), k);
    Reads(DoWhile(Only(b), Atom(a)), More(KwDo, Braced(b, More(KwWhile, More(a, k)))), k);
  }

  /** `if a { b; } else { c; }`, and `if a { b; }` where no `else` follows. */
  lemma IfForms(a: Token, b: Token, c: Token, k: Stream)
    requires IsAtom(a) && IsAtom(b) && IsAtom(c) && Stops(k)
    ensures Parse(More(KwIf, More(a, Braced(b, More(KwElse, Braced(c, k)))))) ==
            Ok(If(Atom(a), Only(b), Some(Block(Only(c)))), k)
    ensures k.End? || k.head != KwElse ==>
              Parse(More(KwIf, More(a, Braced(b, k)))) == Ok(If(Atom(a), Only(b), None), k)
  {
    hide Parse, Stops, IsAtom, Only, BodyInGrammar, YieldBody;
    var els := More(KwElse, Braced(c, k));
    WriteAtom(a, Braced(b, els));
    WriteAtom(a, Braced(b, k));
    OnlyIsWritten(b, els);
    OnlyIsWritten(b, k);
    OnlyIsWritten(c, k);
    assert InGrammar(Block(Only(c))) && Yield(Block(Only(c)), k) == Braced(c, k);
    var e := If(Atom(a), Only(b), Some(Block(Only(c))));
    assert InGrammar(e);
    assert !Dangles(e);
    assert Yield(e, k) == More(KwIf, Yield(Atom(a), More(LBrace, YieldBody(Only(b), els))));
    Reads(e, More(KwIf, More(a, Braced(b, els))), k);
    if k.End? || k.head != KwElse {
      ReadsOpen(If(Atom(a), Only(b), None), More(KwIf, More(a, Braced(b, k))), k);
    }
  }

  /** An open `if` is read as well, unless an `else` follows. */
  lemma ReadsOpen(e: Expr, ts: Stream, k: Stream)
    requires Yield(e, k) == ts && InGrammar(e) && Stops(k) && (k.End? || k.head != KwElse)
    ensures Parse(ts) == Ok(e, k)
  {
    hide InGrammar, Yield;
    assert HeadPrecedence(k) == 0 && Ends(e, k);
    ParserDecidesGrammar(ASSIGNMENT, ts, e, k);
  }

  lemma FirstOfAtom(a: Token)
    requires IsAtom(a)
    ensures First(Atom(a)) != LBrace
  {
  }

  /** The clauses of a loop with an initializer that is written as `head` before `tail`. */
  lemma ForClausesForm(init: Option<Item>, head: Stream, a: Token, u: Token, b: Token, k: Stream)
    requires IsAtom(a) && IsAtom(u) && IsAtom(b) && Stops(k) && (init.Some? ==> InitInGrammar(init.value))
    requires YieldInit(init, More(a, More(Semicolon, More(u, Braced(b, k))))) == head
    ensures Parse(More(KwFor, head)) == Ok(For(false, init, Some(Atom(a)), Some(Atom(u)), Only(b)), k)
  {
    hide Parse, Stops, IsAtom, Only, BodyInGrammar, YieldBody, InitInGrammar, YieldInit, First;
    var rest := More(u, Braced(b, k));
    WriteAtom(a, More(Semicolon, rest));
    WriteAtom(u, Braced(b, k));
    FirstOfAtom(u);
    OnlyIsWritten(b, k);
    assert YieldOption(Some(Atom(u)), Braced(b, k)) == rest;
    assert YieldOption(Some(Atom(a)), More(Semicolon, rest)) == More(a, More(Semicolon, rest));
    Reads(For(false, init, Some(Atom(a)), Some(Atom(u)), Only(b)), More(KwFor, head), k);
  }

  /** `for x; a; u { b; }`. */
  lemma ForForm(x: Token, a: Token, u: Token, b: Token, k: Stream)
    requires IsAtom(x) && IsAtom(a) && IsAtom(u) && IsAtom(b) && Stops(k)
    ensures Parse(More(KwFor, More(x, More(Semicolon, More(a, More(Semicolon, More(u, Braced(b, k)))))))) ==
            Ok(For(false, Some(ExprItem(Atom(x), BySemicolon)), Some(Atom(a)), Some(Atom(u)), Only(b)), k)
  {
    hide Parse, Stops, IsAtom, Only, First;
    var tail := More(a, More(Semicolon, More(u, Braced(b, k))));
    var first := ExprItem(Atom(x), BySemicolon);
    WriteAtom(x, More(Semicolon, tail));
    FirstOfAtom(x);
    assert InitInGrammar(first) && YieldInit(Some(first), tail) == More(x, More(Semicolon, tail));
    hide InGrammar, InitInGrammar, YieldInit, Writes, Braced;
    ForClausesForm(Some(first), More(x, More(Semicolon, tail)), a, u, b, k);
  }

  /** `for var n = x; a; u { b; }`. */
  lemma ForVarForm(n: string, x: Token, a: Token, u: Token, b: Token, k: Stream)
    requires IsAtom(x) && IsAtom(a) && IsAtom(u) && IsAtom(b) && Stops(k)
    ensures var tail := More(Semicolon, More(a, More(Semicolon, More(u, Braced(b, k)))));
            Parse(More(KwFor, More(KwVar, More(Identifier(n), More(Becomes, More(x, tail)))))) ==
            Ok(For(false, Some(Decl(false, n, Some(Atom(x)), BySemicolon)), Some(Atom(a)), Some(Atom(u)), Only(b)), k)
  {
    hide Parse, Stops, IsAtom, Only, First;
    var tail := More(a, More(Semicolon, More(u, Braced(b, k))));
    var decl := Decl(false, n, Some(Atom(x)), BySemicolon);
    var head := More(KwVar, More(Identifier(n), More(Becomes, More(x, More(Semicolon, tail)))));
    WriteAtom(x, More(Semicolon, tail));
    assert InitInGrammar(decl) && YieldInit(Some(decl), tail) == head;
    hide InGrammar, InitInGrammar, YieldInit, Writes, Braced;
    ForClausesForm(Some(decl), head, a, u, b, k);
  }

  /** `for a { b; }` and `for ; ; { b; }`. */
  lemma ShortForms(a: Token, b: Token, k: Stream)
    requires IsAtom(a) && IsAtom(b) && Stops(k)
    ensures Parse(More(KwFor, More(a, Braced(b, k)))) == Ok(For(true, None, Some(Atom(a)), None, Only(b)), k)
    ensures Parse(More(KwFor, More(Semicolon, More(Semicolon, Braced(b, k))))) ==
            Ok(For(false, None, None, None, Only(b)), k)
  {
    hide Parse, Stops, IsAtom, Only, BodyInGrammar, YieldBody, First;
    WriteAtom(a, Braced(b, k));
    FirstOfAtom(a);
    OnlyIsWritten(b, k);
    assert YieldOption(Some(Atom(a)), Braced(b, k)) == More(a, Braced(b, k));
    var e, f := For(true, None, Some(Atom(a)), None, Only(b)), For(false, None, None, None, Only(b));
    assert InGrammar(e) && InGrammar(f);
    assert Yield(e, k) == More(KwFor, More(a, Braced(b, k)));
    assert Yield(f, k) == More(KwFor, More(Semicolon, More(Semicolon, Braced(b, k))));
    Reads(e, More(KwFor, More(a, Braced(b, k))), k);
    Reads(f, More(KwFor, More(Semicolon, More(Semicolon, Braced(b, k)))), k);
  }

  /** `[a, b]`, `[a, b, ]`, `f(a, b)` and `(a)`. */
  lemma ListForms(f: Token, a: Token, b: Token, k: Stream)
    requires IsAtom(f) && IsAtom(a) && IsAtom(b) && Stops(k)
    ensures Parse(More(LBracket, More(a, More(Comma, More(b, More(RBracket, k)))))) ==
            Ok(List([Atom(a), Atom(b)], false), k)
    ensures Parse(More(LBracket, More(a, More(Comma, More(b, More(Comma, More(RBracket, k))))))) ==
            Ok(List([Atom(a), Atom(b)], true), k)
    ensures Parse(More(f, More(LParen, More(a, More(Comma, More(b, More(RParen, k))))))) ==
            Ok(Call(Atom(f), [Atom(a), Atom(b)], false), k)
    ensures Parse(More(LParen, More(a, More(RParen, k)))) == Ok(Group(Atom(a)), k)
  {
    hide Parse, Stops, IsAtom;
    TwoArgs(a, b, false, RBracket, k);
    TwoArgs(a, b, true, RBracket, k);
    TwoArgs(a, b, false, RParen, k);
    WriteAtom(a, More(RParen, k));
    WriteAtom(f, More(LParen, More(a, More(Comma, More(b, More(RParen, k))))));
    hide YieldArgs, AllInGrammar;
    Reads(List([Atom(a), Atom(b)], false), More(LBracket, More(a, More(Comma, More(b, More(RBracket, k))))), k);
    Reads(List([Atom(a), Atom(b)], true),
      More(LBracket, More(a, More(Comma, More(b, More(Comma, More(RBracket, k)))))), k);
    Reads(Call(Atom(f), [Atom(a), Atom(b)], false),
      More(f, More(LParen, More(a, More(Comma, More(b, More(RParen, k)))))), k);
    Reads(Group(Atom(a)), More(LParen, More(a, More(RParen, k))), k);
  }

  lemma TwoArgs(a: Token, b: Token, comma: bool, close: Token, k: Stream)
    requires IsAtom(a) && IsAtom(b)
    ensures AllInGrammar([Atom(a), Atom(b)])
    ensures YieldArgs([Atom(a), Atom(b)], comma, close, k) ==
            More(a, More(Comma, More(b, if comma then More(Comma, More(close, k)) else More(close, k))))
  {
    var es, last := [Atom(a), Atom(b)], [Atom(b)];
    assert es[1..] == last && last[1..] == [];
    assert AllInGrammar([]) && InGrammar(Atom(a)) && InGrammar(Atom(b));
    assert AllInGrammar(last);
    assert YieldArgs([], comma, close, k) == More(close, k);
    assert YieldArgs(last, comma, close, k) == More(b, if comma then More(Comma, More(close, k)) else More(close, k));
  }

  /** `var n = a;`, `const n = a;` and `var n` at a line end, as whole texts. */
  lemma DeclarationForms(n: string, a: Token)
    requires IsAtom(a)
    ensures Program(More(KwVar, More(Identifier(n), More(Becomes, More(a, More(Semicolon, End)))))) ==
            Ok([Decl(false, n, Some(Atom(a)), BySemicolon)], End)
    ensures Program(More(KwConst, More(Identifier(n), More(Becomes, More(a, More(Semicolon, End)))))) ==
            Ok([Decl(true, n, Some(Atom(a)), BySemicolon)], End)
    ensures Program(More(KwVar, More(Identifier(n), More(VirtualSemicolon, End)))) ==
            Ok([Decl(false, n, None, ByVirtual)], End)
  {
    hide Program;
    OneItem(Decl(false, n, Some(Atom(a)), BySemicolon));
    OneItem(Decl(true, n, Some(Atom(a)), BySemicolon));
    OneItem(Decl(false, n, None, ByVirtual));
  }

  /** `return a;`, `break;` and `continue` at the end of the text. */
  lemma FlowForms(a: Token)
    requires IsAtom(a)
    ensures Program(More(KwReturn, More(a, More(Semicolon, End)))) ==
            Ok([Flow(KwReturn, Some(Atom(a)), BySemicolon)], End)
    ensures Program(More(KwBreak, More(Semicolon, End))) == Ok([Flow(KwBreak, None, BySemicolon)], End)
    ensures Program(More(KwContinue, End)) == Ok([Flow(KwContinue, None, ByEof)], End)
  {
    hide Program, ProgramFrom;
    var ret := Flow(KwReturn, Some(Atom(a)), BySemicolon);
    WriteAtom(a, More(Semicolon, End));
    assert ItemInGrammar(ret) && YieldItem(ret, End) == More(KwReturn, More(a, More(Semicolon, End)));
    OneItem(ret);
    OneItem(Flow(KwBreak, None, BySemicolon));
    OneItem(Flow(KwContinue, None, ByEof));
  }

  /** `print a, b;`. */
  lemma PrintForm(a: Token, b: Token)
    requires IsAtom(a) && IsAtom(b)
    ensures Program(More(KwPrint, More(a, More(Comma, More(b, More(Semicolon, End)))))) ==
            Ok([Print([Atom(a), Atom(b)], BySemicolon)], End)
  {
    TwoArgs(a, b, false, RParen, End);
    TwoPrinted(a, b);
    hide Program, YieldItem, AllInGrammar;
    OneItem(Print([Atom(a), Atom(b)], BySemicolon));
  }

  lemma TwoPrinted(a: Token, b: Token)
    ensures YieldItem(Print([Atom(a), Atom(b)], BySemicolon), End) ==
            More(KwPrint, More(a, More(Comma, More(b, More(Semicolon, End)))))
  {
    var es, last := [Atom(a), Atom(b)], [Atom(b)];
    assert es[1..] == last;
    assert YieldPrint(last, More(Semicolon, End)) == More(b, More(Semicolon, End));
    assert YieldPrint(es, More(Semicolon, End)) == More(a, More(Comma, More(b, More(Semicolon, End))));
  }

  lemma OneItem(item: Item)
    requires ItemInGrammar(item)
    ensures Program(YieldItem(item, End)) == Ok([item], End)
  {
    hide ItemInGrammar, YieldItem, Program;
    assert [item][1..] == [];
    assert YieldProgram([]) == End && ProgramInGrammar([]);
    ProgramDecidesGrammar(YieldItem(item, End), [item]);
  }
}
