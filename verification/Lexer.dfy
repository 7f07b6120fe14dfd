/**
The lexer as the C code runs it: a cursor over the source with line and column, the kind of the latest token, and a
stack of frames that counts open parentheses and brackets. `log` and `tiles` are ghost records of a whole run.
*/
module Lexer {
  import opened Wrappers
  import opened Lexemes
  import opened Numerals

  datatype Token = Token(kind: Kind, from: nat, to: nat, line: nat, col: nat, value: nat, message: string)

  /** A token as it was delivered, and whether a virtual semicolon was delivered just before it. */
  datatype Entry = Entry(kind: Kind, from: nat, to: nat, virtual: bool)

  datatype Cover = Gap | Comment | Text
  /** A stretch of the source and what it is. */
  datatype Tile = Tile(cover: Cover, from: nat, to: nat)

  function Kinds(log: seq<Entry>): seq<Kind> {
    seq(|log|, i requires 0 <= i < |log| => log[i].kind)
  }

  ghost predicate NewlineIn(src: string, from: nat, to: nat) {
    exists i :: from <= i < to <= |src| && src[i] == '\n'
  }

  ghost predicate WhiteIn(src: string, from: nat, to: nat) {
    from <= to <= |src| && forall i | from <= i < to :: White(src[i])
  }

  ghost predicate BlankIn(src: string, from: nat, to: nat) {
    from <= to <= |src| && forall i | from <= i < to :: Blank(src[i])
  }

  /**
  Where virtual semicolons stand: between consecutive tokens `t` and `u` exactly when `t` can end a statement, no `(`
  or `[` is open since the innermost open `{`, and a newline or the `}` follows. Between tokens there is only white
  space. Asked for as long as the brackets nest.
  */
  ghost predicate Rules(src: string, log: seq<Entry>) {
    log != [] ==>
      var before := log[..|log| - 1];
      var u := log[|log| - 1];
      Rules(src, before) && RuleAt(src, before, u)
  }

  ghost predicate RuleAt(src: string, before: seq<Entry>, u: Entry) {
    && (before == [] ==> !u.virtual)
    && (before != [] && Nest(Kinds(before)).Some? ==>
          var t := before[|before| - 1];
          && WhiteIn(src, t.to, u.from)
          && (u.virtual <==> Terminator(t.kind) && Flat(Nest(Kinds(before)).value)
                             && (NewlineIn(src, t.to, u.from) || u.kind == RBRACE)))
  }

  /** The tiles lie side by side, end at `n`, and each is what it says. */
  ghost predicate Tiled(src: string, tiles: seq<Tile>, n: nat) {
    if tiles == [] then n == 0
    else
      var last := tiles[|tiles| - 1];
      last.to == n && IsTile(src, last) && Tiled(src, tiles[..|tiles| - 1], last.from)
  }

  ghost predicate IsTile(src: string, tile: Tile) {
    && tile.from < tile.to <= |src|
    && match tile.cover
       case Gap => WhiteIn(src, tile.from, tile.to)
       case Comment => IsComment(src, tile.from)
       case Text => !White(src[tile.from])
  }

  lemma MoreTiles(src: string, tiles: seq<Tile>, n: nat, tile: Tile)
    requires Tiled(src, tiles, n) && IsTile(src, tile) && tile.from == n
    ensures Tiled(src, tiles + [tile], tile.to)
  {
    hide IsTile;
    assert (tiles + [tile])[..|tiles|] == tiles;
  }

  /** Every character lies in exactly one tile. */
  lemma {:induction false} OneTileEach(src: string, tiles: seq<Tile>, n: nat, i: nat)
    requires Tiled(src, tiles, n) && i < n
    ensures exists k :: 0 <= k < |tiles| && tiles[k].from <= i < tiles[k].to
    ensures forall k, m | 0 <= k < |tiles| && 0 <= m < |tiles|
                          && tiles[k].from <= i < tiles[k].to && tiles[m].from <= i < tiles[m].to :: k == m
  {
    var last := |tiles| - 1;
    TilesBelow(src, tiles[..last], tiles[last].from);
    if i >= tiles[last].from {
      assert tiles[last].from <= i < tiles[last].to;
    } else {
      OneTileEach(src, tiles[..last], tiles[last].from, i);
      assert forall k | 0 <= k < last :: tiles[..last][k] == tiles[k];
    }
    assert forall k | 0 <= k < last :: tiles[k] == tiles[..last][k] && tiles[k].to <= tiles[last].from;
  }

  lemma {:induction false} TilesBelow(src: string, tiles: seq<Tile>, n: nat)
    requires Tiled(src, tiles, n)
    ensures forall k | 0 <= k < |tiles| :: tiles[k].to <= n && IsTile(src, tiles[k])
  {
    hide IsTile;
    if tiles != [] {
      var last := |tiles| - 1;
      assert tiles[last].from < n by { assert IsTile(src, tiles[last]); TileNotEmpty(src, tiles[last]); }
      TilesBelow(src, tiles[..last], tiles[last].from);
      assert forall k | 0 <= k < last :: tiles[k] == tiles[..last][k];
    }
  }

  lemma TileNotEmpty(src: string, tile: Tile)
    requires IsTile(src, tile)
    ensures tile.from < tile.to
  {
  }

  /** The rule, read off a log at any place. */
  lemma {:induction false} VirtualSemicolons(src: string, log: seq<Entry>, k: nat)
    requires Rules(src, log) && 0 < k < |log| && Nest(Kinds(log[..k])).Some?
    ensures log[k].virtual <==>
              && Terminator(log[k - 1].kind) && Flat(Nest(Kinds(log[..k])).value)
              && (NewlineIn(src, log[k - 1].to, log[k].from) || log[k].kind == RBRACE)
    ensures WhiteIn(src, log[k - 1].to, log[k].from)
  {
    hide Nest, Kinds, Flat, Terminator;
    var before := log[..|log| - 1];
    if k < |log| - 1 {
      assert before[..k] == log[..k];
      VirtualSemicolons(src, before, k);
    }
  }

  lemma KindsAppend(log: seq<Entry>, e: Entry)
    ensures Kinds(log + [e]) == Kinds(log) + [e.kind]
    ensures (log + [e])[..|log|] == log
    ensures Nest(Kinds(log + [e])) ==
            if Nest(Kinds(log)).None? then None else Turn(Nest(Kinds(log)).value, e.kind)
  {
    assert (Kinds(log) + [e.kind])[..|log|] == Kinds(log);
    assert Kinds(log + [e]) == Kinds(log) + [e.kind];
  }

  /** The frames mirror the open brackets of a well-nested log. */
  ghost predicate Mirrors(frames: Option<seq<Frame>>, log: seq<Entry>) {
    var nest := Nest(Kinds(log));
    nest.Some? ==> OpenBrackets(nest.value) && frames == Some(FramesOf(nest.value))
  }

  /** The frames after a token, unless an assertion about the brackets fails or has failed. */
  function Step(frames: Option<seq<Frame>>, kind: Kind): (r: Option<seq<Frame>>)
    ensures !Bracket(kind) ==> r == frames
  {
    if frames.None? then None else Moved(frames.value, kind)
  }

  /** Kinds that a word can have, and EOF for a word that is not in a table. */
  type PlainKind = kind: Kind | Plain(kind) witness EOF

  predicate Plain(kind: Kind) {
    && !Bracket(kind) && kind != VSEMICOLON && kind != MAX && kind != ERROR
    && kind != LINE_COMMENT && kind != BLOCK_COMMENT
  }

  datatype Word = Word(text: string, kind: PlainKind, ignoreCase: bool)

  const KEYWORDS: seq<Word> := DECLARING + CONTROL + NAMING

  const DECLARING: seq<Word> := [
    Word("var", VAR, false), Word("const", CONST, false), Word("any", ANY, false), Word("if", IF, false),
    Word("else", ELSE, false), Word("match", MATCH, false), Word("case", CASE, false), Word("while", WHILE, false)
  ]

  const CONTROL: seq<Word> := [
    Word("do", DO, false), Word("for", FOR, false), Word("in", IN, false), Word("return", RETURN, false),
    Word("break", BREAK, false), Word("continue", CONTINUE, false), Word("fn", FN, false),
    Word("print", PRINT, false)
  ]

  const NAMING: seq<Word> := [
    Word("self", SELF, false), Word("type", TYPE, false),
    Word("interface", INTERFACE, false), Word("extend", EXTEND, false), Word("or", KW_OR, false),
    Word("and", KW_AND, false), Word("not", KW_NOT, false)
  ]

  const VALUES: seq<Word> := [
    Word("true", TRUE, false), Word("false", FALSE, false), Word("null", NULL, false), Word("nan", NAN, true),
    Word("inf", INF, true), Word("infinity", INF, true)
  ]

  function Lower(c: char): char {
    if 'A' <= c <= 'Z' then c - 'A' + 'a' else c
  }

  predicate SameIgnoringCase(a: string, b: string) {
    |a| == |b| && forall i | 0 <= i < |a| :: Lower(a[i]) == Lower(b[i])
  }

  predicate Spells(text: string, w: Word) {
    text == w.text || (w.ignoreCase && SameIgnoringCase(text, w.text))
  }

  /** The kind of the first word of the table that `text` spells. */
  function KindIn(text: string, table: seq<Word>): PlainKind {
    if table == [] then EOF else if Spells(text, table[0]) then table[0].kind else KindIn(text, table[1..])
  }

  function WordKind(text: string): (kind: PlainKind)
    ensures kind != EOF
  {
    hide KEYWORDS, VALUES, KindIn;
    if KindIn(text, KEYWORDS) != EOF then KindIn(text, KEYWORDS)
    else if KindIn(text, VALUES) != EOF then KindIn(text, VALUES)
    else IDENTIFIER
  }

  method Lookup(text: string, table: seq<Word>) returns (kind: PlainKind)
    ensures kind == KindIn(text, table)
  {
    for i := 0 to |table|
      invariant KindIn(text, table) == KindIn(text, table[i..])
    {
      if Spells(text, table[i]) {
        return table[i].kind;
      }
    }
    return EOF;
  }

  /** The closing mark of a block comment stands at `i`. */
  predicate ClosingMark(src: string, i: nat) {
    At(src, i) == '*' && At(src, i + 1) == '/'
  }

  /** Up to the end of the line. */
  predicate IsLineComment(src: string, from: nat, to: nat, t: Token) {
    && t.kind == LINE_COMMENT && t.from == from && t.to == to
    && from <= to <= |src| && '\n' !in src[from..to] && (to == |src| || src[to] == '\n' || src[to] == '\0')
  }

  /** Up to and including the first closing mark; without one, an error that runs to the end of the source. */
  ghost predicate IsBlockComment(src: string, from: nat, to: nat, t: Token) {
    && t.from == from && from <= t.to && (forall i | from <= i < t.to :: !ClosingMark(src, i))
    && if ClosingMark(src, t.to) then t.kind == BLOCK_COMMENT && to == t.to + 2
       else t.kind == ERROR && to == t.to == |src|
  }

  function BaseAt(src: string, i: nat): nat {
    if At(src, i) == '0' && At(src, i + 1) != '.' then
      (if Lower(At(src, i + 1)) == 'x' then 16 else if Lower(At(src, i + 1)) == 'b' then 2 else 8)
    else 10
  }

  function DigitsFrom(src: string, i: nat): nat {
    if BaseAt(src, i) in {2, 16} then i + 2 else i
  }

  predicate RadixDigit(base: nat, c: char): (digit: bool)
    ensures digit ==> HexDigit(c)
  {
    if base == 16 then HexDigit(c) else if base == 10 then Digit(c) else if base == 8 then OctalDigit(c)
    else BinaryDigit(c)
  }

  /** A longest run of digits of the base. */
  predicate DigitRun(src: string, from: nat, to: nat, base: nat): (run: bool)
    ensures run ==> from <= to <= |src| && Hex(src[from..to]) && (base == 2 ==> Binary(src[from..to]))
  {
    && from <= to <= |src| && (forall i | from <= i < to :: RadixDigit(base, src[i]))
    && !RadixDigit(base, At(src, to))
  }

  /** Where the digits from `i` on end. */
  function RunEnd(src: string, i: nat, base: nat): (end: nat)
    requires i <= |src|
    ensures DigitRun(src, i, end, base)
    decreases |src| - i
  {
    if RadixDigit(base, At(src, i)) then RunEnd(src, i + 1, base) else i
  }

  /** Where a fraction and an exponent end, each of which may be missing, and whether the exponent has a digit. */
  function FractionEnd(src: string, i: nat): (r: (nat, bool))
    requires i <= |src|
    ensures i <= r.0 <= |src| && (r.0 == i ==> r.1)
  {
    var a := if At(src, i) == '.' && !Alpha(At(src, i + 1)) then RunEnd(src, i + 1, 10) else i;
    if Lower(At(src, a)) != 'e' then (a, true)
    else
      var b := if At(src, a + 1) == '+' || At(src, a + 1) == '-' then a + 2 else a + 1;
      (RunEnd(src, b, 10), Digit(At(src, b)))
  }

  const OUT_OF_RANGE := "float literal out of range"

  /**
  A number: an error without a digit behind the prefix; a float with a fraction or an exponent, which needs a digit;
  else an integer, an error exactly when it does not fit 64 bits. Floats can also be out of range.
  */
  predicate IsNumber(src: string, from: nat, to: nat, t: Token) {
    var base, start := BaseAt(src, from), DigitsFrom(src, from);
    && from < to <= |src| && t.from == from && start <= |src|
    && var end := RunEnd(src, start, base);
       if end == start && base in {2, 16} then t.kind == ERROR && to == end
       else
         var (last, ok) := if base == 10 then FractionEnd(src, end) else (end, true);
         && to == last
         && if last != end then (t.kind == FLOAT && ok) || (t.kind == ERROR && (ok ==> t.message == OUT_OF_RANGE))
            else IsInteger(t, Value(src[start..end], base))
  }

  /** A float is delivered only in range, and its range reported only out of range. */
  predicate FloatRange(t: Token, inRange: bool) {
    (t.kind == FLOAT ==> inRange) && (t.kind == ERROR && t.message == OUT_OF_RANGE ==> !inRange)
  }

  predicate IsInteger(t: Token, value: nat) {
    if value > INT64_MAX as int then t.kind == ERROR else t.kind == INTEGER && t.value == value
  }

  predicate IsComment(src: string, i: nat) {
    At(src, i) == '/' && (At(src, i + 1) == '/' || At(src, i + 1) == '*')
  }

  ghost predicate IsString(src: string, from: nat, to: nat, t: Token)
    requires from < |src|
  {
    && t.from == from && t.kind == (if src[from] in src[from + 1..] then STRING else ERROR)
    && (t.kind == ERROR ==> to == |src|)
    && (t.kind == STRING ==> from + 1 < to <= |src| && src[to - 1] == src[from] && src[from] !in src[from + 1..to - 1])
  }

  /** What the token at `from` has to be, by its first characters; it takes the characters up to `to`. */
  ghost predicate IsLexeme(src: string, from: nat, to: nat, t: Token) {
    && from <= to <= |src|
    && if NumberAt(src, from) then IsNumber(src, from, to, t)
       else if WordChar(At(src, from)) then IsWord(src, from, to, t)
       else if from == |src| then t.kind == EOF && to == t.from == from
       else IsMark(src, from, to, t)
  }

  predicate NumberAt(src: string, i: nat) {
    Digit(At(src, i)) || (At(src, i) == '.' && Digit(At(src, i + 1)))
  }

  /** A word is as long as it can be, and a keyword or a value only if it is in the table. */
  predicate IsWord(src: string, from: nat, to: nat, t: Token) {
    && from < to <= |src| && (forall i | from <= i < to :: WordChar(src[i])) && !WordChar(At(src, to))
    && t.from == from && t.kind == WordKind(src[from..to])
  }

  /** The operator that starts with `c` was taken, the last `n` characters of it behind `c`. */
  predicate Took(kind: Kind, c: char, d: char, e: char, n: int) {
    kind == Operator(c, d, e).0 && n == if kind == ERROR then 0 else Operator(c, d, e).1 - 1
  }

  ghost predicate IsMark(src: string, from: nat, to: nat, t: Token)
    requires from < |src|
  {
    && from < to <= |src|
    && var c := src[from];
       if IsComment(src, from) then
         if src[from + 1] == '*' then IsBlockComment(src, from + 2, to, t) else IsLineComment(src, from + 2, to, t)
       else if c == '"' || c == '\'' then
         IsString(src, from, to, t)
       else
         && t.from == from && t.kind == OperatorAt(src, from).0
         && to == from + if t.kind == ERROR then 1 else OperatorAt(src, from).1
  }

  lemma NotComment(src: string, i: nat)
    ensures i == |src| || NumberAt(src, i) || WordChar(At(src, i)) ==> !IsComment(src, i)
    ensures NumberAt(src, i) || WordChar(At(src, i)) ==> i < |src|
  {
  }

  lemma LexemeIsNumber(src: string, from: nat, to: nat, t: Token)
    requires NumberAt(src, from) && IsNumber(src, from, to, t)
    ensures IsLexeme(src, from, to, t)
  {
    NumberIsNumber(src, from, to, t);
    hide IsNumber, NumberAt;
  }

  lemma LexemeIsWord(src: string, from: nat, to: nat, t: Token)
    requires !NumberAt(src, from) && WordChar(At(src, from)) && IsWord(src, from, to, t)
    ensures IsLexeme(src, from, to, t)
  {
    hide WordKind, WordChar, NumberAt;
  }

  lemma LexemeIsEnd(src: string, t: Token)
    requires t.kind == EOF && t.from == |src|
    ensures IsLexeme(src, |src|, |src|, t)
  {
  }

  lemma LexemeIsMark(src: string, from: nat, to: nat, t: Token)
    requires from < to <= |src| && !NumberAt(src, from) && !WordChar(At(src, from)) && IsMark(src, from, to, t)
    ensures IsLexeme(src, from, to, t)
  {
    hide IsMark, WordChar, NumberAt;
  }

  /** What a number starts with; a point at the start is followed by a digit and means base ten. */
  lemma NumberHead(src: string, i: nat)
    requires NumberAt(src, i)
    ensures Digit(At(src, i)) || At(src, i) == '.'
    ensures At(src, i) == '.' ==> !Alpha(At(src, i + 1)) && BaseAt(src, i) == 10
    ensures BaseAt(src, i) == 10 ==> DigitsFrom(src, i) == i
  {
  }

  lemma OtherError(t: Token, inRange: bool)
    requires t.kind == ERROR && (t.message == "invalid hex literal" || t.message == "invalid binary literal")
    ensures FloatRange(t, inRange)
  {
    assert |t.message| != |OUT_OF_RANGE|;
  }

  lemma NoDigits(src: string, i: nat, to: nat)
    requires DigitsFrom(src, i) == to && DigitRun(src, to, to, BaseAt(src, i))
    ensures !RadixDigit(BaseAt(src, i), At(src, to))
  {
    hide RadixDigit, At;
  }

  lemma PointIsFraction(src: string, i: nat)
    requires i <= |src|
    ensures At(src, i) == '.' && !Alpha(At(src, i + 1)) ==> FractionEnd(src, i).0 != i
  {
    hide RunEnd, Alpha;
  }

  lemma SkippedWord(src: string, from: nat, to: nat, t: Token)
    requires from <= to <= |src| && WordChar(At(src, from)) && !WordChar(At(src, to))
    requires (forall i | from <= i < to :: WordChar(src[i])) && t.from == from && t.kind == WordKind(src[from..to])
    ensures IsWord(src, from, to, t)
  {
    hide WordKind, WordChar;
  }

  lemma {:induction false} RunIs(src: string, i: nat, end: nat, base: nat)
    requires DigitRun(src, i, end, base)
    ensures RunEnd(src, i, base) == end
    decreases end - i
  {
    if i < end {
      RunIs(src, i + 1, end, base);
    }
  }

  lemma NumberIsNumber(src: string, from: nat, to: nat, t: Token)
    requires IsNumber(src, from, to, t)
    ensures from < to <= |src| && t.from == from && (t.kind == INTEGER || t.kind == FLOAT || t.kind == ERROR)
  {
    hide RunEnd, FractionEnd, Value;
  }

  lemma BadPrefix(src: string, from: nat, to: nat, t: Token)
    requires from < to <= |src| && t.from == from && t.kind == ERROR && BaseAt(src, from) in {2, 16}
    requires DigitsFrom(src, from) == to && !RadixDigit(BaseAt(src, from), At(src, to))
    ensures IsNumber(src, from, to, t)
  {
    hide FractionEnd, Value, IsInteger;
  }

  /** A base prefix without a digit behind it. */
  lemma RadixAlone(src: string, from: nat, to: nat, t: Token, inRange: bool)
    requires from < to <= |src| && t.from == from && t.kind == ERROR && BaseAt(src, from) in {2, 16}
    requires t.message == "invalid hex literal" || t.message == "invalid binary literal"
    requires DigitsFrom(src, from) == to && DigitRun(src, to, to, BaseAt(src, from))
    ensures IsNumber(src, from, to, t) && FloatRange(t, inRange)
  {
    hide BaseAt, DigitsFrom, DigitRun, IsNumber, FloatRange, RadixDigit, At;
    OtherError(t, inRange);
    NoDigits(src, from, to);
    BadPrefix(src, from, to, t);
  }

  lemma WholeNumber(src: string, from: nat, to: nat, t: Token)
    requires from < to <= |src| && t.from == from
    requires var start, base := DigitsFrom(src, from), BaseAt(src, from);
             && DigitRun(src, start, to, base) && (base in {2, 16} ==> start < to)
             && IsInteger(t, Value(src[start..to], base))
    requires BaseAt(src, from) == 10 ==> FractionEnd(src, to).0 == to
    ensures IsNumber(src, from, to, t)
  {
    RunIs(src, DigitsFrom(src, from), to, BaseAt(src, from));
    hide RunEnd, FractionEnd, DigitRun, Value, IsInteger, BaseAt, DigitsFrom;
  }

  lemma FloatNumber(src: string, from: nat, end: nat, to: nat, t: Token)
    requires from < to <= |src| && t.from == from && end != to && BaseAt(src, from) == 10
    requires DigitRun(src, DigitsFrom(src, from), end, 10) && FractionEnd(src, end).0 == to
    requires if FractionEnd(src, end).1 then t.kind == FLOAT || (t.kind == ERROR && t.message == OUT_OF_RANGE)
             else t.kind == ERROR
    ensures IsNumber(src, from, to, t)
  {
    RunIs(src, DigitsFrom(src, from), end, 10);
    hide RunEnd, FractionEnd, DigitRun, Value, IsInteger, BaseAt, DigitsFrom;
  }

  lemma StringIsOpen(src: string, from: nat, t: Token)
    requires from < |src| && (forall i | from < i < |src| :: src[i] != src[from]) && t.from == from && t.kind == ERROR
    ensures IsString(src, from, |src|, t)
  {
  }

  lemma StringIsClosed(src: string, from: nat, end: nat, t: Token)
    requires from < end < |src| && src[end] == src[from] && (forall i | from < i < end :: src[i] != src[from])
    requires t.from == from && t.kind == STRING
    ensures IsString(src, from, end + 1, t)
  {
    assert src[from + 1..][end - from - 1] == src[end];
  }

  lemma MarkIsComment(src: string, from: nat, to: nat, t: Token)
    requires from + 2 <= to <= |src| && IsComment(src, from)
    requires if src[from + 1] == '*' then IsBlockComment(src, from + 2, to, t) else IsLineComment(src, from + 2, to, t)
    ensures IsMark(src, from, to, t)
  {
  }

  lemma OtherKeepsFrames(frames: Option<seq<Frame>>, kind: Kind)
    requires !Bracket(kind)
    ensures Step(frames, kind) == frames
  {
  }

  lemma MarkIsOther(src: string, from: nat, to: nat, t: Token)
    requires from < to <= |src| && !IsComment(src, from)
    requires if src[from] == '"' || src[from] == '\'' then IsString(src, from, to, t)
             else t.from == from && t.kind == OperatorAt(src, from).0
                  && to == from + if t.kind == ERROR then 1 else OperatorAt(src, from).1
    ensures IsMark(src, from, to, t)
  {
    hide Operator, IsString;
  }

  /** What is known at the cursor, between two calls, about the token to come. */
  ghost predicate Between(src: string, log: seq<Entry>, pending: bool, cur: nat) {
    && (pending ==> log != [])
    && (log != [] ==>
          var t := log[|log| - 1];
          && WhiteIn(src, t.to, cur)
          && (!pending ==> BlankIn(src, t.to, cur))
          && (pending && Nest(Kinds(log)).Some? ==>
                Terminator(t.kind) && Flat(Nest(Kinds(log)).value) && At(src, cur) in {'\n', '}'}))
  }

  method Classify(word: string) returns (kind: PlainKind)
    ensures kind == WordKind(word)
  {
    hide KEYWORDS, VALUES, KindIn;
    kind := Lookup(word, KEYWORDS);
    if kind == EOF {
      kind := Lookup(word, VALUES);
    }
    if kind == EOF {
      kind := IDENTIFIER;
    }
  }

  class SnukLexer {
    const src: string
    const floatInRange: string -> bool

    var cur: nat
    var tokenStart: nat
    var tokenStartLine: nat
    var tokenStartCol: nat
    var line: nat
    var col: nat
    var previous: Kind
    /** None once an assertion about the brackets has failed. */
    var frames: Option<seq<Frame>>

    ghost var log: seq<Entry>
    ghost var tiles: seq<Tile>
    /** A virtual semicolon was delivered and the token after it was not yet. */
    ghost var pending: bool
    /** The source had a comment up to here. */
    ghost var commented: bool
    ghost var calls: nat
    ghost var ended: bool

    /** Line and column are those of the cursor. */
    ghost predicate Placed()
      reads this
    {
      cur <= |src| && line == Lines(src, cur) && col == Column(src, cur)
    }

    ghost predicate Recorded()
      reads this
    {
      && Tiled(src, tiles, cur)
      && Mirrors(frames, log)
      && (pending ==> previous == VSEMICOLON)
      && (!commented ==> Rules(src, log) && Between(src, log, pending, cur))
      && (!commented && !pending ==> previous == if log == [] then MAX else log[|log| - 1].kind)
      && (!ended ==> calls + (if Terminator(previous) then 1 else 0) <= 2 * cur)
    }

    ghost predicate Valid()
      reads this
    {
      '\0' !in src && Placed() && Recorded()
    }

    constructor (source: string, inRange: string -> bool)
      requires '\0' !in source
      ensures Valid() && src == source && cur == 0 && calls == 0 && !ended && log == [] && !commented
    {
      src, floatInRange := source, inRange;
      cur, tokenStart, tokenStartLine, tokenStartCol, line, col := 0, 0, 0, 0, 0, 0;
      previous, frames := MAX, Some([Frame(0, 0)]);
      log, tiles, pending, commented, calls, ended := [], [], false, false, 0, false;
    }

    function Peek(): char
      reads this
    {
      At(src, cur)
    }

    function PeekNext(): char
      reads this
    {
      At(src, cur + 1)
    }

    method Advance() returns (c: char)
      requires Placed()
      modifies this`cur, this`line, this`col
      ensures Placed() && c == old(Peek())
      ensures cur == if old(cur) < |src| then old(cur) + 1 else old(cur)
    {
      if cur == |src| {
        return '\0';
      }
      c := src[cur];
      cur := cur + 1;
      if c == '\n' {
        col := 0;
        line := line + 1;
      } else {
        col := col + 1;
      }
    }

    method Match(expected: char) returns (taken: bool)
      requires Placed() && expected != '\0'
      modifies this`cur, this`line, this`col
      ensures Placed()
      ensures taken == (old(Peek()) == expected)
      ensures cur == if taken then old(cur) + 1 else old(cur)
    {
      if Peek() != expected {
        return false;
      }
      var _ := Advance();
      return true;
    }

    /** The loops that run over characters of one class; `'\0'` is in none of them. */
    method SkipWhile(inClass: char -> bool)
      requires Placed() && !inClass('\0')
      modifies this`cur, this`line, this`col
      ensures Placed() && old(cur) <= cur
      ensures forall i | old(cur) <= i < cur :: inClass(src[i])
      ensures !inClass(Peek())
    {
      while inClass(Peek())
        invariant Placed() && old(cur) <= cur
        invariant forall i | old(cur) <= i < cur :: inClass(src[i])
        decreases |src| - cur
      {
        var _ := Advance();
      }
    }

    method Mark()
      modifies this`tokenStart, this`tokenStartLine, this`tokenStartCol
      ensures tokenStart == cur && tokenStartLine == line && tokenStartCol == col
    {
      tokenStart, tokenStartLine, tokenStartCol := cur, line, col;
    }

    method BuildToken(kind: Kind) returns (t: Token)
      modifies this`previous, this`frames
      ensures previous == kind && frames == Step(old(frames), kind)
      ensures t == Token(kind, tokenStart, cur, tokenStartLine, tokenStartCol, 0, "")
    {
      previous := kind;
      frames := Step(frames, kind);
      t := Token(kind, tokenStart, cur, tokenStartLine, tokenStartCol, 0, "");
    }

    method BuildErrorToken(message: string) returns (t: Token)
      modifies this`previous
      ensures previous == ERROR && t == Token(ERROR, tokenStart, cur, line, col, 0, message)
    {
      previous := ERROR;
      t := Token(ERROR, tokenStart, cur, line, col, 0, message);
    }

    // -------------------------------------------------------------------------------------------------
    // Words, strings and comments

    method ScanWord() returns (t: Token)
      requires Placed() && WordChar(Peek())
      modifies this`cur, this`line, this`col, this`tokenStart, this`tokenStartLine, this`tokenStartCol
      modifies this`previous, this`frames
      ensures Placed() && old(cur) < cur && IsWord(src, old(cur), cur, t)
      ensures t.from == old(cur) && t.line == old(line) && t.col == old(col)
      ensures previous == t.kind && frames == old(frames) && !Bracket(t.kind)
    {
      hide WordKind, WordChar, IsWord, Step, Lines, Column, At, Digit, Alpha;
      ghost var from := cur;
      Mark();
      SkipWord();
      var kind := Classify(src[tokenStart..cur]);
      t := BuildToken(kind);
      SkippedWord(src, from, cur, t);
    }

    method SkipWord()
      requires Placed()
      modifies this`cur, this`line, this`col
      ensures Placed() && old(cur) <= cur && !WordChar(At(src, cur))
      ensures forall i | old(cur) <= i < cur :: WordChar(src[i])
    {
      assert !WordChar('\0');
      hide WordChar, Lines, Column, At;
      SkipWhile(WordChar);
    }

    method SkipToQuote(quote: char)
      requires Placed() && '\0' !in src
      modifies this`cur, this`line, this`col
      ensures Placed() && old(cur) <= cur && forall i | old(cur) <= i < cur :: src[i] != quote
      ensures cur < |src| ==> src[cur] == quote
    {
      hide Lines, Column;
      SkipWhile(c => c != quote && c != '\0');
    }

    /** The text from an opening quote to the first quote of the same kind; newlines are part of it. */
    method ScanString(quote: char) returns (t: Token)
      requires Placed() && '\0' !in src && tokenStart + 1 == cur && quote == src[tokenStart]
      modifies this`cur, this`line, this`col, this`previous, this`frames
      ensures Placed() && old(cur) <= cur && frames == old(frames) && previous == t.kind && !Bracket(t.kind)
      ensures t.from == tokenStart
      ensures IsString(src, tokenStart, cur, t)
      ensures t.kind == ERROR || (t.kind == STRING && t.line == tokenStartLine && t.col == tokenStartCol)
    {
      hide Lines, Column, Step, IsString, At;
      SkipToQuote(quote);
      if cur == |src| {
        t := BuildErrorToken("unterminated string");
        StringIsOpen(src, tokenStart, t);
      } else {
        t := CloseString();
      }
    }

    /** The closing quote. */
    method CloseString() returns (t: Token)
      requires Placed() && tokenStart < cur < |src| && src[cur] == src[tokenStart]
      requires forall i | tokenStart < i < cur :: src[i] != src[tokenStart]
      modifies this`cur, this`line, this`col, this`previous, this`frames
      ensures Placed() && old(cur) < cur && frames == old(frames) && previous == t.kind && t.kind == STRING
      ensures t.from == tokenStart && t.line == tokenStartLine && t.col == tokenStartCol
      ensures IsString(src, tokenStart, cur, t)
    {
      hide Lines, Column, Step, IsString, At;
      ghost var end := cur;
      var _ := Advance();
      t := BuildToken(STRING);
      StringIsClosed(src, tokenStart, end, t);
    }

    /** A comment whose opening characters have been taken. */
    method ScanComment(multiLine: bool) returns (t: Token)
      requires Placed()
      modifies this`cur, this`line, this`col, this`tokenStart, this`tokenStartLine, this`tokenStartCol
      modifies this`previous, this`frames, this`commented
      ensures Placed() && old(cur) <= cur && frames == old(frames) && commented && previous == t.kind
      ensures !Bracket(t.kind)
      ensures if multiLine then IsBlockComment(src, old(cur), cur, t) else IsLineComment(src, old(cur), cur, t)
    {
      hide IsBlockComment, IsLineComment, Lines, Column;
      commented := true;
      Mark();
      if multiLine {
        t := ScanBlock();
      } else {
        t := ScanLine();
      }
    }

    method ScanLine() returns (t: Token)
      requires Placed() && tokenStart == cur
      modifies this`cur, this`line, this`col, this`previous, this`frames
      ensures Placed() && old(cur) <= cur && frames == old(frames) && previous == t.kind && !Bracket(t.kind)
      ensures IsLineComment(src, old(cur), cur, t)
    {
      hide Lines, Column, Step;
      SkipWhile(c => c != '\n' && c != '\0');
      t := BuildToken(LINE_COMMENT);
    }

    method ScanBlock() returns (t: Token)
      requires Placed() && tokenStart == cur
      modifies this`cur, this`line, this`col, this`previous, this`frames
      ensures Placed() && old(cur) <= cur && frames == old(frames) && previous == t.kind && !Bracket(t.kind)
      ensures IsBlockComment(src, old(cur), cur, t)
    {
      hide Lines, Column;
      SkipToClosingMark();
      if cur == |src| {
        t := BuildErrorToken("unterminated multi-line comment");
        return;
      }
      t := BuildToken(BLOCK_COMMENT);
      var _ := Advance();
      var _ := Advance();
    }

    method SkipToClosingMark()
      requires Placed()
      modifies this`cur, this`line, this`col
      ensures Placed() && old(cur) <= cur
      ensures forall i | old(cur) <= i < cur :: !ClosingMark(src, i)
      ensures cur < |src| ==> ClosingMark(src, cur)
    {
      while cur < |src| && (Peek() != '*' || PeekNext() != '/')
        invariant Placed() && old(cur) <= cur
        invariant forall i | old(cur) <= i < cur :: !ClosingMark(src, i)
        decreases |src| - cur
      {
        var _ := Advance();
      }
    }

    // -------------------------------------------------------------------------------------------------
    // Numbers

    /**
    The base, its prefix and the digits. A leading zero that is not followed by a point always means base eight: the
    code's test for an octal digit looks at the zero itself.
    */
    method ScanRadix() returns (base: nat, ok: bool)
      requires Placed() && (Digit(Peek()) || Peek() == '.')
      modifies this`cur, this`line, this`col
      ensures Placed() && old(cur) <= cur && base == BaseAt(src, old(cur))
      ensures DigitRun(src, DigitsFrom(src, old(cur)), cur, base)
      ensures !ok <==> base in {2, 16} && cur == DigitsFrom(src, old(cur))
      ensures base != 10 || Digit(old(Peek())) ==> old(cur) < cur
      ensures old(Peek()) == '.' ==> cur == old(cur)
    {
      ghost var start := cur;
      base, ok := 10, true;
      if Peek() == '0' && PeekNext() != '.' {
        var mark := Lower(PeekNext());
        if mark == 'x' {
          var _ := Advance();
          var _ := Advance();
          base, ok := 16, HexDigit(Peek());
          SkipWhile(HexDigit);
        } else if mark == 'b' {
          var _ := Advance();
          var _ := Advance();
          base, ok := 2, BinaryDigit(Peek());
          SkipWhile(BinaryDigit);
        } else {
          base := 8;
          SkipWhile(OctalDigit);
        }
      } else {
        SkipWhile(Digit);
      }
    }

    /** A fraction and an exponent, each of which may be missing. */
    method ScanFraction() returns (ok: bool)
      requires Placed()
      modifies this`cur, this`line, this`col
      ensures Placed() && (cur, ok) == FractionEnd(src, old(cur))
    {
      hide Lines, Column, RunEnd;
      ok := true;
      if Peek() == '.' && !Alpha(PeekNext()) {
        var _ := Advance();
        SkipDigits();
      }
      if Lower(Peek()) == 'e' {
        var _ := Advance();
        if Peek() == '+' || Peek() == '-' {
          var _ := Advance();
        }
        ok := Digit(Peek());
        SkipDigits();
      }
    }

    method SkipDigits()
      requires Placed()
      modifies this`cur, this`line, this`col
      ensures Placed() && cur == RunEnd(src, old(cur), 10) && old(cur) <= cur
    {
      hide Lines, Column, RunEnd;
      SkipWhile(Digit);
      RunIs(src, old(cur), cur, 10);
    }

    /** A number whose digits stand between `start` and the cursor, unless it does not fit 64 bits. */
    method BuildInteger(start: nat, base: nat) returns (t: Token)
      requires start <= cur <= |src| && DigitRun(src, start, cur, base)
      modifies this`previous
      ensures previous == t.kind && t.from == tokenStart && t.to == cur
      ensures IsInteger(t, Value(src[start..cur], base)) && !Bracket(t.kind)
      ensures t.kind == INTEGER ==> t.line == tokenStartLine && t.col == tokenStartCol
      ensures t.kind == ERROR ==> t.message != OUT_OF_RANGE
    {
      var value := Some(Value(src[start..cur], base));
      if base == 2 {
        var binary := BinaryValue(src[start..cur]);
        value := if binary.None? then None else Some(binary.value as int);
      } else if value.value > INT64_MAX as int {
        value := None;
      }
      if value.None? {
        t := BuildErrorToken("integer literal out of range");
        return;
      }
      previous := INTEGER;
      t := Token(INTEGER, tokenStart, cur, tokenStartLine, tokenStartCol, value.value, "");
    }

    method ScanNumber() returns (t: Token)
      requires Placed() && NumberAt(src, cur)
      modifies this`cur, this`line, this`col, this`tokenStart, this`tokenStartLine, this`tokenStartCol
      modifies this`previous
      ensures Placed() && old(cur) < cur && previous == t.kind && t.from == old(cur) && !Bracket(t.kind)
      ensures IsNumber(src, old(cur), cur, t)
      ensures FloatRange(t, floatInRange(src[old(cur)..cur]))
      ensures t.kind != ERROR ==> t.line == old(line) && t.col == old(col)
    {
      hide Lines, Column, NumberAt, IsNumber, FloatRange, DigitRun, BaseAt, DigitsFrom, RadixDigit, Digit, Alpha, At,
        Step;
      Mark();
      var base, ok := ScanHead();
      if ok {
        t := FinishNumber(base);
      } else {
        t := RejectRadix(base);
      }
    }

    /** The digits a number starts with, unless it starts with its point. */
    method ScanHead() returns (base: nat, ok: bool)
      requires Placed() && NumberAt(src, cur)
      modifies this`cur, this`line, this`col
      ensures Placed() && old(cur) <= cur && base == BaseAt(src, old(cur))
      ensures DigitRun(src, DigitsFrom(src, old(cur)), cur, base)
      ensures !ok ==> base in {2, 16} && cur == DigitsFrom(src, old(cur)) && old(cur) < cur
      ensures ok && base in {2, 16} ==> DigitsFrom(src, old(cur)) < cur
      ensures ok ==> old(cur) < cur || (base == 10 && Peek() == '.' && !Alpha(PeekNext()))
    {
      NumberHead(src, cur);
      hide Lines, Column, NumberAt, DigitRun, BaseAt, DigitsFrom, RadixDigit, Digit, Alpha, At;
      base, ok := ScanRadix();
    }

    /** A base prefix without digits. */
    method RejectRadix(base: nat) returns (t: Token)
      requires Placed() && tokenStart < cur && base == BaseAt(src, tokenStart) && base in {2, 16}
      requires DigitsFrom(src, tokenStart) == cur && DigitRun(src, cur, cur, base)
      modifies this`previous
      ensures previous == t.kind && t.from == tokenStart && t.kind == ERROR
      ensures IsNumber(src, tokenStart, cur, t)
      ensures FloatRange(t, floatInRange(src[tokenStart..cur]))
    {
      hide Lines, Column, IsNumber, FloatRange, DigitRun, BaseAt, DigitsFrom, At;
      t := BuildErrorToken(if base == 16 then "invalid hex literal" else "invalid binary literal");
      RadixAlone(src, tokenStart, cur, t, floatInRange(src[tokenStart..cur]));
    }

    /** What follows the digits of a number. */
    method FinishNumber(base: nat) returns (t: Token)
      requires Placed() && tokenStart <= cur && base == BaseAt(src, tokenStart)
      requires DigitRun(src, DigitsFrom(src, tokenStart), cur, base)
      requires base in {2, 16} ==> DigitsFrom(src, tokenStart) < cur
      requires tokenStart < cur || (base == 10 && Peek() == '.' && !Alpha(PeekNext()))
      modifies this`cur, this`line, this`col, this`previous
      ensures Placed() && tokenStart < cur && previous == t.kind && t.from == tokenStart && !Bracket(t.kind)
      ensures IsNumber(src, tokenStart, cur, t)
      ensures FloatRange(t, floatInRange(src[tokenStart..cur]))
      ensures t.kind != ERROR ==> t.line == tokenStartLine && t.col == tokenStartCol
    {
      PointIsFraction(src, cur);
      hide Lines, Column, Value, IsNumber, IsInteger, DigitRun, RadixDigit, RunEnd, BaseAt, DigitsFrom, FractionEnd,
        Alpha, At, FloatRange;
      var end := cur;
      var ok := true;
      if base == 10 {
        ok := ScanFraction();
      }
      t := BuildNumber(base, ok, end);
    }

    /** The digits before the point end at `end`; a fraction or an exponent reaches on to the cursor. */
    method BuildNumber(base: nat, ok: bool, end: nat) returns (t: Token)
      requires tokenStart < cur <= |src| && base == BaseAt(src, tokenStart)
      requires DigitRun(src, DigitsFrom(src, tokenStart), end, base)
      requires base in {2, 16} ==> DigitsFrom(src, tokenStart) < end
      requires if base == 10 then (cur, ok) == FractionEnd(src, end) else cur == end
      modifies this`previous
      ensures previous == t.kind && t.from == tokenStart && !Bracket(t.kind)
      ensures IsNumber(src, tokenStart, cur, t)
      ensures FloatRange(t, floatInRange(src[tokenStart..cur]))
      ensures t.kind != ERROR ==> t.line == tokenStartLine && t.col == tokenStartCol
    {
      hide Value, IsNumber, IsInteger, DigitRun, RadixDigit, RunEnd, BaseAt, DigitsFrom, FractionEnd;
      if cur == end {
        t := BuildInteger(DigitsFrom(src, tokenStart), base);
        WholeNumber(src, tokenStart, cur, t);
      } else {
        if ok {
          t := BuildFloat();
        } else {
          t := BuildErrorToken("invalid exponent");
        }
        FloatNumber(src, tokenStart, end, cur, t);
      }
    }

    method BuildFloat() returns (t: Token)
      requires tokenStart <= cur <= |src|
      modifies this`previous
      ensures previous == t.kind && t.from == tokenStart && t.to == cur
      ensures if floatInRange(src[tokenStart..cur]) then t.kind == FLOAT
              else t.kind == ERROR && t.message == OUT_OF_RANGE
      ensures t.kind == FLOAT ==> t.line == tokenStartLine && t.col == tokenStartCol
    {
      if !floatInRange(src[tokenStart..cur]) {
        t := BuildErrorToken(OUT_OF_RANGE);
        return;
      }
      previous := FLOAT;
      t := Token(FLOAT, tokenStart, cur, tokenStartLine, tokenStartCol, 0, "");
    }

    // -------------------------------------------------------------------------------------------------
    // Tokens

    method Either(second: char, long: Kind, short: Kind) returns (kind: Kind)
      requires Placed() && second != '\0'
      modifies this`cur, this`line, this`col
      ensures Placed()
      ensures if old(Peek()) == second then kind == long && cur == old(cur) + 1 else kind == short && cur == old(cur)
    {
      var taken := Match(second);
      kind := if taken then long else short;
    }

    /** The operator that starts with `c`, which has been taken. */
    method ScanOperator(c: char) returns (kind: Kind)
      requires Placed() && 0 < cur && src[cur - 1] == c && c != '\0'
      modifies this`cur, this`line, this`col
      ensures Placed() && old(cur) <= cur && Took(kind, c, old(Peek()), old(PeekNext()), cur - old(cur))
    {
      hide Lines, Column, Simple;
      if c == '<' || c == '>' {
        var shift := Match(c);
        if shift {
          kind := Either('=', if c == '<' then LSHIFT_ASSIGN else RSHIFT_ASSIGN, if c == '<' then LSHIFT else RSHIFT);
          return;
        }
      } else if c == '-' {
        var arrow := Match('>');
        if arrow {
          return ARROW;
        }
      } else if c == '&' || c == '|' {
        var twice := Match(c);
        if twice {
          return if c == '&' then AMP_AMP else PIPE_PIPE;
        }
      }
      if Simple(c).1 == ERROR {
        return Simple(c).0;
      }
      kind := Either('=', Simple(c).1, Simple(c).0);
    }

    method ScanToken() returns (t: Token)
      requires Placed() && '\0' !in src
      modifies this`cur, this`line, this`col, this`tokenStart, this`tokenStartLine, this`tokenStartCol
      modifies this`previous, this`frames, this`commented
      ensures Placed() && previous == t.kind && frames == Step(old(frames), t.kind)
      ensures IsLexeme(src, old(cur), cur, t) && (old(commented) || IsComment(src, old(cur)) ==> commented)
      ensures !commented && t.kind != ERROR ==> InPlace(src, t)
    {
      NotComment(src, cur);
      hide At, WordChar, NumberAt, IsComment, IsLexeme, IsNumber, IsWord, IsMark, Lines, Column, Step;
      ghost var from := cur;
      Mark();
      if NumberAt(src, cur) {
        t := ScanNumber();
        LexemeIsNumber(src, from, cur, t);
      } else if WordChar(Peek()) {
        t := ScanWord();
        LexemeIsWord(src, from, cur, t);
      } else if cur == |src| {
        t := BuildToken(EOF);
        LexemeIsEnd(src, t);
      } else {
        t := ScanMark();
        LexemeIsMark(src, from, cur, t);
      }
    }

    method ScanMark() returns (t: Token)
      requires Placed() && '\0' !in src && cur < |src|
      requires tokenStart == cur && tokenStartLine == line && tokenStartCol == col
      modifies this`cur, this`line, this`col, this`tokenStart, this`tokenStartLine, this`tokenStartCol
      modifies this`previous, this`frames, this`commented
      ensures Placed() && previous == t.kind && frames == Step(old(frames), t.kind)
      ensures IsMark(src, old(cur), cur, t) && (old(commented) || IsComment(src, old(cur)) ==> commented)
      ensures old(cur) < cur && (!commented ==> t.from == old(cur))
      ensures !commented && t.kind != ERROR ==> t.line == old(line) && t.col == old(col)
    {
      ghost var from := cur;
      assert Peek() == src[from] && src[from] in src;
      hide Lines, Column, IsMark, IsBlockComment, IsLineComment, IsString, OperatorAt, Step, At, Operator;
      var c := Advance();
      assert IsComment(src, from) == (c == '/' && (Peek() == '/' || Peek() == '*'));
      if c == '/' && (Peek() == '/' || Peek() == '*') {
        t := ScanCommentMark();
      } else {
        t := ScanOther(c);
      }
    }

    /** A string or an operator. */
    method ScanOther(c: char) returns (t: Token)
      requires Placed() && '\0' !in src && tokenStart + 1 == cur && src[tokenStart] == c && !IsComment(src, tokenStart)
      modifies this`cur, this`line, this`col, this`previous, this`frames
      ensures Placed() && previous == t.kind && frames == Step(old(frames), t.kind)
      ensures IsMark(src, tokenStart, cur, t) && old(cur) <= cur && t.from == tokenStart
      ensures t.kind != ERROR ==> t.line == tokenStartLine && t.col == tokenStartCol
    {
      assert src[tokenStart] in src;
      hide Lines, Column, IsMark, IsString, OperatorAt, At, Operator, IsComment;
      if c == '"' || c == '\'' {
        t := ScanString(c);
        OtherKeepsFrames(old(frames), t.kind);
      } else {
        t := ScanPunctuation(c);
      }
      MarkIsOther(src, tokenStart, cur, t);
    }

    /** A comment whose slash has been taken. */
    method ScanCommentMark() returns (t: Token)
      requires Placed() && 0 < cur && IsComment(src, cur - 1)
      modifies this`cur, this`line, this`col, this`tokenStart, this`tokenStartLine, this`tokenStartCol
      modifies this`previous, this`frames, this`commented
      ensures Placed() && old(cur) < cur && previous == t.kind && frames == old(frames) && !Bracket(t.kind) && commented
      ensures IsMark(src, old(cur) - 1, cur, t)
    {
      hide Lines, Column, IsMark, IsBlockComment, IsLineComment, Step;
      var d := Advance();
      t := ScanComment(d == '*');
      MarkIsComment(src, old(cur) - 1, cur, t);
    }

    method ScanPunctuation(c: char) returns (t: Token)
      requires Placed() && tokenStart + 1 == cur && src[tokenStart] == c && c != '\0'
      modifies this`cur, this`line, this`col, this`previous, this`frames
      ensures Placed() && previous == t.kind && frames == Step(old(frames), t.kind)
      ensures t.from == tokenStart && t.kind == OperatorAt(src, tokenStart).0
      ensures cur == tokenStart + if t.kind == ERROR then 1 else OperatorAt(src, tokenStart).1
      ensures old(cur) <= cur
      ensures t.kind != ERROR ==> t.line == tokenStartLine && t.col == tokenStartCol
    {
      assert OperatorAt(src, tokenStart) == Operator(c, Peek(), PeekNext());
      hide Lines, Column, Operator, OperatorAt, Step, At;
      var kind := ScanOperator(c);
      if kind == ERROR {
        t := BuildErrorToken("unexpected character");
      } else {
        t := BuildToken(kind);
      }
    }

    /** White space between tokens. */
    method SkipGap(inClass: char -> bool)
      requires Placed() && Tiled(src, tiles, cur) && !inClass('\0') && forall c :: inClass(c) ==> White(c)
      modifies this`cur, this`line, this`col, this`tiles
      ensures Placed() && Tiled(src, tiles, cur) && old(cur) <= cur && !inClass(Peek())
      ensures forall i | old(cur) <= i < cur :: inClass(src[i])
    {
      hide Lines, Column;
      SkipWhile(inClass);
      if old(cur) < cur {
        MoreTiles(src, tiles, old(cur), Tile(Gap, old(cur), cur));
        tiles := tiles + [Tile(Gap, old(cur), cur)];
      }
    }

    /** A comment that belongs to the token after or before it. */
    method ScanAttached() returns (t: Token)
      requires Placed() && Tiled(src, tiles, cur) && IsComment(src, cur)
      modifies this`cur, this`line, this`col, this`tokenStart, this`tokenStartLine, this`tokenStartCol
      modifies this`previous, this`frames, this`commented, this`tiles
      ensures Placed() && Tiled(src, tiles, cur) && old(cur) < cur && frames == old(frames) && commented
      ensures previous == t.kind && t.kind in {LINE_COMMENT, BLOCK_COMMENT, ERROR}
    {
      hide Lines, Column, Step;
      var _ := Advance();
      var d := Advance();
      t := ScanComment(d == '*');
      MoreTiles(src, tiles, old(cur), Tile(Comment, old(cur), cur));
      tiles := tiles + [Tile(Comment, old(cur), cur)];
    }

    /** The newlines in the white space at the cursor. */
    method NewlinesAhead() returns (count: nat)
    {
      var i := cur;
      count := 0;
      while White(At(src, i))
        decreases |src| - i
      {
        if src[i] == '\n' {
          count := count + 1;
        }
        i := i + 1;
      }
    }

    predicate ShouldInsert()
      reads this
    {
      frames.Some? && Zero(frames.value) && Terminator(previous)
    }

    /** The token at the cursor, as it enters the log; `first` is where the blanks before it ended. */
    method ScanLogged(ghost first: nat) returns (t: Token)
      requires '\0' !in src && Placed() && Tiled(src, tiles, cur) && Mirrors(frames, log)
      requires !White(Peek()) && first <= cur
      requires !commented ==> Rules(src, log) && !IsComment(src, cur) && Awaits(src, log, pending, first, cur)
      modifies this
      ensures Placed() && Tiled(src, tiles, cur) && Mirrors(frames, log)
      ensures log == old(log) + [Entry(t.kind, old(cur), cur, old(pending))]
      ensures IsLexeme(src, old(cur), cur, t) && previous == t.kind
      ensures old(commented) ==> commented
      ensures !commented ==> Rules(src, log)
      ensures !commented && t.kind != ERROR ==> InPlace(src, t)
      ensures t.kind == EOF <==> old(cur) == |src|
      ensures old(cur) <= cur && (t.kind != EOF ==> old(cur) < cur)
      ensures calls == old(calls) && ended == old(ended) && pending == old(pending)
    {
      hide Lines, Column, Step, Rules, RuleAt, Awaits, IsComment, IsLexeme, Mirrors, Tiled, White, InPlace;
      t := ScanToken();
      ghost var u := Entry(t.kind, old(cur), cur, pending);
      LexemeKind(src, old(cur), cur, t);
      if !commented {
        RuleHolds(src, log, u, first);
      }
      StepMirrors(old(frames), log, u);
      log := log + [u];
      if old(cur) < cur {
        MoreTiles(src, tiles, old(cur), Tile(Text, old(cur), cur));
        tiles := tiles + [Tile(Text, old(cur), cur)];
      }
    }

    /**
    `snuk_lexer_next_token`. `Valid` carries the run: virtual semicolons follow `Rules`, the tiles cover the source up
    to the cursor, line and column are right, and the end of the file is reached within 2n + 1 calls.
    */
    method NextToken() returns (t: Token)
      requires Valid()
      modifies this
      ensures Valid() && calls == old(calls) + 1 && old(cur) <= cur
      ensures old(ended) || t.kind == EOF ==> ended
      ensures calls > 2 * |src| ==> ended
      ensures old(commented) ==> commented
      ensures Delivered(old(log), old(pending), log, pending, commented, src, t)
      ensures t.kind !in {VSEMICOLON, EOF} ==> old(cur) < cur
      ensures !commented && t.kind != ERROR ==> InPlace(src, t)
    {
      hide Lines, Column, Rules, Between, Awaits, Delivered, Mirrors, Tiled, Terminator, Zero, InPlace;
      SkipGap(Blank);
      Mark();
      VirtualEndsNothing();
      if (Peek() == '}' || Peek() == '\n') && ShouldInsert() {
        if !commented {
          MoreBlanks(src, log, old(cur), cur);
        }
        t := InsertVirtual();
      } else {
        t := ScanSpaced(old(cur));
      }
    }

    method InsertVirtual() returns (t: Token)
      requires '\0' !in src && Placed() && Recorded() && !pending
      requires tokenStart == cur && tokenStartLine == line && tokenStartCol == col
      requires At(src, cur) in {'\n', '}'} && ShouldInsert()
      modifies this
      ensures Valid() && calls == old(calls) + 1 && cur == old(cur)
      ensures ended == old(ended) && commented == old(commented)
      ensures t.kind == VSEMICOLON && InPlace(src, t)
      ensures Delivered(old(log), old(pending), log, pending, commented, src, t)
    {
      hide Lines, Column, Rules, Between, Mirrors, Tiled, Terminator, Zero, Step;
      VirtualEndsNothing();
      if !commented {
        Inserts(src, log, frames, cur);
      }
      t := BuildToken(VSEMICOLON);
      pending, calls := true, calls + 1;
    }

    /** A comment before the token, which is delivered alone when more than one newline follows it. */
    method ScanSpaced(ghost start: nat) returns (t: Token)
      requires '\0' !in src && Placed() && Tiled(src, tiles, cur) && Mirrors(frames, log)
      requires (!ended ==> calls <= 2 * cur) && start <= cur && !Blank(Peek())
      requires !commented ==>
                 Rules(src, log) && Between(src, log, pending, start) && BlankIn(src, start, cur)
      requires !commented && !pending ==>
                 && (log != [] ==> previous == log[|log| - 1].kind)
                 && !(At(src, cur) in {'\n', '}'} && frames.Some? && Zero(frames.value) && Terminator(previous))
      modifies this
      ensures Valid() && calls == old(calls) + 1 && old(cur) <= cur
      ensures old(ended) || t.kind == EOF ==> ended
      ensures old(commented) ==> commented
      ensures Delivered(old(log), old(pending), log, pending, commented, src, t)
      ensures t.kind != VSEMICOLON && (t.kind != EOF ==> old(cur) < cur)
      ensures !commented && t.kind != ERROR ==> InPlace(src, t)
    {
      hide Lines, Column, Rules, Between, Awaits, IsLexeme, Mirrors, Tiled, Terminator, Zero, InPlace, Delivered, At,
        White, Blank, BlankIn, IsComment, Recorded;
      ghost var first := cur;
      SkipSpaces(start);
      if IsComment(src, cur) {
        ghost var open := cur;
        var alone;
        alone, t := ScanLeading();
        assert open < cur && commented;
        if alone {
          FinishComment(open);
          CommentIsDelivered(log, old(pending), src, t);
          return;
        }
      }
      t := ScanReal(first);
    }

    method FinishComment(ghost open: nat)
      requires '\0' !in src && Placed() && Tiled(src, tiles, cur) && Mirrors(frames, log) && commented && open < cur
      requires !ended ==> calls <= 2 * open
      modifies this`pending, this`calls
      ensures Valid() && calls == old(calls) + 1 && !pending
    {
      hide Lines, Column, Tiled, Mirrors, Terminator;
      pending, calls := false, calls + 1;
    }

    method SkipSpaces(ghost start: nat)
      requires Placed() && Tiled(src, tiles, cur) && Mirrors(frames, log) && '\0' !in src && !Blank(Peek())
      requires !commented ==> Between(src, log, pending, start) && BlankIn(src, start, cur)
      requires !commented && !pending ==>
                 && (log != [] ==> previous == log[|log| - 1].kind)
                 && !(At(src, cur) in {'\n', '}'} && frames.Some? && Zero(frames.value) && Terminator(previous))
      modifies this`cur, this`line, this`col, this`tiles
      ensures Placed() && Tiled(src, tiles, cur) && old(cur) <= cur && !White(Peek())
      ensures !commented ==> Awaits(src, log, pending, old(cur), cur)
    {
      hide Lines, Column, Between, Awaits, Mirrors, Tiled, Terminator, Zero, At;
      SkipGap(White);
      assert WhiteIn(src, old(cur), cur);
      if !commented {
        Waits(src, log, frames, previous, pending, start, old(cur), cur);
      }
    }

    /** A comment before a token; more than one newline behind it makes it a token of its own. */
    method ScanLeading() returns (alone: bool, t: Token)
      requires Placed() && Tiled(src, tiles, cur) && IsComment(src, cur)
      modifies this`cur, this`line, this`col, this`tokenStart, this`tokenStartLine, this`tokenStartCol
      modifies this`previous, this`frames, this`commented, this`tiles
      ensures Placed() && Tiled(src, tiles, cur) && old(cur) < cur && frames == old(frames) && commented
      ensures t.kind in {LINE_COMMENT, BLOCK_COMMENT, ERROR} && (alone ==> previous == t.kind)
      ensures !alone ==> !White(Peek())
    {
      hide Lines, Column, Tiled;
      t := ScanAttached();
      var newlines := NewlinesAhead();
      alone := newlines > 1;
      if !alone {
        SkipGap(White);
      }
    }

    method ScanReal(ghost first: nat) returns (t: Token)
      requires '\0' !in src && Placed() && Tiled(src, tiles, cur) && Mirrors(frames, log)
      requires !White(Peek()) && first <= cur && (!ended ==> calls <= 2 * cur)
      requires !commented ==> Rules(src, log) && !IsComment(src, cur) && Awaits(src, log, pending, first, cur)
      modifies this
      ensures Valid() && calls == old(calls) + 1 && old(cur) <= cur
      ensures ended == (old(ended) || t.kind == EOF) && (t.kind != EOF ==> old(cur) < cur)
      ensures old(commented) ==> commented
      ensures t.kind != VSEMICOLON && Delivered(old(log), old(pending), log, pending, commented, src, t)
      ensures !commented && t.kind != ERROR ==> InPlace(src, t)
    {
      hide Lines, Column, Rules, Awaits, Between, IsLexeme, InPlace, Delivered, Mirrors, Tiled, Terminator, Step;
      t := ScanLogged(first);
      ghost var end := cur;
      LexemeKind(src, old(cur), cur, t);
      SkipTrailing();
      LoggedIsDelivered(old(log), log, old(pending), commented, src, t);
      if !commented {
        BlanksBetween(src, log, end, cur);
      }
      FinishToken(t, old(cur));
    }

    method FinishToken(t: Token, ghost start: nat)
      requires '\0' !in src && Placed() && Tiled(src, tiles, cur) && Mirrors(frames, log) && previous == t.kind
      requires log != [] && log[|log| - 1].kind == t.kind
      requires !commented ==> Rules(src, log) && Between(src, log, false, cur)
      requires !ended && t.kind != EOF ==> calls <= 2 * start && start < cur
      modifies this`pending, this`calls, this`ended
      ensures Valid() && calls == old(calls) + 1 && !pending && ended == (old(ended) || t.kind == EOF)
    {
      hide Lines, Column, Tiled, Mirrors, Terminator, Rules, Between;
      pending, calls, ended := false, calls + 1, ended || t.kind == EOF;
    }

    /** The blanks behind a token, and a comment that starts on the same line. */
    method SkipTrailing()
      requires Placed() && Tiled(src, tiles, cur)
      modifies this`cur, this`line, this`col, this`tokenStart, this`tokenStartLine, this`tokenStartCol
      modifies this`previous, this`frames, this`commented, this`tiles
      ensures Placed() && Tiled(src, tiles, cur) && old(cur) <= cur
      ensures frames == old(frames) && previous == old(previous)
      ensures (old(commented) ==> commented) && (!commented ==> BlankIn(src, old(cur), cur))
    {
      hide Lines, Column, Tiled, Step;
      SkipGap(Blank);
      if IsComment(src, cur) {
        var saved := previous;
        var _ := ScanAttached();
        previous := saved;
      }
    }
  }

  lemma CommentIsDelivered(log: seq<Entry>, wasPending: bool, src: string, t: Token)
    requires t.kind in {LINE_COMMENT, BLOCK_COMMENT, ERROR}
    ensures Delivered(log, wasPending, log, false, true, src, t)
  {
    hide IsLexeme;
  }

  lemma LoggedIsDelivered(
    before: seq<Entry>, after: seq<Entry>, wasPending: bool, commented: bool, src: string, t: Token)
    requires |after| == |before| + 1 && t.kind != VSEMICOLON
    requires var u := after[|after| - 1];
             after == before + [u] && u.kind == t.kind && u.virtual == wasPending && IsLexeme(src, u.from, u.to, t)
    ensures Delivered(before, wasPending, after, false, commented, src, t)
  {
    hide IsLexeme;
  }

  lemma BlanksBetween(src: string, log: seq<Entry>, end: nat, cur: nat)
    requires log != [] && log[|log| - 1].to == end && end <= cur <= |src|
    requires BlankIn(src, end, cur)
    ensures Between(src, log, false, cur)
  {
    hide Nest, Kinds;
  }

  lemma MoreBlanks(src: string, log: seq<Entry>, start: nat, cur: nat)
    requires Between(src, log, false, start) && BlankIn(src, start, cur)
    ensures Between(src, log, false, cur)
  {
    hide Nest, Kinds;
  }

  lemma VirtualEndsNothing()
    ensures !Terminator(VSEMICOLON) && !Terminator(MAX)
  {
  }

  /** Where a virtual semicolon is inserted, the rule asks for it. */
  lemma Inserts(src: string, log: seq<Entry>, frames: Option<seq<Frame>>, cur: nat)
    requires Between(src, log, false, cur) && Mirrors(frames, log)
    requires log != [] && Terminator(log[|log| - 1].kind) && frames.Some? && Zero(frames.value)
    requires At(src, cur) in {'\n', '}'}
    ensures Between(src, log, true, cur)
  {
    hide Nest, Kinds, Terminator, FramesOf, Flat, Zero, OpenBrackets;
    if Nest(Kinds(log)).Some? {
      ZeroIsFlat(Nest(Kinds(log)).value);
    }
  }

  /** Where none is inserted, the rule asks for none, unless one has been delivered for the same gap. */
  lemma Waits(
      src: string, log: seq<Entry>, frames: Option<seq<Frame>>, previous: Kind, pending: bool, start: nat, first: nat,
      cur: nat)
    requires Between(src, log, pending, start) && BlankIn(src, start, first) && WhiteIn(src, first, cur)
    requires !Blank(At(src, first)) && !White(At(src, cur)) && Mirrors(frames, log)
    requires !pending && log != [] ==> previous == log[|log| - 1].kind
    requires !pending ==> !(At(src, first) in {'\n', '}'} && frames.Some? && Zero(frames.value) && Terminator(previous))
    ensures Awaits(src, log, pending, first, cur)
  {
    hide Nest, Kinds, Terminator, FramesOf, Flat, Zero, OpenBrackets;
    if Nest(Kinds(log)).Some? {
      ZeroIsFlat(Nest(Kinds(log)).value);
    }
  }

  /** Line and column of the token are those of its first character. */
  predicate InPlace(src: string, t: Token) {
    t.from <= |src| && t.line == Lines(src, t.from) && t.col == Column(src, t.from)
  }

  /** How a call of `NextToken` shows in the log. */
  ghost predicate Delivered(
    before: seq<Entry>, wasPending: bool, after: seq<Entry>, pending: bool, commented: bool, src: string, t: Token)
  {
    if t.kind == VSEMICOLON then !wasPending && pending && after == before
    else if after == before then commented && t.kind in {LINE_COMMENT, BLOCK_COMMENT, ERROR}
    else
      !pending && |after| > 0 &&
      var u := after[|after| - 1];
      after == before + [u] && u.kind == t.kind && u.virtual == wasPending && IsLexeme(src, u.from, u.to, t)
  }

  lemma LexemeKind(src: string, from: nat, to: nat, t: Token)
    requires '\0' !in src && IsLexeme(src, from, to, t)
    ensures t.kind == EOF <==> from == |src|
    ensures from <= to <= |src| && (t.kind != EOF ==> from < to)
    ensures t.kind == RBRACE <==> At(src, from) == '}'
    ensures t.kind != VSEMICOLON && t.kind != MAX
  {
    if from < |src| && IsMark(src, from, to, t) {
      MarkKind(src, from, to, t);
    }
    if NumberAt(src, from) {
      NumberIsNumber(src, from, to, t);
    }
    hide IsMark, WordKind, IsNumber, NumberAt;
  }

  lemma MarkKind(src: string, from: nat, to: nat, t: Token)
    requires from < |src| && IsMark(src, from, to, t)
    ensures t.kind !in {EOF, VSEMICOLON, MAX} && (t.kind == RBRACE <==> src[from] == '}')
  {
    OperatorKind(src[from], At(src, from + 1), At(src, from + 2));
    hide Operator;
  }

  lemma OperatorKind(c: char, d: char, e: char)
    ensures Operator(c, d, e).0 !in {EOF, VSEMICOLON, MAX} && (Operator(c, d, e).0 == RBRACE <==> c == '}')
    ensures Operator(c, d, e).0 != ERROR ==> Operator(c, d, e).1 > 0
  {
    SimpleKind(c);
    hide Simple;
  }

  lemma SimpleKind(c: char)
    ensures Simple(c).0 !in {EOF, VSEMICOLON, MAX} && Simple(c).1 !in {EOF, VSEMICOLON, MAX, RBRACE}
    ensures Simple(c).0 == RBRACE <==> c == '}'
    ensures c == '}' ==> Simple(c).1 == ERROR
  {
  }

  lemma StepMirrors(frames: Option<seq<Frame>>, log: seq<Entry>, u: Entry)
    requires Mirrors(frames, log)
    ensures Mirrors(Step(frames, u.kind), log + [u])
  {
    KindsAppend(log, u);
    var nest := Nest(Kinds(log));
    if nest.Some? && Turn(nest.value, u.kind).Some? {
      FramesMirror(nest.value, u.kind);
    }
    hide OpenBrackets, FramesOf, Nest, Turn, Moved;
  }

  /** What is known when the white space up to `cur` has been skipped and no virtual semicolon was delivered. */
  ghost predicate Awaits(src: string, log: seq<Entry>, pending: bool, first: nat, cur: nat) {
    && WhiteIn(src, first, cur) && !White(At(src, cur))
    && (pending ==> log != [])
    && (log != [] ==>
          var t := log[|log| - 1];
          var nest := Nest(Kinds(log));
          && WhiteIn(src, t.to, first)
          && (!pending ==> BlankIn(src, t.to, first) && !Blank(At(src, first)))
          && (nest.Some? ==>
                var insert := Terminator(t.kind) && Flat(nest.value) && At(src, first) in {'\n', '}'};
                pending <==> insert))
  }

  lemma RuleHolds(src: string, log: seq<Entry>, u: Entry, first: nat)
    requires Rules(src, log) && Awaits(src, log, u.virtual, first, u.from)
    requires u.kind == RBRACE <==> At(src, u.from) == '}'
    ensures Rules(src, log + [u])
  {
    assert (log + [u])[..|log|] == log;
    if log != [] && Nest(Kinds(log)).Some? {
      hide Rules, Nest, Kinds, Flat, Terminator;
      GapDecides(src, log[|log| - 1].to, first, u.from);
    }
  }

  /** The first character that is not blank tells whether the gap has a newline or a closing brace follows. */
  lemma GapDecides(src: string, from: nat, first: nat, to: nat)
    requires WhiteIn(src, from, first) && WhiteIn(src, first, to) && !White(At(src, to))
    requires (BlankIn(src, from, first) && !Blank(At(src, first))) || At(src, first) in {'\n', '}'}
    ensures At(src, first) in {'\n', '}'} <==> NewlineIn(src, from, to) || At(src, to) == '}'
    ensures WhiteIn(src, from, to)
  {
    if first < to {
      assert White(src[first]);
      if src[first] == '\n' { assert NewlineIn(src, from, to); }
    }
  }
}
