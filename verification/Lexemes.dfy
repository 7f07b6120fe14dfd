/** Token kinds, their spelling, source positions, and the bracket structure of a token sequence (`lexer.c`). */
module Lexemes {
  import opened Wrappers

  datatype Kind =
    | EOF | ERROR
    | IDENTIFIER | INTEGER | FLOAT | STRING
    | TRUE | FALSE | NULL | NAN | INF
    | VAR | CONST | ANY | IF | ELSE | MATCH | CASE | WHILE | DO | FOR | IN
    | RETURN | BREAK | CONTINUE | FN | TYPE | INTERFACE | EXTEND | SELF | PRINT
    | LPAREN | RPAREN | LBRACE | RBRACE | LBRACKET | RBRACKET
    | COMMA | SEMICOLON | VSEMICOLON | COLON | DOT | ARROW
    | PLUS | MINUS | STAR | SLASH | PERCENT
    | AMP | PIPE | CARET | TILDE | LSHIFT | RSHIFT
    | AMP_AMP | PIPE_PIPE | BANG | KW_AND | KW_OR | KW_NOT
    | ASSIGN
    | PLUS_ASSIGN | MINUS_ASSIGN | STAR_ASSIGN | SLASH_ASSIGN | PERCENT_ASSIGN
    | AMP_ASSIGN | PIPE_ASSIGN | CARET_ASSIGN | LSHIFT_ASSIGN | RSHIFT_ASSIGN
    | EQUAL | BANG_EQUAL | LESS | GREATER | LESS_EQUAL | GREATER_EQUAL
    | LINE_COMMENT | BLOCK_COMMENT
    | MAX

  predicate Bracket(kind: Kind) {
    kind == LPAREN || kind == RPAREN || kind == LBRACKET || kind == RBRACKET || kind == LBRACE || kind == RBRACE
  }

  /** Kinds after which a statement may end. */
  predicate Terminator(kind: Kind) {
    kind in {IDENTIFIER, INTEGER, FLOAT, STRING, TRUE, FALSE, NULL, NAN, INF, ANY, TYPE, RETURN, BREAK, CONTINUE,
             RPAREN, RBRACE, RBRACKET, LINE_COMMENT, BLOCK_COMMENT}
  }

  // ---------------------------------------------------------------------------------------------------
  // Characters

  predicate Blank(c: char) { c == ' ' || c == '\t' || c == '\r' }
  predicate White(c: char) { Blank(c) || c == '\n' }
  predicate Digit(c: char) { '0' <= c <= '9' }
  predicate BinaryDigit(c: char) { c == '0' || c == '1' }
  predicate OctalDigit(c: char) { '0' <= c <= '7' }
  predicate HexDigit(c: char) { Digit(c) || 'a' <= c <= 'f' || 'A' <= c <= 'F' }
  predicate Alpha(c: char) { 'a' <= c <= 'z' || 'A' <= c <= 'Z' }
  predicate WordChar(c: char) { Alpha(c) || Digit(c) || c == '_' }

  /** The character at `i`; the terminating zero behind the end. */
  function At(src: string, i: nat): (c: char)
    ensures c != '\0' ==> i < |src| && c == src[i]
  {
    if i < |src| then src[i] else '\0'
  }

  // ---------------------------------------------------------------------------------------------------
  // Positions

  /** The newlines before position `i`. */
  function Lines(src: string, i: nat): nat
    requires i <= |src|
  {
    if i == 0 then 0 else Lines(src, i - 1) + if src[i - 1] == '\n' then 1 else 0
  }

  /** The distance from position `i` back to the latest newline or to the start. */
  function Column(src: string, i: nat): nat
    requires i <= |src|
  {
    if i == 0 || src[i - 1] == '\n' then 0 else Column(src, i - 1) + 1
  }

  lemma {:induction false} ColumnReachesBack(src: string, i: nat)
    requires i <= |src|
    ensures Column(src, i) <= i
    ensures forall j | i - Column(src, i) <= j < i :: src[j] != '\n'
    ensures Column(src, i) < i ==> src[i - Column(src, i) - 1] == '\n'
  {
    if i > 0 && src[i - 1] != '\n' {
      ColumnReachesBack(src, i - 1);
    }
  }

  // ---------------------------------------------------------------------------------------------------
  // Operators and punctuation

  /** Marks that are one character, or two when `=` follows; ERROR where there is no such mark. */
  function Simple(c: char): (Kind, Kind) {
    match c
    case '(' => (LPAREN, ERROR)
    case ')' => (RPAREN, ERROR)
    case '{' => (LBRACE, ERROR)
    case '}' => (RBRACE, ERROR)
    case '[' => (LBRACKET, ERROR)
    case ']' => (RBRACKET, ERROR)
    case '.' => (DOT, ERROR)
    case ':' => (COLON, ERROR)
    case ';' => (SEMICOLON, ERROR)
    case ',' => (COMMA, ERROR)
    case '~' => (TILDE, ERROR)
    case '+' => (PLUS, PLUS_ASSIGN)
    case '-' => (MINUS, MINUS_ASSIGN)
    case '*' => (STAR, STAR_ASSIGN)
    case '/' => (SLASH, SLASH_ASSIGN)
    case '%' => (PERCENT, PERCENT_ASSIGN)
    case '<' => (LESS, LESS_EQUAL)
    case '>' => (GREATER, GREATER_EQUAL)
    case '=' => (ASSIGN, EQUAL)
    case '!' => (BANG, BANG_EQUAL)
    case '&' => (AMP, AMP_ASSIGN)
    case '|' => (PIPE, PIPE_ASSIGN)
    case '^' => (CARET, CARET_ASSIGN)
    case _ => (ERROR, ERROR)
  }

  /** The operator or punctuation that starts with these characters and how many it takes; ERROR when there is none. */
  function Operator(c: char, d: char, e: char): (Kind, nat) {
    if c == '<' && d == '<' then (if e == '=' then (LSHIFT_ASSIGN, 3) else (LSHIFT, 2))
    else if c == '>' && d == '>' then (if e == '=' then (RSHIFT_ASSIGN, 3) else (RSHIFT, 2))
    else if c == '-' && d == '>' then (ARROW, 2)
    else if c == '&' && d == '&' then (AMP_AMP, 2)
    else if c == '|' && d == '|' then (PIPE_PIPE, 2)
    else if Simple(c).1 != ERROR && d == '=' then (Simple(c).1, 2)
    else (Simple(c).0, if Simple(c).0 == ERROR then 0 else 1)
  }

  function OperatorAt(src: string, i: nat): (Kind, nat) {
    Operator(At(src, i), At(src, i + 1), At(src, i + 2))
  }

  // ---------------------------------------------------------------------------------------------------
  // Bracket structure

  /** The open brackets, innermost last; nothing when a closing bracket did not match. */
  function Nest(kinds: seq<Kind>): Option<seq<Kind>> {
    if kinds == [] then Some([])
    else
      var before := Nest(kinds[..|kinds| - 1]);
      if before.None? then None else Turn(before.value, kinds[|kinds| - 1])
  }

  function Turn(stack: seq<Kind>, kind: Kind): Option<seq<Kind>> {
    match kind
    case LPAREN => Some(stack + [LPAREN])
    case LBRACKET => Some(stack + [LBRACKET])
    case LBRACE => Some(stack + [LBRACE])
    case RPAREN => Closing(stack, LPAREN)
    case RBRACKET => Closing(stack, LBRACKET)
    case RBRACE => Closing(stack, LBRACE)
    case _ => Some(stack)
  }

  function Closing(stack: seq<Kind>, open: Kind): Option<seq<Kind>> {
    if stack != [] && stack[|stack| - 1] == open then Some(stack[..|stack| - 1]) else None
  }

  /** No `(` or `[` has been opened since the innermost open `{`. */
  ghost predicate Flat(stack: seq<Kind>) {
    forall i | 0 <= i < |stack| && (stack[i] == LPAREN || stack[i] == LBRACKET) ::
      exists j :: i < j < |stack| && stack[j] == LBRACE
  }

  // ---------------------------------------------------------------------------------------------------
  // The lexer's frames

  /** Open parentheses and brackets since one `{`. */
  datatype Frame = Frame(paren: nat, bracket: nat)

  predicate Zero(frames: seq<Frame>) {
    frames != [] && frames[|frames| - 1] == Frame(0, 0)
  }

  /** What building a token does to the frames; nothing where the code asserts that the brackets match. */
  function Moved(frames: seq<Frame>, kind: Kind): (r: Option<seq<Frame>>)
    ensures !Bracket(kind) ==> r == Some(frames)
  {
    if !Bracket(kind) then Some(frames)
    else if kind == LBRACE then Some(frames + [Frame(0, 0)])
    else if frames == [] then None
    else
      var last := |frames| - 1;
      var top := frames[last];
      match kind
      case LPAREN => Some(frames[..last] + [top.(paren := top.paren + 1)])
      case LBRACKET => Some(frames[..last] + [top.(bracket := top.bracket + 1)])
      case RPAREN => if top.paren > 0 then Some(frames[..last] + [top.(paren := top.paren - 1)]) else None
      case RBRACKET => if top.bracket > 0 then Some(frames[..last] + [top.(bracket := top.bracket - 1)]) else None
      case RBRACE => if Zero(frames) then Some(frames[..last]) else None
  }

  /** The frames that mirror a stack of open brackets. */
  function FramesOf(stack: seq<Kind>): (frames: seq<Frame>)
    ensures frames != []
  {
    if stack == [] then [Frame(0, 0)]
    else
      var below := FramesOf(stack[..|stack| - 1]);
      var last := |below| - 1;
      match stack[|stack| - 1]
      case LPAREN => below[..last] + [below[last].(paren := below[last].paren + 1)]
      case LBRACKET => below[..last] + [below[last].(bracket := below[last].bracket + 1)]
      case LBRACE => below + [Frame(0, 0)]
      case _ => below
  }

  predicate OpenBrackets(stack: seq<Kind>) {
    forall i | 0 <= i < |stack| :: stack[i] in {LPAREN, LBRACKET, LBRACE}
  }

  /** The innermost frame is zero exactly when no `(` or `[` is open since the innermost `{`. */
  lemma {:induction false} ZeroIsFlat(stack: seq<Kind>)
    requires OpenBrackets(stack)
    ensures Zero(FramesOf(stack)) <==> Flat(stack)
  {
    if stack != [] {
      var last := |stack| - 1;
      if stack[last] == LBRACE {
        forall i | 0 <= i < |stack| && (stack[i] == LPAREN || stack[i] == LBRACKET)
          ensures exists j :: i < j < |stack| && stack[j] == LBRACE
        {
          assert i < last;
        }
      }
    }
  }

  /** As long as the brackets nest, no assertion fails and the frames mirror the open brackets. */
  lemma {:induction false} FramesMirror(stack: seq<Kind>, kind: Kind)
    requires OpenBrackets(stack) && Turn(stack, kind).Some?
    ensures Moved(FramesOf(stack), kind) == Some(FramesOf(Turn(stack, kind).value))
    ensures OpenBrackets(Turn(stack, kind).value)
  {
    hide Moved, OpenBrackets, FramesOf, Turn;
    TurnIs(stack, kind);
    if kind == LPAREN || kind == LBRACKET || kind == LBRACE {
      Opens(stack, kind);
    } else if Bracket(kind) {
      Closes(stack, kind);
    }
  }

  lemma TurnIs(stack: seq<Kind>, kind: Kind)
    requires Turn(stack, kind).Some?
    ensures !Bracket(kind) ==> Turn(stack, kind) == Some(stack)
    ensures kind == LPAREN || kind == LBRACKET || kind == LBRACE ==> Turn(stack, kind) == Some(stack + [kind])
    ensures kind == RPAREN || kind == RBRACKET || kind == RBRACE ==>
              && stack != [] && Turn(stack, kind) == Some(stack[..|stack| - 1])
              && (stack[|stack| - 1], kind) in {(LPAREN, RPAREN), (LBRACKET, RBRACKET), (LBRACE, RBRACE)}
  {
  }

  lemma Opens(stack: seq<Kind>, kind: Kind)
    requires OpenBrackets(stack) && (kind == LPAREN || kind == LBRACKET || kind == LBRACE)
    ensures Moved(FramesOf(stack), kind) == Some(FramesOf(stack + [kind])) && OpenBrackets(stack + [kind])
  {
    OpenBracketsPush(stack, kind);
    hide OpenBrackets;
    assert (stack + [kind])[..|stack|] == stack;
  }

  lemma Closes(stack: seq<Kind>, kind: Kind)
    requires OpenBrackets(stack) && stack != []
    requires (stack[|stack| - 1], kind) in {(LPAREN, RPAREN), (LBRACKET, RBRACKET), (LBRACE, RBRACE)}
    ensures var below := stack[..|stack| - 1];
            Moved(FramesOf(stack), kind) == Some(FramesOf(below)) && OpenBrackets(below)
  {
    var below := stack[..|stack| - 1];
    var top := stack[|stack| - 1];
    assert OpenBrackets(below);
    Opens(below, top);
    assert below + [top] == stack;
    Undo(FramesOf(below), top, kind);
  }

  lemma OpenBracketsPush(stack: seq<Kind>, kind: Kind)
    requires OpenBrackets(stack) && kind in {LPAREN, LBRACKET, LBRACE}
    ensures OpenBrackets(stack + [kind])
  {
  }

  /** A closing bracket undoes what its opening bracket did to the frames. */
  lemma Undo(frames: seq<Frame>, open: Kind, close: Kind)
    requires frames != []
    requires (open, close) in {(LPAREN, RPAREN), (LBRACKET, RBRACKET), (LBRACE, RBRACE)}
    ensures Moved(frames, open).Some? && Moved(Moved(frames, open).value, close) == Some(frames)
  {
    var last := |frames| - 1;
    var after := Moved(frames, open).value;
    if open == LBRACE {
      assert after[..|frames|] == frames;
    } else {
      assert after[..last] == frames[..last];
      assert frames[..last] + [frames[last]] == frames;
    }
  }
}
