/** Each kind of mark and word with its spelling, and the lexer's tables against that list; how numbers are written. */
module Spellings {
  import opened Lexemes
  import opened Lexer
  import opened Numerals

  /** The mark is written at the front of these characters. */
  predicate StandsAt(kind: Kind, c: char, d: char, e: char) {
    || (kind.LPAREN? && c == '(')
    || (kind.RPAREN? && c == ')')
    || (kind.LBRACE? && c == '{')
    || (kind.RBRACE? && c == '}')
    || (kind.LBRACKET? && c == '[')
    || (kind.RBRACKET? && c == ']')
    || (kind.COMMA? && c == ',')
    || (kind.SEMICOLON? && c == ';')
    || (kind.COLON? && c == ':')
    || (kind.DOT? && c == '.')
    || (kind.ARROW? && c == '-' && d == '>')
    || (kind.PLUS? && c == '+')
    || (kind.MINUS? && c == '-')
    || (kind.STAR? && c == '*')
    || (kind.SLASH? && c == '/')
    || (kind.PERCENT? && c == '%')
    || (kind.AMP? && c == '&')
    || (kind.PIPE? && c == '|')
    || (kind.CARET? && c == '^')
    || (kind.TILDE? && c == '~')
    || (kind.LSHIFT? && c == '<' && d == '<')
    || (kind.RSHIFT? && c == '>' && d == '>')
    || (kind.AMP_AMP? && c == '&' && d == '&')
    || (kind.PIPE_PIPE? && c == '|' && d == '|')
    || (kind.BANG? && c == '!')
    || (kind.ASSIGN? && c == '=')
    || (kind.PLUS_ASSIGN? && c == '+' && d == '=')
    || (kind.MINUS_ASSIGN? && c == '-' && d == '=')
    || (kind.STAR_ASSIGN? && c == '*' && d == '=')
    || (kind.SLASH_ASSIGN? && c == '/' && d == '=')
    || (kind.PERCENT_ASSIGN? && c == '%' && d == '=')
    || (kind.AMP_ASSIGN? && c == '&' && d == '=')
    || (kind.PIPE_ASSIGN? && c == '|' && d == '=')
    || (kind.CARET_ASSIGN? && c == '^' && d == '=')
    || (kind.LSHIFT_ASSIGN? && c == '<' && d == '<' && e == '=')
    || (kind.RSHIFT_ASSIGN? && c == '>' && d == '>' && e == '=')
    || (kind.EQUAL? && c == '=' && d == '=')
    || (kind.BANG_EQUAL? && c == '!' && d == '=')
    || (kind.LESS? && c == '<')
    || (kind.GREATER? && c == '>')
    || (kind.LESS_EQUAL? && c == '<' && d == '=')
    || (kind.GREATER_EQUAL? && c == '>' && d == '=')
  }

  predicate OfTwo(kind: Kind) {
    || kind.ARROW? || kind.LSHIFT? || kind.RSHIFT? || kind.AMP_AMP? || kind.PIPE_PIPE? || kind.PLUS_ASSIGN?
    || kind.MINUS_ASSIGN? || kind.STAR_ASSIGN? || kind.SLASH_ASSIGN? || kind.PERCENT_ASSIGN? || kind.AMP_ASSIGN?
    || kind.PIPE_ASSIGN? || kind.CARET_ASSIGN? || kind.EQUAL? || kind.BANG_EQUAL? || kind.LESS_EQUAL?
    || kind.GREATER_EQUAL?
  }

  /** How many characters a mark has. */
  function Size(kind: Kind): nat {
    if kind.LSHIFT_ASSIGN? || kind.RSHIFT_ASSIGN? then 3 else if OfTwo(kind) then 2 else 1
  }

  /** The mark that is taken is the longest one that is written at the front of the next three characters, if any. */
  lemma LongestMark(c: char, d: char, e: char)
    ensures var (kind, n) := Operator(c, d, e);
            && (kind == ERROR <==> forall k :: !StandsAt(k, c, d, e))
            && (kind != ERROR ==> StandsAt(kind, c, d, e) && n == Size(kind))
            && (forall k :: StandsAt(k, c, d, e) ==> Size(k) <= n)
  {
    if Operator(c, d, e).0 != ERROR {
      MarkIsWritten(c, d, e);
    }
    forall k | StandsAt(k, c, d, e) ensures Size(k) <= Operator(c, d, e).1 && Operator(c, d, e).0 != ERROR {
      NoLongerMark(c, d, e, k);
    }
    hide Operator, StandsAt, Size;
  }

  lemma MarkIsWritten(c: char, d: char, e: char)
    requires Operator(c, d, e).0 != ERROR
    ensures var (kind, n) := Operator(c, d, e);
            n == Size(kind) && StandsAt(kind, c, d, e)
  {
    hide Simple, Size;
    SimpleIsWritten(c, d, e);
    LongSizes();
  }

  lemma LongSizes()
    ensures Size(LSHIFT_ASSIGN) == Size(RSHIFT_ASSIGN) == 3
    ensures Size(LSHIFT) == Size(RSHIFT) == Size(ARROW) == Size(AMP_AMP) == Size(PIPE_PIPE) == 2
  {
  }

  predicate Writes(one: Kind, two: Kind, c: char, d: char, e: char) {
    && (one != ERROR ==> StandsAt(one, c, d, e) && Size(one) == 1)
    && (two != ERROR && d == '=' ==> StandsAt(two, c, d, e) && Size(two) == 2)
  }

  lemma BracketIsWritten(c: char, d: char, e: char)
    requires c == '(' || c == ')' || c == '{' || c == '}' || c == '[' || c == ']'
    ensures Writes(Simple(c).0, Simple(c).1, c, d, e)
  {
  }

  lemma PunctuationIsWritten(c: char, d: char, e: char)
    requires c == '.' || c == ':' || c == ';' || c == ',' || c == '~'
    ensures Writes(Simple(c).0, Simple(c).1, c, d, e)
  {
  }

  lemma ArithmeticIsWritten(c: char, d: char, e: char)
    requires c == '+' || c == '-' || c == '*' || c == '/' || c == '%'
    ensures Writes(Simple(c).0, Simple(c).1, c, d, e)
  {
  }

  lemma ComparisonIsWritten(c: char, d: char, e: char)
    requires c == '<' || c == '>' || c == '=' || c == '!'
    ensures Writes(Simple(c).0, Simple(c).1, c, d, e)
  {
  }

  lemma BitwiseIsWritten(c: char, d: char, e: char)
    requires c == '&' || c == '|' || c == '^'
    ensures Writes(Simple(c).0, Simple(c).1, c, d, e)
  {
  }

  lemma SimpleIsWritten(c: char, d: char, e: char)
    ensures Writes(Simple(c).0, Simple(c).1, c, d, e)
  {
    hide StandsAt, Size;
    if c == '(' || c == ')' || c == '{' || c == '}' || c == '[' || c == ']' {
      BracketIsWritten(c, d, e);
    } else if c == '.' || c == ':' || c == ';' || c == ',' || c == '~' {
      PunctuationIsWritten(c, d, e);
    } else if c == '+' || c == '-' || c == '*' || c == '/' || c == '%' {
      ArithmeticIsWritten(c, d, e);
    } else if c == '<' || c == '>' || c == '=' || c == '!' {
      ComparisonIsWritten(c, d, e);
    } else if c == '&' || c == '|' || c == '^' {
      BitwiseIsWritten(c, d, e);
    }
  }

  lemma NoLongerMark(c: char, d: char, e: char, kind: Kind)
    requires StandsAt(kind, c, d, e)
    ensures Size(kind) <= Operator(c, d, e).1 && Operator(c, d, e).0 != ERROR
  {
    hide StandsAt, Size, Simple;
    FirstIsMark(c, d, e, kind);
    LongMarks(c, d, e, kind);
    if Size(kind) == 2 && d == '=' {
      SecondIsMark(c, e, kind);
    }
  }

  lemma FirstIsMark(c: char, d: char, e: char, kind: Kind)
    requires StandsAt(kind, c, d, e)
    ensures Simple(c).0 != ERROR
  {
  }

  lemma SecondIsMark(c: char, e: char, kind: Kind)
    requires StandsAt(kind, c, '=', e) && Size(kind) == 2
    ensures Simple(c).1 != ERROR
  {
  }

  lemma LongMarks(c: char, d: char, e: char, kind: Kind)
    requires StandsAt(kind, c, d, e)
    ensures Size(kind) <= 3
    ensures Size(kind) == 3 ==> e == '=' && ((c == d == '<') || (c == d == '>'))
    ensures Size(kind) == 2 && d != '=' ==>
              (c == d && (c == '<' || c == '>' || c == '&' || c == '|')) || (c == '-' && d == '>')
  {
  }

  // ---------------------------------------------------------------------------------------------------
  // Words

  /** How the keywords, and the values that are written in one way only, are written. */
  predicate Spelled(text: string, kind: Kind) {
    Declaring(text, kind) || Control(text, kind) || Naming(text, kind) || Literal(text, kind)
  }

  predicate Declaring(text: string, kind: Kind) {
    || (kind.VAR? && text == "var")
    || (kind.CONST? && text == "const")
    || (kind.ANY? && text == "any")
    || (kind.IF? && text == "if")
    || (kind.ELSE? && text == "else")
    || (kind.MATCH? && text == "match")
    || (kind.CASE? && text == "case")
    || (kind.WHILE? && text == "while")
  }

  predicate Control(text: string, kind: Kind) {
    || (kind.DO? && text == "do")
    || (kind.FOR? && text == "for")
    || (kind.IN? && text == "in")
    || (kind.RETURN? && text == "return")
    || (kind.BREAK? && text == "break")
    || (kind.CONTINUE? && text == "continue")
    || (kind.FN? && text == "fn")
    || (kind.PRINT? && text == "print")
  }

  predicate Naming(text: string, kind: Kind) {
    || (kind.SELF? && text == "self")
    || (kind.TYPE? && text == "type")
    || (kind.INTERFACE? && text == "interface")
    || (kind.EXTEND? && text == "extend")
    || (kind.KW_OR? && text == "or")
    || (kind.KW_AND? && text == "and")
    || (kind.KW_NOT? && text == "not")
  }

  predicate Literal(text: string, kind: Kind) {
    || (kind.TRUE? && text == "true")
    || (kind.FALSE? && text == "false")
    || (kind.NULL? && text == "null")
  }

  /** The length and the first three letters tell them apart. */
  predicate HasLetters(text: string, kind: Kind) {
    || (kind.VAR? && |text| == 3 && text[0] == 'v' && text[1] == 'a' && text[2] == 'r')
    || (kind.CONST? && |text| == 5 && text[0] == 'c' && text[1] == 'o' && text[2] == 'n')
    || (kind.ANY? && |text| == 3 && text[0] == 'a' && text[1] == 'n' && text[2] == 'y')
    || (kind.IF? && |text| == 2 && text[0] == 'i' && text[1] == 'f')
    || (kind.ELSE? && |text| == 4 && text[0] == 'e' && text[1] == 'l' && text[2] == 's')
    || (kind.MATCH? && |text| == 5 && text[0] == 'm' && text[1] == 'a' && text[2] == 't')
    || (kind.CASE? && |text| == 4 && text[0] == 'c' && text[1] == 'a' && text[2] == 's')
    || (kind.WHILE? && |text| == 5 && text[0] == 'w' && text[1] == 'h' && text[2] == 'i')
    || (kind.DO? && |text| == 2 && text[0] == 'd' && text[1] == 'o')
    || (kind.FOR? && |text| == 3 && text[0] == 'f' && text[1] == 'o' && text[2] == 'r')
    || (kind.IN? && |text| == 2 && text[0] == 'i' && text[1] == 'n')
    || (kind.RETURN? && |text| == 6 && text[0] == 'r' && text[1] == 'e' && text[2] == 't')
    || (kind.BREAK? && |text| == 5 && text[0] == 'b' && text[1] == 'r' && text[2] == 'e')
    || (kind.CONTINUE? && |text| == 8 && text[0] == 'c' && text[1] == 'o' && text[2] == 'n')
    || (kind.FN? && |text| == 2 && text[0] == 'f' && text[1] == 'n')
    || (kind.PRINT? && |text| == 5 && text[0] == 'p' && text[1] == 'r' && text[2] == 'i')
    || (kind.SELF? && |text| == 4 && text[0] == 's' && text[1] == 'e' && text[2] == 'l')
    || (kind.TYPE? && |text| == 4 && text[0] == 't' && text[1] == 'y' && text[2] == 'p')
    || (kind.INTERFACE? && |text| == 9 && text[0] == 'i' && text[1] == 'n' && text[2] == 't')
    || (kind.EXTEND? && |text| == 6 && text[0] == 'e' && text[1] == 'x' && text[2] == 't')
    || (kind.KW_OR? && |text| == 2 && text[0] == 'o' && text[1] == 'r')
    || (kind.KW_AND? && |text| == 3 && text[0] == 'a' && text[1] == 'n' && text[2] == 'd')
    || (kind.KW_NOT? && |text| == 3 && text[0] == 'n' && text[1] == 'o' && text[2] == 't')
    || (kind.TRUE? && |text| == 4 && text[0] == 't' && text[1] == 'r' && text[2] == 'u')
    || (kind.FALSE? && |text| == 5 && text[0] == 'f' && text[1] == 'a' && text[2] == 'l')
    || (kind.NULL? && |text| == 4 && text[0] == 'n' && text[1] == 'u' && text[2] == 'l')
  }

  lemma DeclaringLetters(text: string, kind: Kind)
    requires Declaring(text, kind)
    ensures HasLetters(text, kind)
  {
  }

  lemma ControlLetters(text: string, kind: Kind)
    requires Control(text, kind)
    ensures HasLetters(text, kind)
  {
  }

  lemma NamingLetters(text: string, kind: Kind)
    requires Naming(text, kind)
    ensures HasLetters(text, kind)
  {
  }

  lemma LiteralLetters(text: string, kind: Kind)
    requires Literal(text, kind)
    ensures HasLetters(text, kind)
  {
  }

  lemma LettersAre(text: string, kind: Kind)
    requires Spelled(text, kind)
    ensures HasLetters(text, kind)
  {
    hide Declaring, Control, Naming, Literal, HasLetters;
    if Declaring(text, kind) {
      DeclaringLetters(text, kind);
    } else if Control(text, kind) {
      ControlLetters(text, kind);
    } else if Naming(text, kind) {
      NamingLetters(text, kind);
    } else {
      LiteralLetters(text, kind);
    }
  }

  lemma ShortDiffer(text: string, a: Kind, b: Kind)
    requires HasLetters(text, a) && HasLetters(text, b) && |text| < 4
    ensures a == b
  {
  }

  lemma MiddleDiffer(text: string, a: Kind, b: Kind)
    requires HasLetters(text, a) && HasLetters(text, b) && |text| == 4
    ensures a == b
  {
  }

  lemma LongDiffer(text: string, a: Kind, b: Kind)
    requires HasLetters(text, a) && HasLetters(text, b) && |text| > 4
    ensures a == b
  {
  }

  lemma SpellingsDiffer(text: string, a: Kind, b: Kind)
    requires Spelled(text, a) && Spelled(text, b)
    ensures a == b
  {
    hide Spelled, HasLetters;
    LettersAre(text, a);
    LettersAre(text, b);
    if |text| < 4 {
      ShortDiffer(text, a, b);
    } else if |text| == 4 {
      MiddleDiffer(text, a, b);
    } else {
      LongDiffer(text, a, b);
    }
  }

  // ---------------------------------------------------------------------------------------------------
  // The lexer's tables

  /** Each word of the table is the spelling of its kind. */
  predicate Tabled(table: seq<Word>) {
    forall j :: 0 <= j < |table| ==> Spelled(table[j].text, table[j].kind) && !table[j].ignoreCase
  }

  lemma DeclaringTable()
    ensures Tabled(DECLARING)
  {
    var table := DECLARING;
    assert forall j :: 0 <= j < |table| ==> Declaring(table[j].text, table[j].kind) && !table[j].ignoreCase;
    hide Declaring;
  }

  lemma ControlTable()
    ensures Tabled(CONTROL)
  {
    var table := CONTROL;
    assert forall j :: 0 <= j < |table| ==> Control(table[j].text, table[j].kind) && !table[j].ignoreCase;
    hide Control;
  }

  lemma NamingTable()
    ensures Tabled(NAMING)
  {
    var table := NAMING;
    assert forall j :: 0 <= j < |table| ==> Naming(table[j].text, table[j].kind) && !table[j].ignoreCase;
    hide Naming;
  }

  lemma LiteralTable()
    ensures |VALUES| == 6 && Tabled(VALUES[..3])
  {
    var table := VALUES[..3];
    assert forall j :: 0 <= j < |table| ==> Literal(table[j].text, table[j].kind) && !table[j].ignoreCase;
    hide Literal;
  }

  /** A text is in such a table exactly when one of its words is that text, and then it is the spelling of its kind. */
  lemma {:induction false} TableSpells(text: string, table: seq<Word>)
    requires Tabled(table)
    ensures KindIn(text, table) != EOF ==> Spelled(text, KindIn(text, table))
    ensures KindIn(text, table) != EOF <==> exists j :: 0 <= j < |table| && table[j].text == text
  {
    if table != [] {
      NoneSpellsEnd(table[0].text);
      var rest := table[1..];
      assert forall j :: 1 <= j < |table| ==> table[j] == rest[j - 1];
      hide Spelled;
      assert Tabled(rest);
      TableSpells(text, rest);
      if exists j :: 0 <= j < |rest| && rest[j].text == text {
        var j :| 0 <= j < |rest| && rest[j].text == text;
        assert table[j + 1].text == text;
      }
    }
  }

  lemma NoneSpellsEnd(text: string)
    ensures !Spelled(text, EOF)
  {
  }

  lemma {:induction false} BothTables(text: string, a: seq<Word>, b: seq<Word>)
    requires Tabled(a)
    ensures KindIn(text, a + b) == if KindIn(text, a) != EOF then KindIn(text, a) else KindIn(text, b)
  {
    if a == [] {
      assert a + b == b;
    } else {
      NoneSpellsEnd(a[0].text);
      hide Spelled;
      assert (a + b)[1..] == a[1..] + b;
      BothTables(text, a[1..], b);
    }
  }

  /** The kind of a word, table by table. */
  lemma WordKindIs(text: string)
    ensures WordKind(text) ==
            if KindIn(text, DECLARING) != EOF then KindIn(text, DECLARING)
            else if KindIn(text, CONTROL) != EOF then KindIn(text, CONTROL)
            else if KindIn(text, NAMING) != EOF then KindIn(text, NAMING)
            else if KindIn(text, VALUES[..3]) != EOF then KindIn(text, VALUES[..3])
            else if KindIn(text, VALUES[3..]) != EOF then KindIn(text, VALUES[3..])
            else IDENTIFIER
  {
    hide DECLARING, CONTROL, NAMING, VALUES, KindIn, Tabled;
    DeclaringTable();
    ControlTable();
    NamingTable();
    LiteralTable();
    BothTables(text, DECLARING, CONTROL + NAMING);
    BothTables(text, CONTROL, NAMING);
    BothTables(text, VALUES[..3], VALUES[3..]);
    assert DECLARING + (CONTROL + NAMING) == KEYWORDS && VALUES[..3] + VALUES[3..] == VALUES;
  }

  lemma InTable(text: string, table: seq<Word>, j: nat)
    requires Tabled(table) && j < |table| && table[j].text == text
    ensures KindIn(text, table) != EOF
  {
    TableSpells(text, table);
  }

  lemma InDeclaring(text: string, kind: Kind)
    requires Declaring(text, kind)
    ensures KindIn(text, DECLARING) != EOF
  {
    DeclaringTable();
    var table := DECLARING;
    hide KindIn, Tabled, Spelled;
    match kind
    case VAR => InTable(text, table, 0);
    case CONST => InTable(text, table, 1);
    case ANY => InTable(text, table, 2);
    case IF => InTable(text, table, 3);
    case ELSE => InTable(text, table, 4);
    case MATCH => InTable(text, table, 5);
    case CASE => InTable(text, table, 6);
    case WHILE => InTable(text, table, 7);
  }

  lemma InControl(text: string, kind: Kind)
    requires Control(text, kind)
    ensures KindIn(text, CONTROL) != EOF
  {
    ControlTable();
    var table := CONTROL;
    hide KindIn, Tabled, Spelled;
    match kind
    case DO => InTable(text, table, 0);
    case FOR => InTable(text, table, 1);
    case IN => InTable(text, table, 2);
    case RETURN => InTable(text, table, 3);
    case BREAK => InTable(text, table, 4);
    case CONTINUE => InTable(text, table, 5);
    case FN => InTable(text, table, 6);
    case PRINT => InTable(text, table, 7);
  }

  lemma InNaming(text: string, kind: Kind)
    requires Naming(text, kind)
    ensures KindIn(text, NAMING) != EOF
  {
    NamingTable();
    var table := NAMING;
    hide KindIn, Tabled, Spelled;
    match kind
    case SELF => InTable(text, table, 0);
    case TYPE => InTable(text, table, 1);
    case INTERFACE => InTable(text, table, 2);
    case EXTEND => InTable(text, table, 3);
    case KW_OR => InTable(text, table, 4);
    case KW_AND => InTable(text, table, 5);
    case KW_NOT => InTable(text, table, 6);
  }

  lemma InLiteral(text: string, kind: Kind)
    requires Literal(text, kind)
    ensures |VALUES| == 6 && KindIn(text, VALUES[..3]) != EOF
  {
    LiteralTable();
    var table := VALUES[..3];
    hide KindIn, Tabled, Spelled;
    match kind
    case TRUE => InTable(text, table, 0);
    case FALSE => InTable(text, table, 1);
    case NULL => InTable(text, table, 2);
  }

  lemma OtherValues(text: string)
    ensures |VALUES| == 6
    ensures KindIn(text, VALUES[3..]) ==
            if SameIgnoringCase(text, "nan") then NAN
            else if SameIgnoringCase(text, "inf") || SameIgnoringCase(text, "infinity") then INF else EOF
  {
    var a, b, d := Word("nan", NAN, true), Word("inf", INF, true), Word("infinity", INF, true);
    assert VALUES[3..] == [a, b, d];
    OneCase("nan");
    OneCase("inf");
    OneCase("infinity");
    hide SameIgnoringCase;
    assert [a, b, d][1..] == [b, d] && [b, d][1..] == [d] && [d][1..] == [];
    assert KindIn(text, [d]) == if Spells(text, d) then INF else EOF;
    assert KindIn(text, [b, d]) == if Spells(text, b) then INF else KindIn(text, [d]);
  }

  lemma OneCase(word: string)
    ensures SameIgnoringCase(word, word)
  {
  }

  lemma NotSpelled(text: string, kind: Kind)
    requires SameIgnoringCase(text, "nan") || SameIgnoringCase(text, "inf") || SameIgnoringCase(text, "infinity")
    ensures !Spelled(text, kind)
  {
    hide Spelled;
    if Spelled(text, kind) {
      LettersAre(text, kind);
    }
  }

  /** A text that is spelled as a kind is in one of the tables. */
  lemma InSomeTable(text: string, kind: Kind)
    requires Spelled(text, kind)
    ensures |VALUES| == 6
    ensures KindIn(text, DECLARING) != EOF || KindIn(text, CONTROL) != EOF || KindIn(text, NAMING) != EOF ||
            KindIn(text, VALUES[..3]) != EOF
  {
    hide Declaring, Control, Naming, Literal, KindIn, DECLARING, CONTROL, NAMING, VALUES, Tabled;
    LiteralTable();
    if Declaring(text, kind) {
      InDeclaring(text, kind);
    } else if Control(text, kind) {
      InControl(text, kind);
    } else if Naming(text, kind) {
      InNaming(text, kind);
    } else {
      InLiteral(text, kind);
    }
  }

  /** What the tables say is how the word is spelled. */
  lemma TablesAreSpelled(text: string)
    ensures |VALUES| == 6
    ensures KindIn(text, DECLARING) != EOF ==> Spelled(text, KindIn(text, DECLARING))
    ensures KindIn(text, CONTROL) != EOF ==> Spelled(text, KindIn(text, CONTROL))
    ensures KindIn(text, NAMING) != EOF ==> Spelled(text, KindIn(text, NAMING))
    ensures KindIn(text, VALUES[..3]) != EOF ==> Spelled(text, KindIn(text, VALUES[..3]))
  {
    hide DECLARING, CONTROL, NAMING, VALUES, KindIn, Tabled, Spelled;
    DeclaringTable();
    ControlTable();
    NamingTable();
    LiteralTable();
    TableSpells(text, DECLARING);
    TableSpells(text, CONTROL);
    TableSpells(text, NAMING);
    TableSpells(text, VALUES[..3]);
  }

  /**
  A word is a keyword, or one of the values written in one way, exactly when it is spelled so; it is `nan` or `inf`
  exactly when it is one of their words, in whatever case; otherwise it is a name.
  */
  lemma WordsAreSpelled(text: string, kind: Kind)
    ensures kind !in {IDENTIFIER, NAN, INF} ==> (WordKind(text) == kind <==> Spelled(text, kind))
    ensures WordKind(text) == NAN <==> SameIgnoringCase(text, "nan")
    ensures WordKind(text) == INF <==> SameIgnoringCase(text, "inf") || SameIgnoringCase(text, "infinity")
  {
    hide DECLARING, CONTROL, NAMING, VALUES, KindIn, Tabled, Spelled, WordKind, SameIgnoringCase;
    WordKindIs(text);
    OtherValues(text);
    TablesAreSpelled(text);
    if Spelled(text, kind) {
      InSomeTable(text, kind);
      SpellingsDiffer(text, kind, WordKind(text));
    }
    NoneSpelledSo(text);
    NoneIgnoringCase(text);
  }

  lemma NoneIgnoringCase(text: string)
    ensures SameIgnoringCase(text, "nan") || SameIgnoringCase(text, "inf") || SameIgnoringCase(text, "infinity") ==>
              forall k :: !Spelled(text, k)
    ensures !(SameIgnoringCase(text, "nan") && (SameIgnoringCase(text, "inf") || SameIgnoringCase(text, "infinity")))
  {
    if SameIgnoringCase(text, "nan") || SameIgnoringCase(text, "inf") || SameIgnoringCase(text, "infinity") {
      forall k ensures !Spelled(text, k) {
        NotSpelled(text, k);
      }
    }
    hide Spelled;
    assert |"nan"| == 3 == |"inf"| && |"infinity"| == 8 && "nan"[0] == 'n' && "inf"[0] == 'i';
    assert SameIgnoringCase(text, "nan") ==> Lower(text[0]) == 'n';
    assert SameIgnoringCase(text, "inf") ==> Lower(text[0]) == 'i';
  }

  lemma NoneSpelledSo(text: string)
    ensures !Spelled(text, IDENTIFIER) && !Spelled(text, NAN) && !Spelled(text, INF)
  {
  }

  // ---------------------------------------------------------------------------------------------------
  // Numbers

  /** The whole text is one number, an integer of this value unless that is too large. */
  ghost predicate WholeInteger(src: string, value: nat) {
    forall to: nat, t: Token :: IsNumber(src, 0, to, t) ==>
      to == |src| && if value < 0x8000_0000_0000_0000 then t.kind == INTEGER && t.value == value else t.kind == ERROR
  }

  lemma SuffixRun(pre: string, ds: string, base: nat)
    requires base in {2, 8, 10, 16} && forall i :: 0 <= i < |ds| ==> RadixDigit(base, ds[i])
    ensures DigitRun(pre + ds, |pre|, |pre + ds|, base)
  {
    assert !RadixDigit(base, '\0');
    hide RadixDigit;
    var src := pre + ds;
    forall i | |pre| <= i < |src| ensures RadixDigit(base, src[i]) {
      assert src[i] == ds[i - |pre|];
    }
  }

  /** The digits run from `start` to the end of the text. */
  lemma RunIsWhole(src: string, start: nat, base: nat)
    requires start < |src| && base in {2, 8, 16} && BaseAt(src, 0) == base && DigitsFrom(src, 0) == start
    requires DigitRun(src, start, |src|, base)
    ensures WholeInteger(src, Value(src[start..], base))
  {
    hide BaseAt, DigitsFrom, DigitRun, Value;
    RunIs(src, start, |src|, base);
    assert src[start..|src|] == src[start..];
  }

  /** Digits of the base. */
  predicate DigitsOf(base: nat, ds: string) {
    forall i :: 0 <= i < |ds| ==> RadixDigit(base, ds[i])
  }

  lemma DigitsAreHex(base: nat, ds: string)
    requires DigitsOf(base, ds)
    ensures Hex(ds)
  {
    hide RadixDigit, HexDigit;
  }

  lemma BaseOfPrefix(src: string)
    requires |src| > 1 && src[0] == '0'
    ensures (src[1] == 'x' || src[1] == 'X') ==> BaseAt(src, 0) == 16 && DigitsFrom(src, 0) == 2
    ensures (src[1] == 'b' || src[1] == 'B') ==> BaseAt(src, 0) == 2 && DigitsFrom(src, 0) == 2
    ensures OctalDigit(src[1]) ==> BaseAt(src, 0) == 8 && DigitsFrom(src, 0) == 0
  {
  }

  /** `0x` and `0X`, then hexadecimal digits. */
  lemma HexadecimalForm(x: char, ds: string)
    requires (x == 'x' || x == 'X') && ds != "" && DigitsOf(16, ds)
    ensures Hex(ds) && WholeInteger(['0', x] + ds, Value(ds, 16))
  {
    hide RadixDigit, DigitRun, BaseAt, DigitsFrom, WholeInteger, Value, Hex;
    var src := ['0', x] + ds;
    assert src[2..] == ds;
    DigitsAreHex(16, ds);
    SuffixRun(['0', x], ds, 16);
    BaseOfPrefix(src);
    RunIsWhole(src, 2, 16);
  }

  /** `0b` and `0B`, then binary digits. */
  lemma BinaryForm(b: char, ds: string)
    requires (b == 'b' || b == 'B') && ds != "" && DigitsOf(2, ds)
    ensures Hex(ds) && WholeInteger(['0', b] + ds, Value(ds, 2))
  {
    hide RadixDigit, DigitRun, BaseAt, DigitsFrom, WholeInteger, Value, Hex;
    var src := ['0', b] + ds;
    assert src[2..] == ds;
    DigitsAreHex(2, ds);
    SuffixRun(['0', b], ds, 2);
    BaseOfPrefix(src);
    RunIsWhole(src, 2, 2);
  }

  /** A zero, then octal digits. */
  lemma OctalForm(ds: string)
    requires ds != "" && DigitsOf(8, ds)
    ensures Hex("0" + ds) && WholeInteger("0" + ds, Value("0" + ds, 8))
  {
    var src := "0" + ds;
    assert src[0] == '0' && src[1] == ds[0] && OctalDigit(ds[0]);
    assert RadixDigit(8, '0') && DigitsOf(8, src) by {
      forall i | 0 <= i < |src| ensures RadixDigit(8, src[i]) {
        assert i > 0 ==> src[i] == ds[i - 1];
      }
    }
    hide RadixDigit, DigitRun, BaseAt, DigitsFrom, WholeInteger, Value, Hex, OctalDigit;
    DigitsAreHex(8, src);
    SuffixRun([], src, 8);
    assert [] + src == src && src[0..] == src;
    BaseOfPrefix(src);
    RunIsWhole(src, 0, 8);
  }

  /** Decimal digits without a zero in front. */
  lemma DecimalForm(ds: string)
    requires ds != "" && ds[0] != '0' && DigitsOf(10, ds)
    ensures Hex(ds) && WholeInteger(ds, Value(ds, 10))
  {
    DigitsAreHex(10, ds);
    SuffixRun([], ds, 10);
    assert [] + ds == ds && ds[0..|ds|] == ds;
    RunIs(ds, 0, |ds|, 10);
    NoFraction(ds);
    assert BaseAt(ds, 0) == 10 && DigitsFrom(ds, 0) == 0;
    hide DigitRun, Value, RunEnd, RadixDigit, FractionEnd, BaseAt, DigitsFrom, Hex, DigitsOf;
  }

  lemma NoFraction(ds: string)
    ensures FractionEnd(ds, |ds|) == (|ds|, true)
  {
  }

  /** What the digits stand for. */
  lemma DigitsStandFor()
    ensures Hex("1fA") && Value("1fA", 16) == 506
    ensures Hex("101") && Value("101", 2) == 5 && Value("0101", 8) == 65 && Value("101", 10) == 101
  {
    assert "1fA"[..2] == "1f" && "1f"[..1] == "1" && "1"[..0] == "";
    assert "101"[..2] == "10" && "10"[..1] == "1";
    assert "0101"[..3] == "010" && "010"[..2] == "01" && "01"[..1] == "0" && "0"[..0] == "";
  }

  /** Decimal digits, a point, and digits: a float, unless it is out of range. */
  lemma PointForm(ds: string, es: string, to: nat, t: Token)
    requires ds != "" && (ds[0] != '0' || ds == "0") && DigitsOf(10, ds) && DigitsOf(10, es)
    requires IsNumber(ds + "." + es, 0, to, t)
    ensures to == |ds + "." + es| && (t.kind == FLOAT || (t.kind == ERROR && t.message == OUT_OF_RANGE))
  {
    var src := ds + "." + es;
    assert src[..|ds|] == ds && src[|ds|] == '.' && src[|ds| + 1..] == es;
    assert forall i :: |ds| < i < |src| ==> src[i] == es[i - |ds| - 1];
    assert DigitRun(src, 0, |ds|, 10) && DigitRun(src, |ds| + 1, |src|, 10);
    RunIs(src, 0, |ds|, 10);
    RunIs(src, |ds| + 1, |src|, 10);
  }
}
