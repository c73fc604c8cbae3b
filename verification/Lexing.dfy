/** What the lexer's cursor machine computes, as a function of the text that is left. */
module Lexing {

  /** Python's character tables and its float conversion, as far as the lexer and the formatter
      consult them. */
  datatype Tables = Tables(alpha: char -> bool, alnum: char -> bool, space: char -> bool, finite: string -> bool)

  predicate AsciiLetter(c: char) { 'a' <= c <= 'z' || 'A' <= c <= 'Z' }

  predicate AsciiSpace(c: char)
  {
    c == ' ' || '\t' <= c <= '\r' || '\U{1c}' <= c <= '\U{1f}'
  }

  /** What is known of the tables: their ASCII part, and that spaces are not alphanumeric. */
  ghost predicate Sane(t: Tables)
  {
    forall c: char ::
      && (t.alpha(c) ==> t.alnum(c))
      && (t.space(c) ==> !t.alnum(c))
      && (c < '\U{80}' ==> t.alpha(c) == AsciiLetter(c) && t.alnum(c) == (AsciiLetter(c) || Digit(c)) && t.space(c) == AsciiSpace(c))
  }

  datatype Token =
    | Word(text: string)                    // identifier or keyword
    | Int(base: nat, digits: string)
    | Float(text: string)
    | Char(code: int)
    | Str(text: string)                     // escapes kept verbatim
    | Symbol(text: string)

  datatype Lexed<+T> = Ok(value: T) | Failed
  {
    predicate IsFailure() { Failed? }
    function PropagateFailure<U>(): Lexed<U> requires Failed? { Failed }
    function Extract(): T requires Ok? { value }
  }

  function Guard(b: bool): Lexed<()> { if b then Ok(()) else Failed }

  /** The character at an index, or NUL past the end. */
  function At(s: string, j: nat): char { if j < |s| then s[j] else '\0' }

  predicate Digit(c: char) { '0' <= c <= '9' }

  predicate HexDigit(c: char) { Digit(c) || 'a' <= c <= 'f' || 'A' <= c <= 'F' }

  // ----- runs of characters -----

  datatype CharClass = Decimal | DecimalSep | HexSep | BinarySep | OctalSep | WordChars

  predicate InClass(t: Tables, k: CharClass, c: char)
  {
    match k
    case Decimal => Digit(c)
    case DecimalSep => Digit(c) || c == '_'
    case HexSep => HexDigit(c) || c == '_'
    case BinarySep => c == '0' || c == '1' || c == '_'
    case OctalSep => '0' <= c <= '7' || c == '_'
    case WordChars => t.alnum(c) || c == '_'
  }

  /** Where the run of class characters that starts at j ends. */
  function RunEnd(t: Tables, k: CharClass, s: string, j: nat): (e: nat)
    requires j <= |s|
    ensures j <= e <= |s|
    decreases |s| - j
  {
    if j < |s| && InClass(t, k, s[j]) then RunEnd(t, k, s, j + 1) else j
  }

  predicate StickyEnd(t: Tables, c: char) { t.alnum(c) || c == '_' }

  function DropSeparators(s: string): string
  {
    if s == "" then "" else (if s[0] == '_' then "" else [s[0]]) + DropSeparators(s[1..])
  }

  predicate DoubleSeparator(s: string)
  {
    exists i | 0 <= i < |s| - 1 :: s[i] == '_' && s[i + 1] == '_'
  }

  predicate GoodSeparators(s: string)
  {
    s != "" ==> s[0] != '_' && s[|s| - 1] != '_' && !DoubleSeparator(s)
  }

  // ----- numbers -----

  function ScanPrefixed(t: Tables, s: string, k: CharClass, base: nat): Lexed<(Token, nat)>
    requires |s| >= 2
  {
    var e := RunEnd(t, k, s, 2);
    var digits := s[2..e];
    var _ :- Guard(digits != "" && GoodSeparators(digits) && !StickyEnd(t, At(s, e)));
    Ok((Int(base, DropSeparators(digits)), e))
  }

  /** An exponent whose `e` is at j; gives the index after it. */
  function ScanExponent(t: Tables, s: string, j: nat): Lexed<nat>
    requires j < |s|
  {
    var k := if At(s, j + 1) == '+' || At(s, j + 1) == '-' then j + 2 else j + 1;
    var _ :- Guard(Digit(At(s, k)));
    Ok(RunEnd(t, Decimal, s, k))
  }

  predicate IsExp(c: char) { c == 'e' || c == 'E' }

  function ScanFloatEnd(t: Tables, s: string, e: nat): Lexed<(Token, nat)>
    requires e <= |s|
  {
    var text := DropSeparators(s[..e]);
    var _ :- Guard(!StickyEnd(t, At(s, e)) && t.finite(text));
    Ok((Float(text), e))
  }

  /** The digits so far end at j, where an exponent begins. */
  function ScanScientific(t: Tables, s: string, j: nat): Lexed<(Token, nat)>
    requires j < |s|
  {
    var g :- ScanExponent(t, s, j);
    ScanFloatEnd(t, s, g)
  }

  /** The digits so far end at j, where a point and a digit follow. */
  function ScanFraction(t: Tables, s: string, j: nat): Lexed<(Token, nat)>
    requires j < |s|
  {
    var f := RunEnd(t, Decimal, s, j + 1);
    if IsExp(At(s, f)) then ScanScientific(t, s, f) else ScanFloatEnd(t, s, f)
  }

  function ScanDecimal(t: Tables, s: string): Lexed<(Token, nat)>
  {
    var e := RunEnd(t, DecimalSep, s, 0);
    var _ :- Guard(GoodSeparators(s[..e]));
    if At(s, e) == '.' && Digit(At(s, e + 1)) then ScanFraction(t, s, e)
    else if IsExp(At(s, e)) then ScanScientific(t, s, e)
    else
      var _ :- Guard(!t.alpha(At(s, e)) && At(s, e) != '_');
      Ok((Int(10, DropSeparators(s[..e])), e))
  }

  /** A decimal after a dot is a tuple index, never a float. */
  function ScanIndex(t: Tables, s: string): Lexed<(Token, nat)>
  {
    var e := RunEnd(t, Decimal, s, 0);
    var _ :- Guard(!t.alpha(At(s, e)) && At(s, e) != '_');
    Ok((Int(10, s[..e]), e))
  }

  function ScanNumber(t: Tables, s: string, afterDot: bool): Lexed<(Token, nat)>
    requires s != ""
  {
    var c := At(s, 1);
    if afterDot then ScanIndex(t, s)
    else if s[0] == '0' && (c == 'x' || c == 'X') then ScanPrefixed(t, s, HexSep, 16)
    else if s[0] == '0' && (c == 'b' || c == 'B') then ScanPrefixed(t, s, BinarySep, 2)
    else if s[0] == '0' && (c == 'o' || c == 'O') then ScanPrefixed(t, s, OctalSep, 8)
    else ScanDecimal(t, s)
  }

  // ----- characters and strings -----

  function HexValue(c: char): int
  {
    if '0' <= c <= '9' then c as int - '0' as int
    else if 'a' <= c <= 'f' then c as int - 'a' as int + 10
    else c as int - 'A' as int + 10
  }

  function SimpleEscape(c: char): Lexed<int>
  {
    if c == 'n' then Ok(10) else if c == 'r' then Ok(13) else if c == 't' then Ok(9)
    else if c == '0' then Ok(0) else if c == '\\' then Ok(92) else if c == '\'' then Ok(39)
    else if c == '"' then Ok(34) else Failed
  }

  /** The code of the character after the opening quote, and where it ends. */
  function ScanCharBody(s: string): Lexed<(int, nat)>
  {
    var c := At(s, 1);
    var _ :- Guard(c != '\0' && c != '\n' && c != '\'');
    if c != '\\' then Ok((c as int, 2))
    else
      var e := At(s, 2);
      var _ :- Guard(e != '\0' && e != '\n');
      if e == 'x' then
        var _ :- Guard(HexDigit(At(s, 3)) && HexDigit(At(s, 4)));
        Ok((16 * HexValue(At(s, 3)) + HexValue(At(s, 4)), 5))
      else
        var v :- SimpleEscape(e);
        Ok((v, 3))
  }

  function ScanChar(s: string): Lexed<(Token, nat)>
  {
    var body :- ScanCharBody(s);
    var _ :- Guard(At(s, body.1) == '\'' && body.0 <= 255);
    Ok((Char(body.0), body.1 + 1))
  }

  /** The index of the closing quote of a string whose inside starts at j. */
  function ScanStringEnd(s: string, j: nat): Lexed<nat>
    decreases |s| - j
  {
    if j >= |s| || s[j] == '\0' || s[j] == '\n' then Failed
    else if s[j] == '\\' then
      if At(s, j + 1) == '\0' then Failed else ScanStringEnd(s, j + 2)
    else if s[j] == '"' then Ok(j)
    else ScanStringEnd(s, j + 1)
  }

  lemma {:induction false} StringEndIs(s: string, j: nat)
    requires ScanStringEnd(s, j).Ok?
    ensures j <= ScanStringEnd(s, j).value < |s|
    decreases |s| - j
  {
    if s[j] == '\\' { StringEndIs(s, j + 2); } else if s[j] != '"' { StringEndIs(s, j + 1); }
  }

  function ScanString(s: string): Lexed<(Token, nat)>
  {
    var e :- ScanStringEnd(s, 1);
    StringEndIs(s, 1);
    Ok((Str(s[1..e]), e + 1))
  }

  // ----- symbols -----

  predicate ThreeChar(x: string) { x in {"<<=", ">>=", "..="} }

  predicate TwoChar(x: string)
  {
    x in {"->", "=>", "..", "==", "!=", "<=", ">=", "&&", "||", "<<", ">>",
          "+=", "-=", "*=", "/=", "%=", "&=", "|=", "^="}
  }

  predicate OneChar(c: char)
  {
    c in {'(', ')', '{', '}', ',', ';', ':', '.', '&', '[', ']', '=', '+', '-', '*', '/', '%', '<', '>', '!', '|', '^', '~'}
  }

  function ScanSymbol(s: string): Lexed<(Token, nat)>
    requires s != ""
  {
    if ThreeChar([s[0], At(s, 1), At(s, 2)]) then Ok((Symbol([s[0], At(s, 1), At(s, 2)]), 3))
    else if TwoChar([s[0], At(s, 1)]) then Ok((Symbol([s[0], At(s, 1)]), 2))
    else if OneChar(s[0]) then Ok((Symbol([s[0]]), 1))
    else Failed
  }

  lemma NulInNoSymbol(a: char, b: char, c: char)
    ensures ThreeChar([a, b, c]) ==> b != '\0' && c != '\0'
    ensures TwoChar([a, b]) ==> b != '\0'
  {
    assert [a, b, c][1] == b && [a, b, c][2] == c && [a, b][1] == b;
  }

  // ----- the machine -----

  function ScanWord(t: Tables, s: string): Lexed<(Token, nat)>
  {
    var e := RunEnd(t, WordChars, s, 0);
    Ok((Word(s[..e]), e))
  }

  /** One token at the front of s, and its length. */
  function Scan(t: Tables, s: string, afterDot: bool): Lexed<(Token, nat)>
    requires s != ""
  {
    if s[0] == '"' then ScanString(s)
    else if s[0] == '\'' then ScanChar(s)
    else if Digit(s[0]) then ScanNumber(t, s, afterDot)
    else if t.alpha(s[0]) || s[0] == '_' then ScanWord(t, s)
    else ScanSymbol(s)
  }

  lemma {:induction false} ScanAdvances(t: Tables, s: string, afterDot: bool)
    requires Sane(t) && s != "" && Scan(t, s, afterDot).Ok?
    ensures 0 < Scan(t, s, afterDot).value.1 <= |s|
  {
    hide Sane, GoodSeparators, DropSeparators;
    if s[0] == '"' {
      StringEndIs(s, 1);
    } else if s[0] == '\'' {
      assert At(s, ScanCharBody(s).value.1) == '\'';
    } else if Digit(s[0]) {
      assert RunEnd(t, Decimal, s, 0) >= 1 && RunEnd(t, DecimalSep, s, 0) >= 1;
    } else if t.alpha(s[0]) || s[0] == '_' {
      assert t.alnum(s[0]) || s[0] == '_' by { AlphaIsAlnum(t, s[0]); }
      assert InClass(t, WordChars, s[0]);
    }
  }

  lemma AlphaIsAlnum(t: Tables, c: char)
    requires Sane(t)
    ensures t.alpha(c) ==> t.alnum(c)
  {
  }

  /** Inside `depth` nested block comments, with the tokens so far. */
  datatype LexState = LexState(depth: nat, tokens: seq<Token>)

  function LineEnd(s: string): (n: nat)
    ensures n <= |s| && '\n' !in s[..n] && (n < |s| ==> s[n] == '\n')
  {
    if s == "" || s[0] == '\n' then 0
    else
      var n := LineEnd(s[1..]);
      assert s[..n + 1] == [s[0]] + s[1..][..n];
      n + 1
  }

  predicate Blank(c: char) { c == ' ' || c == '\t' || c == '\r' || c == '\n' }

  predicate AfterDot(tokens: seq<Token>)
  {
    tokens != [] && tokens[|tokens| - 1] == Symbol(".")
  }

  /** From a state, over the rest of the text. */
  ghost function Lex(t: Tables, s: string, st: LexState): Lexed<LexState>
    requires Sane(t)
    decreases |s|
  {
    if s == "" then Ok(st)
    else if st.depth > 0 then
      if s[0] == '/' && At(s, 1) == '*' then Lex(t, s[2..], st.(depth := st.depth + 1))
      else if s[0] == '*' && At(s, 1) == '/' then Lex(t, s[2..], st.(depth := st.depth - 1))
      else Lex(t, s[1..], st)
    else if Blank(s[0]) then Lex(t, s[1..], st)
    else if s[0] == '/' && At(s, 1) == '/' then
      assert LineEnd(s) > 0;
      Lex(t, s[LineEnd(s)..], st)
    else if s[0] == '/' && At(s, 1) == '*' then Lex(t, s[2..], st.(depth := 1))
    else
      var r :- Scan(t, s, AfterDot(st.tokens));
      ScanAdvances(t, s, AfterDot(st.tokens));
      Lex(t, s[r.1..], st.(tokens := st.tokens + [r.0]))
  }

  // ----- the machine one step at a time, outside comments -----

  lemma LexEnd(t: Tables, st: LexState)
    requires Sane(t)
    ensures Lex(t, "", st) == Ok(st)
  {
  }

  lemma {:induction false} LexBlank(t: Tables, s: string, st: LexState)
    requires Sane(t) && s != "" && st.depth == 0 && Blank(s[0])
    ensures Lex(t, s, st) == Lex(t, s[1..], st)
  {
  }

  lemma {:induction false} LexLineComment(t: Tables, s: string, st: LexState)
    requires Sane(t) && s != "" && st.depth == 0 && s[0] == '/' && At(s, 1) == '/'
    ensures LineEnd(s) > 0 && Lex(t, s, st) == Lex(t, s[LineEnd(s)..], st)
  {
  }

  lemma {:induction false} LexBlockComment(t: Tables, s: string, st: LexState)
    requires Sane(t) && s != "" && st.depth == 0 && s[0] == '/' && At(s, 1) == '*'
    ensures |s| >= 2 && Lex(t, s, st) == Lex(t, s[2..], st.(depth := 1))
  {
  }

  lemma {:induction false} LexToken(t: Tables, s: string, st: LexState)
    requires Sane(t) && s != "" && st.depth == 0 && !Blank(s[0]) && !(s[0] == '/' && (At(s, 1) == '/' || At(s, 1) == '*'))
    ensures var r := Scan(t, s, AfterDot(st.tokens));
      if r.Failed? then Lex(t, s, st).Failed?
      else 0 < r.value.1 <= |s| && Lex(t, s, st) == Lex(t, s[r.value.1..], st.(tokens := st.tokens + [r.value.0]))
  {
    hide Scan;
    if Scan(t, s, AfterDot(st.tokens)).Ok? { ScanAdvances(t, s, AfterDot(st.tokens)); }
  }

  /** The whole text; an open block comment at its end is an error. */
  ghost function Tokenize(t: Tables, s: string): Lexed<seq<Token>>
    requires Sane(t)
  {
    var st :- Lex(t, s, LexState(0, []));
    if st.depth > 0 then Failed else Ok(st.tokens)
  }
}
