/** The formatter's brace scanner and the lexer are independent readings of a line; on every line the
    lexer accepts they agree on the braces and on how many block comments are open. */
module BraceAgreement {
  import opened MortSyntax
  import opened Lexing
  import opened LexLocality
  import opened Formatting
  import opened TokenPreservation

  /** How many of the tokens are the given brace. */
  function Count(tokens: seq<Token>, brace: string): nat
  {
    if tokens == [] then 0
    else Count(tokens[..|tokens| - 1], brace) + (if tokens[|tokens| - 1] == Symbol(brace) then 1 else 0)
  }

  /** A character that neither opens nor closes anything for the formatter, unless it starts a comment. */
  predicate Inert(c: char) { c != '"' && c != '\'' && c != '{' && c != '}' && c != '/' }

  predicate Outside(b: Scanner) { b.block == 0 && b.quote.None? && !b.escaped }

  // ----- scanning a suffix -----

  lemma {:induction false} ScanSuffix(line: string, i: nat, k: nat, b: Scanner)
    requires i <= k <= |line|
    ensures BraceScan(line, k, b) == BraceScan(line[i..], k - i, b)
    decreases |line| - k
  {
    if k < |line| {
      var rest := line[i..];
      assert rest[k - i] == line[k] && At(rest, k - i + 1) == At(line, k + 1);
      var (j, b1) := ScanStep(line, k, b);
      var (j1, b2) := ScanStep(rest, k - i, b);
      if j <= |line| { ScanSuffix(line, i, j, b1); }
    }
  }

  /** From index k on, as a scan of the suffix. */
  lemma {:induction false} Rest(line: string, k: nat, b: Scanner)
    requires k <= |line|
    ensures BraceScan(line, k, b) == BraceScan(line[k..], 0, b)
  {
    ScanSuffix(line, k, k, b);
  }

  lemma {:induction false} InertRun(line: string, i: nat, e: nat, b: Scanner)
    requires i <= e <= |line| && Outside(b) && forall j | i <= j < e :: Inert(line[j])
    ensures BraceScan(line, i, b) == BraceScan(line, e, b)
    decreases e - i
  {
    if i < e { InertRun(line, i + 1, e, b); }
  }

  // ----- strings and characters -----

  lemma {:induction false} StringScanned(line: string, j: nat, b: Scanner)
    requires j <= |line| && b.block == 0 && b.quote == Some('"') && !b.escaped && ScanStringEnd(line, j).Ok?
    ensures BraceScan(line, j, b) == BraceScan(line, StringEnd(line, j) + 1, b.(quote := None))
    decreases |line| - j
  {
    if line[j] == '\\' {
      StringEndIs(line, j + 2);
      assert BraceScan(line, j + 1, b.(escaped := true)) == BraceScan(line, j + 2, b);
      StringScanned(line, j + 2, b);
    } else if line[j] != '"' {
      StringScanned(line, j + 1, b);
    }
  }

  lemma {:induction false} CharScanned(line: string, b: Scanner)
    requires line != "" && line[0] == '\'' && Outside(b) && ScanChar(line).Ok?
    ensures BraceScan(line, 0, b) == BraceScan(line, ScanChar(line).value.1, b)
  {
    var q := b.(quote := Some('\''));
    assert BraceScan(line, 0, b) == BraceScan(line, 1, q);
    var n := ScanCharBody(line).value.1;
    assert line[n] == '\'';
    if line[1] == '\\' {
      assert BraceScan(line, 1, q) == BraceScan(line, 2, q.(escaped := true)) == BraceScan(line, 3, q);
      if n == 5 {
        assert line[3] != '\'' && line[3] != '\\' && line[4] != '\'' && line[4] != '\\';
        assert BraceScan(line, 3, q) == BraceScan(line, 4, q) == BraceScan(line, 5, q);
      }
    } else {
      assert BraceScan(line, 1, q) == BraceScan(line, 2, q);
    }
    assert BraceScan(line, n, q) == BraceScan(line, n + 1, b);
  }

  // ----- words and numbers are inert -----

  lemma {:induction false} ClassIsInert(t: Tables, k: CharClass, c: char)
    requires Sane(t) && InClass(t, k, c)
    ensures Inert(c)
  {
    if c < '\U{80}' { assert t.alnum(c) == (AsciiLetter(c) || Digit(c)); }
  }

  lemma {:induction false} RunIsInert(t: Tables, k: CharClass, s: string, j: nat)
    requires Sane(t) && j <= |s|
    ensures forall i | j <= i < RunEnd(t, k, s, j) :: Inert(s[i])
    decreases |s| - j
  {
    if j < |s| && InClass(t, k, s[j]) {
      ClassIsInert(t, k, s[j]);
      RunIsInert(t, k, s, j + 1);
    }
  }

  predicate InertTo(s: string, e: nat) { e <= |s| && forall i | 0 <= i < e :: Inert(s[i]) }

  lemma {:induction false} ExponentIsInert(t: Tables, s: string, j: nat)
    requires Sane(t) && j < |s| && InertTo(s, j) && IsExp(s[j]) && ScanExponent(t, s, j).Ok?
    ensures InertTo(s, ScanExponent(t, s, j).value)
  {
    var k := if At(s, j + 1) == '+' || At(s, j + 1) == '-' then j + 2 else j + 1;
    RunIsInert(t, Decimal, s, k);
  }

  lemma {:induction false} DecimalIsInert(t: Tables, s: string)
    requires Sane(t) && ScanDecimal(t, s).Ok?
    ensures InertTo(s, ScanDecimal(t, s).value.1)
  {
    hide Sane, GoodSeparators, DropSeparators;
    RunIsInert(t, DecimalSep, s, 0);
    var e := RunEnd(t, DecimalSep, s, 0);
    if At(s, e) == '.' && Digit(At(s, e + 1)) {
      RunIsInert(t, Decimal, s, e + 1);
      var f := RunEnd(t, Decimal, s, e + 1);
      assert InertTo(s, f);
      if IsExp(At(s, f)) { ExponentIsInert(t, s, f); }
    } else if IsExp(At(s, e)) {
      ExponentIsInert(t, s, e);
    }
  }

  lemma {:induction false} NumberIsInert(t: Tables, s: string, dot: bool)
    requires Sane(t) && s != "" && Digit(s[0]) && ScanNumber(t, s, dot).Ok?
    ensures InertTo(s, ScanNumber(t, s, dot).value.1)
  {
    hide Sane, ScanDecimal, GoodSeparators, DropSeparators;
    RunIsInert(t, Decimal, s, 0);
    if ScanDecimal(t, s).Ok? { DecimalIsInert(t, s); }
    if |s| >= 2 {
      RunIsInert(t, HexSep, s, 2);
      RunIsInert(t, BinarySep, s, 2);
      RunIsInert(t, OctalSep, s, 2);
    }
  }

  // ----- symbols -----

  /** What a token adds to the formatter's counts. */
  function Counted(b: Scanner, k: Token): Scanner
  {
    if k == Symbol("{") then b.(opens := b.opens + 1)
    else if k == Symbol("}") then b.(closes := b.closes + 1)
    else b
  }

  lemma {:induction false} SymbolChars(a: char, b: char, c: char)
    ensures TwoChar([a, b]) ==> (a == '/' || Inert(a)) && Inert(b)
    ensures ThreeChar([a, b, c]) ==> Inert(a) && Inert(b) && Inert(c)
  {
    assert [a, b][0] == a && [a, b][1] == b && [a, b, c][0] == a && [a, b, c][1] == b && [a, b, c][2] == c;
  }

  lemma {:induction false} SymbolScanned(line: string, b: Scanner)
    requires line != "" && Outside(b) && ScanSymbol(line).Ok? && line[0] != '"' && line[0] != '\''
    requires !(line[0] == '/' && (At(line, 1) == '/' || At(line, 1) == '*'))
    ensures ScanSymbol(line).value.1 <= |line|
    ensures BraceScan(line, 0, b) == BraceScan(line, ScanSymbol(line).value.1, Counted(b, ScanSymbol(line).value.0))
  {
    var a, x, y := line[0], At(line, 1), At(line, 2);
    SymbolChars(a, x, y);
    NulInNoSymbol(a, x, y);
    var n := ScanSymbol(line).value.1;
    hide ThreeChar, TwoChar, OneChar;
    SymbolCounts(line, b);
    assert ScanStep(line, 0, b) == (1, Counted(b, ScanSymbol(line).value.0));
    InertRun(line, 1, n, Counted(b, ScanSymbol(line).value.0));
  }

  lemma {:induction false} SymbolCounts(line: string, b: Scanner)
    requires line != "" && ScanSymbol(line).Ok?
    ensures var k := ScanSymbol(line).value.0;
      && (k == Symbol("{") <==> line[0] == '{') && (k == Symbol("}") <==> line[0] == '}')
      && (line[0] == '{' || line[0] == '}' ==> ScanSymbol(line).value.1 == 1)
  {
    SymbolChars(line[0], At(line, 1), At(line, 2));
    var k := ScanSymbol(line).value.0;
    assert k.text[0] == line[0];
  }

  // ----- one token, then a whole line -----

  lemma {:induction false} TokenScanned(t: Tables, line: string, dot: bool, b: Scanner)
    requires Sane(t) && line != "" && Outside(b) && Scan(t, line, dot).Ok?
    requires !(line[0] == '/' && (At(line, 1) == '/' || At(line, 1) == '*'))
    ensures var r := Scan(t, line, dot).value;
      r.1 <= |line| && BraceScan(line, 0, b) == BraceScan(line, r.1, Counted(b, r.0))
  {
    hide Sane, ScanNumber, ScanSymbol, ScanStringEnd, ScanCharBody, BraceScan;
    ScanAdvances(t, line, dot);
    var c := line[0];
    if c == '"' {
      QuoteOpens(line, b);
      StringScanned(line, 1, b.(quote := Some('"')));
    } else if c == '\'' {
      CharScanned(line, b);
    } else if Digit(c) {
      NumberIsInert(t, line, dot);
      InertRun(line, 0, ScanNumber(t, line, dot).value.1, b);
      NumberToken(t, line, dot);
    } else if t.alpha(c) || c == '_' {
      RunIsInert(t, WordChars, line, 0);
      InertRun(line, 0, RunEnd(t, WordChars, line, 0), b);
    } else {
      SymbolScanned(line, b);
    }
  }

  lemma QuoteOpens(line: string, b: Scanner)
    requires line != "" && line[0] == '"' && Outside(b)
    ensures BraceScan(line, 0, b) == BraceScan(line, 1, b.(quote := Some('"')))
  {
  }

  lemma NumberToken(t: Tables, line: string, dot: bool)
    requires line != "" && ScanNumber(t, line, dot).Ok?
    ensures !ScanNumber(t, line, dot).value.0.Symbol?
  {
  }

  predicate Matches(b: Scanner, b1: Scanner, st: LexState, st1: LexState)
  {
    && b1.block == st1.depth
    && b1.opens + Count(st.tokens, "{") == b.opens + Count(st1.tokens, "{")
    && b1.closes + Count(st.tokens, "}") == b.closes + Count(st1.tokens, "}")
  }

  lemma {:induction false} CountAppend(tokens: seq<Token>, k: Token, brace: string)
    ensures Count(tokens + [k], brace) == Count(tokens, brace) + if k == Symbol(brace) then 1 else 0
  {
    assert (tokens + [k])[..|tokens|] == tokens;
  }

  lemma {:induction false} CommentStep(line: string, b: Scanner, st: LexState)
    requires line != "" && b.block == st.depth > 0
    ensures var n := if (line[0] == '/' && At(line, 1) == '*') || (line[0] == '*' && At(line, 1) == '/') then 2 else 1;
      var d := if line[0] == '/' && At(line, 1) == '*' then b.block + 1
               else if line[0] == '*' && At(line, 1) == '/' then b.block - 1 else b.block;
      n <= |line| && BraceScan(line, 0, b) == BraceScan(line[n..], 0, b.(block := d))
  {
    var (j, b1) := ScanStep(line, 0, b);
    Rest(line, j, b1);
  }

  lemma {:induction false} CodeStep(line: string, b: Scanner)
    requires line != "" && Outside(b)
    ensures Blank(line[0]) ==> BraceScan(line, 0, b) == BraceScan(line[1..], 0, b)
    ensures line[0] == '/' && At(line, 1) == '/' ==> BraceScan(line, 0, b) == b
    ensures line[0] == '/' && At(line, 1) == '*' ==> |line| >= 2 && BraceScan(line, 0, b) == BraceScan(line[2..], 0, b.(block := 1))
  {
    if Blank(line[0]) { Rest(line, 1, b); }
    if line[0] == '/' && At(line, 1) == '*' { Rest(line, 2, b.(block := 1)); }
  }

  /** On one line, from any state the two readings share: if the lexer gets through, the formatter has
      seen the same braces and the same open comments. */
  lemma {:induction false} LineAgrees(t: Tables, line: string, st: LexState, b: Scanner)
    requires Sane(t) && '\n' !in line && b.block == st.depth && b.quote.None? && !b.escaped
    requires Lex(t, line, st).Ok?
    ensures Matches(b, BraceScan(line, 0, b), st, Lex(t, line, st).value)
    decreases |line|
  {
    hide Sane, Scan, BraceScan;
    if line == "" {
      NothingScanned(b);
    } else if st.depth > 0 {
      CommentStep(line, b, st);
      if line[0] == '/' && At(line, 1) == '*' {
        LineAgrees(t, line[2..], st.(depth := st.depth + 1), b.(block := b.block + 1));
      } else if line[0] == '*' && At(line, 1) == '/' {
        LineAgrees(t, line[2..], st.(depth := st.depth - 1), b.(block := b.block - 1));
      } else {
        LineAgrees(t, line[1..], st, b);
      }
    } else {
      CodeStep(line, b);
      if Blank(line[0]) {
        LineAgrees(t, line[1..], st, b);
      } else if line[0] == '/' && At(line, 1) == '/' {
        WholeLineComment(line);
      } else if line[0] == '/' && At(line, 1) == '*' {
        LineAgrees(t, line[2..], st.(depth := 1), b.(block := 1));
      } else {
        TokenAgrees(t, line, st, b);
      }
    }
  }

  lemma NothingScanned(b: Scanner)
    ensures BraceScan("", 0, b) == b
  {
  }

  lemma WholeLineComment(line: string)
    requires '\n' !in line
    ensures LineEnd(line) == |line| && line[|line|..] == ""
  {
    LineEndUnique(line, |line|);
  }

  lemma {:induction false} TokenAgrees(t: Tables, line: string, st: LexState, b: Scanner)
    requires Sane(t) && '\n' !in line && Outside(b) && st.depth == 0 && line != "" && Lex(t, line, st).Ok?
    requires !Blank(line[0]) && !(line[0] == '/' && (At(line, 1) == '/' || At(line, 1) == '*'))
    ensures Matches(b, BraceScan(line, 0, b), st, Lex(t, line, st).value)
    decreases |line|, 0
  {
    hide Sane, Scan, BraceScan, Lex;
    LexToken(t, line, st);
    var r := Scan(t, line, AfterDot(st.tokens)).value;
    var next := st.(tokens := st.tokens + [r.0]);
    TokenScanned(t, line, AfterDot(st.tokens), b);
    Rest(line, r.1, Counted(b, r.0));
    CountAppend(st.tokens, r.0, "{");
    CountAppend(st.tokens, r.0, "}");
    LineAgrees(t, line[r.1..], next, Counted(b, r.0));
  }

  /** So the depth the formatter indents by follows the lexer's brace tokens: after every line of a
      lexable source, its open comments are the lexer's, and its depth moves by the line's braces. */
  lemma {:induction false} BracesAreTokens(t: Tables, line: string, st: LexState)
    requires Sane(t) && '\n' !in line && Lex(t, line, st).Ok?
    ensures var b := Braces(line, st.depth); var st1 := Lex(t, line, st).value;
      && b.block == st1.depth
      && b.opens == Count(st1.tokens, "{") - Count(st.tokens, "{")
      && b.closes == Count(st1.tokens, "}") - Count(st.tokens, "}")
  {
    LineAgrees(t, line, st, Scanner(st.depth, None, false, 0, 0));
  }
}
