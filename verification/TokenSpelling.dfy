/** What the texts of the tokens are, said without the lexer: the operators of the language written
    out, the spelling of every token, and when two tokens may stand side by side. The lexer reads every
    such text back, and gives no token that has no spelling. */
module TokenSpelling {
  import opened Lexing

  // ----- operators -----

  const THREES: seq<string> := ["<<=", ">>=", "..="]

  const TWOS: seq<string> :=
    ["->", "=>", "..", "==", "!=", "<=", ">=", "&&", "||", "<<", ">>", "+=", "-=", "*=", "/=", "%=", "&=", "|=", "^="]

  const ONES: string := "(){}[],;:.=+-*/%<>!&|^~"

  predicate IsOperator(op: string)
  {
    op in THREES || op in TWOS || (|op| == 1 && op[0] in ONES)
  }

  lemma {:induction false} OperatorTables(op: string, c: char)
    ensures op in THREES <==> ThreeChar(op)
    ensures op in TWOS <==> TwoChar(op)
    ensures c in ONES <==> OneChar(c)
    ensures op in THREES ==> |op| == 3
    ensures op in TWOS ==> |op| == 2
  {
  }

  /** The longest operator that s starts with. */
  ghost predicate LongestOperator(op: string, s: string)
  {
    IsOperator(op) && op <= s && forall longer | IsOperator(longer) && longer <= s :: |longer| <= |op|
  }

  /** A symbol is the longest operator that the text starts with, and there is none only if no
      operator starts the text. */
  lemma {:induction false} SymbolIsLongest(s: string)
    requires s != ""
    ensures ScanSymbol(s).Ok? <==> exists op :: IsOperator(op) && op <= s
    ensures ScanSymbol(s).Ok? ==>
      var r := ScanSymbol(s).value; r.0.Symbol? && r.1 == |r.0.text| && LongestOperator(r.0.text, s)
  {
    var a, b, c := [s[0], At(s, 1), At(s, 2)], [s[0], At(s, 1)], [s[0]];
    OperatorFront(s);
    forall op | IsOperator(op) && op <= s
      ensures (op == a && ThreeChar(a)) || (op == b && TwoChar(b)) || (op == c && OneChar(s[0]))
    {
      FrontOperator(op, s);
    }
    hide ThreeChar, TwoChar, OneChar, IsOperator;
  }

  /** What the tables say of the first characters. */
  lemma {:induction false} OperatorFront(s: string)
    requires s != ""
    ensures var a, b, c := [s[0], At(s, 1), At(s, 2)], [s[0], At(s, 1)], [s[0]];
      && (ThreeChar(a) ==> IsOperator(a) && a <= s) && (TwoChar(b) ==> IsOperator(b) && b <= s)
      && (OneChar(s[0]) ==> IsOperator(c) && c <= s)
  {
    var a, b, c := [s[0], At(s, 1), At(s, 2)], [s[0], At(s, 1)], [s[0]];
    NulInNoSymbol(s[0], At(s, 1), At(s, 2));
    OperatorTables(a, s[0]);
    OperatorTables(b, s[0]);
    hide ThreeChar, TwoChar, OneChar;
  }

  lemma {:induction false} FrontOperator(op: string, s: string)
    requires s != "" && IsOperator(op) && op <= s
    ensures var a, b, c := [s[0], At(s, 1), At(s, 2)], [s[0], At(s, 1)], [s[0]];
      (op == a && ThreeChar(a)) || (op == b && TwoChar(b)) || (op == c && OneChar(s[0]))
  {
    OperatorTables(op, s[0]);
    hide ThreeChar, TwoChar, OneChar;
    PrefixIs(op, s);
  }

  lemma {:induction false} PrefixIs(op: string, s: string)
    requires s != "" && op <= s && 1 <= |op| <= 3
    ensures op == [s[0], At(s, 1), At(s, 2)][..|op|]
  {
  }

  // ----- spellings -----

  predicate AllIn(t: Tables, k: CharClass, s: string)
  {
    forall i | 0 <= i < |s| :: InClass(t, k, s[i])
  }

  predicate Digits(s: string) { s != "" && forall i | 0 <= i < |s| :: '0' <= s[i] <= '9' }

  /** The digits of a base, either case. */
  predicate DigitsOf(base: nat, s: string)
  {
    match base
    case 2 => s != "" && forall i | 0 <= i < |s| :: s[i] in "01"
    case 8 => s != "" && forall i | 0 <= i < |s| :: s[i] in "01234567"
    case 10 => Digits(s)
    case 16 => s != "" && forall i | 0 <= i < |s| :: s[i] in "0123456789abcdefABCDEF"
    case _ => false
  }

  function Prefix(base: nat): string
  {
    match base
    case 2 => "0b"
    case 8 => "0o"
    case 16 => "0x"
    case _ => ""
  }

  /** Digits up to w, then a fraction up to f or an exponent or both. */
  predicate FloatParts(s: string, w: nat, f: nat)
  {
    && w <= f <= |s| && w < |s| && Digits(s[..w])
    && (w < f ==> s[w] == '.' && Digits(s[w + 1..f]))
    && (f < |s| ==> s[f] in "eE" && f + 2 <= |s|)
    && (f < |s| ==> Digits(if s[f + 1] in "+-" then s[f + 2..] else s[f + 1..]))
  }

  ghost predicate FloatText(s: string)
  {
    exists w, f :: FloatParts(s, w, f)
  }

  /** The inside of a string: a backslash takes the next character with it. */
  predicate Inside(s: string)
  {
    if s == "" then true
    else if s[0] == '\\' then |s| >= 2 && s[1] != '\0' && Inside(s[2..])
    else s[0] !in ['"', '\n', '\0'] && Inside(s[1..])
  }

  /** The tokens there are; behind a dot a number is a plain index. */
  ghost predicate HasSpelling(t: Tables, k: Token, dot: bool)
  {
    match k
    case Word(x) => x != "" && (t.alpha(x[0]) || x[0] == '_') && AllIn(t, WordChars, x)
    case Int(base, digits) => DigitsOf(base, digits) && (dot ==> base == 10)
    case Float(x) => FloatText(x) && t.finite(x) && !dot
    case Char(code) => 0 <= code <= 255
    case Str(x) => Inside(x)
    case Symbol(op) => IsOperator(op)
  }

  function HexPair(code: int): string
    requires 0 <= code <= 255
  {
    ["0123456789abcdef"[code / 16], "0123456789abcdef"[code % 16]]
  }

  function Spell(k: Token): string
    requires k.Char? ==> 0 <= k.code <= 255
  {
    match k
    case Word(x) => x
    case Int(base, digits) => Prefix(base) + digits
    case Float(x) => x
    case Char(code) => "'\\x" + HexPair(code) + "'"
    case Str(x) => "\"" + x + "\""
    case Symbol(op) => op
  }

  /** The text that follows cannot be taken for a continuation of the token. */
  ghost predicate Clear(t: Tables, k: Token, dot: bool, rest: string)
  {
    rest == "" ||
    match k
    case Word(_) => !t.alnum(rest[0]) && rest[0] != '_'
    case Int(base, _) => !t.alnum(rest[0]) && rest[0] != '_' && (base == 10 && !dot && rest[0] == '.' ==> !Digit(At(rest, 1)))
    case Float(_) => !t.alnum(rest[0]) && rest[0] != '_'
    case Char(_) => true
    case Str(_) => true
    case Symbol(op) => (forall longer | IsOperator(longer) && longer <= op + rest :: |longer| <= |op|) && (op == "/" ==> rest[0] !in "/*")
  }

  // ----- every spelling is read as its token -----

  lemma {:induction false} RunIs(t: Tables, k: CharClass, s: string, j: nat, e: nat)
    requires j <= e <= |s| && (forall i | j <= i < e :: InClass(t, k, s[i])) && (e < |s| ==> !InClass(t, k, s[e]))
    ensures RunEnd(t, k, s, j) == e
    decreases e - j
  {
    if j < e { RunIs(t, k, s, j + 1, e); }
  }

  lemma {:induction false} DigitFacts(t: Tables, c: char)
    requires Sane(t)
    ensures Digit(c) ==> t.alnum(c) && !t.alpha(c)
    ensures t.alpha(c) ==> t.alnum(c)
    ensures AsciiLetter(c) ==> t.alpha(c)
    ensures c < '\U{80}' && t.alnum(c) ==> Digit(c) || AsciiLetter(c)
  {
  }

  lemma {:induction false} WordReads(t: Tables, x: string, dot: bool, rest: string)
    requires Sane(t) && x != "" && (t.alpha(x[0]) || x[0] == '_') && AllIn(t, WordChars, x)
    requires rest == "" || (!t.alnum(rest[0]) && rest[0] != '_')
    ensures Scan(t, x + rest, dot) == Ok((Word(x), |x|))
  {
    var s := x + rest;
    assert s[0] == x[0];
    WordStart(t, s[0]);
    WordDispatch(t, s, dot);
    WordEnds(t, x, rest);
  }

  lemma {:induction false} WordStart(t: Tables, c: char)
    requires Sane(t) && (t.alpha(c) || c == '_')
    ensures c != '"' && c != '\'' && !Digit(c) && !Blank(c) && c != '/'
  {
  }

  lemma {:induction false} WordEnds(t: Tables, x: string, rest: string)
    requires AllIn(t, WordChars, x) && (rest == "" || (!t.alnum(rest[0]) && rest[0] != '_'))
    ensures ScanWord(t, x + rest) == Ok((Word(x), |x|))
  {
    var s := x + rest;
    RunIs(t, WordChars, s, 0, |x|);
    assert s[..|x|] == x;
  }

  lemma {:induction false} WordDispatch(t: Tables, s: string, dot: bool)
    requires s != "" && (t.alpha(s[0]) || s[0] == '_') && s[0] !in ['"', '\''] && !Digit(s[0])
    ensures Scan(t, s, dot) == ScanWord(t, s)
  {
    hide ScanWord;
  }

  lemma {:induction false} PlainDigits(s: string)
    requires forall i | 0 <= i < |s| :: s[i] != '_'
    ensures DropSeparators(s) == s
    ensures GoodSeparators(s)
  {
    if s != "" {
      PlainDigits(s[1..]);
      assert s == [s[0]] + s[1..];
    }
  }

  lemma {:induction false} DecimalReads(t: Tables, x: string, dot: bool, rest: string)
    requires Sane(t) && Digits(x) && Clear(t, Int(10, x), dot, rest)
    ensures Scan(t, x + rest, dot) == Ok((Int(10, x), |x|))
  {
    var s := x + rest;
    assert Digit(x[0]);
    DigitFacts(t, At(s, |x|));
    DigitFacts(t, 'x'); DigitFacts(t, 'X'); DigitFacts(t, 'b'); DigitFacts(t, 'B'); DigitFacts(t, 'o'); DigitFacts(t, 'O');
    DigitFacts(t, 'e'); DigitFacts(t, 'E'); DigitFacts(t, '\0');
    hide Sane;
    assert s[..|x|] == x;
    PlainDigits(x);
    if dot {
      RunIs(t, Decimal, s, 0, |x|);
    } else {
      RunIs(t, DecimalSep, s, 0, |x|);
      assert At(s, |x| + 1) == At(rest, 1);
      assert |x| > 1 ==> Digit(At(s, 1));
      assert ScanNumber(t, s, dot) == ScanDecimal(t, s);
    }
  }

  function ClassOf(base: nat): CharClass { if base == 2 then BinarySep else if base == 8 then OctalSep else HexSep }

  lemma {:induction false} BasesAre(t: Tables, base: nat, c: char)
    requires base in {2, 8, 16}
    ensures InClass(t, ClassOf(base), c) <==> DigitsOf(base, [c]) || c == '_'
  {
    assert [c][0] == c;
    if base == 2 { assert DigitsOf(2, [c]) <==> c in "01"; }
    else if base == 8 { assert DigitsOf(8, [c]) <==> c in "01234567"; }
    else { assert DigitsOf(16, [c]) <==> c in "0123456789abcdefABCDEF"; }
  }

  lemma {:induction false} DigitOfAll(base: nat, x: string, i: nat)
    requires DigitsOf(base, x) && i < |x|
    ensures DigitsOf(base, [x[i]]) && x[i] != '_'
  {
  }

  lemma {:induction false} PrefixedReads(t: Tables, base: nat, x: string, rest: string)
    requires Sane(t) && base in {2, 8, 16} && DigitsOf(base, x) && Clear(t, Int(base, x), false, rest)
    ensures Scan(t, Prefix(base) + x + rest, false) == Ok((Int(base, x), |x| + 2))
  {
    var s := Prefix(base) + x + rest;
    var k, e := ClassOf(base), |x| + 2;
    assert s[0] == '0' && s[1] == Prefix(base)[1];
    PrefixDispatch(t, base, s);
    NulIsNothing(t);
    if e < |s| {
      assert s[e] == rest[0];
      ClassIsSticky(t, base, s[e]);
    }
    hide Sane, Scan;
    forall i | 2 <= i < e ensures InClass(t, k, s[i]) {
      assert s[i] == x[i - 2];
      DigitOfAll(base, x, i - 2);
      BasesAre(t, base, s[i]);
    }
    forall i | 0 <= i < |x| ensures x[i] != '_' { DigitOfAll(base, x, i); }
    hide InClass;
    RunIs(t, k, s, 2, e);
    assert s[2..e] == x;
    PlainDigits(x);
    hide GoodSeparators, DropSeparators, RunEnd;
  }

  lemma {:induction false} PrefixDispatch(t: Tables, base: nat, s: string)
    requires base in {2, 8, 16} && |s| >= 2 && s[0] == '0' && s[1] == Prefix(base)[1]
    ensures Scan(t, s, false) == ScanPrefixed(t, s, ClassOf(base), base)
  {
    hide ScanPrefixed, ScanDecimal;
  }

  lemma {:induction false} NulIsNothing(t: Tables)
    requires Sane(t)
    ensures !t.alnum('\0') && !t.alpha('\0') && !StickyEnd(t, '\0')
  {
  }

  lemma {:induction false} ClassIsSticky(t: Tables, base: nat, c: char)
    requires Sane(t) && base in {2, 8, 16}
    ensures InClass(t, ClassOf(base), c) ==> t.alnum(c) || c == '_'
  {
    DigitFacts(t, c);
  }

  lemma {:induction false} ExponentReads(t: Tables, s: string, j: nat, exponent: string, e: nat)
    requires j + |exponent| == e <= |s| && s[j..e] == exponent && |exponent| >= 2
    requires Digits(if exponent[1] in "+-" then exponent[2..] else exponent[1..])
    requires e < |s| ==> !Digit(s[e])
    ensures ScanExponent(t, s, j) == Ok(e)
  {
    forall i | j <= i < e ensures s[i] == exponent[i - j] {}
    var k := if exponent[1] in "+-" then j + 2 else j + 1;
    var digits := exponent[k - j..];
    assert At(s, j + 1) == exponent[1];
    forall i | k <= i < e ensures Digit(s[i]) { assert s[i] == digits[i - k]; }
    RunIs(t, Decimal, s, k, e);
  }

  lemma {:induction false} ScientificReads(t: Tables, text: string, rest: string, j: nat)
    requires Sane(t) && j + 2 <= |text| && t.finite(text) && (forall i | 0 <= i < |text| :: text[i] != '_')
    requires Digits(if text[j + 1] in "+-" then text[j + 2..] else text[j + 1..])
    requires rest == "" || (!t.alnum(rest[0]) && rest[0] != '_')
    ensures ScanScientific(t, text + rest, j) == Ok((Float(text), |text|))
  {
    var s := text + rest;
    assert s[j..|text|] == text[j..];
    assert text[j..][2..] == text[j + 2..] && text[j..][1..] == text[j + 1..];
    if rest != "" { DigitFacts(t, rest[0]); assert s[|text|] == rest[0]; }
    ExponentReads(t, s, j, text[j..], |text|);
    FloatEndReads(t, text, rest);
  }

  lemma {:induction false} FloatEndReads(t: Tables, text: string, rest: string)
    requires Sane(t) && t.finite(text) && forall i | 0 <= i < |text| :: text[i] != '_'
    requires rest == "" || (!t.alnum(rest[0]) && rest[0] != '_')
    ensures ScanFloatEnd(t, text + rest, |text|) == Ok((Float(text), |text|))
  {
    assert (text + rest)[..|text|] == text;
    PlainDigits(text);
    NulIsNothing(t);
  }

  /** From the end w of the whole part of a text without separators, over a fraction that ends at f. */
  lemma {:induction false} FractionReads(t: Tables, text: string, rest: string, w: nat, f: nat)
    requires Sane(t) && w < f <= |text| && t.finite(text) && (forall i | 0 <= i < |text| :: text[i] != '_')
    requires forall i | w < i < f :: Digit(text[i])
    requires f < |text| ==> text[f] in "eE" && f + 2 <= |text| && Digits(if text[f + 1] in "+-" then text[f + 2..] else text[f + 1..])
    requires rest == "" || (!t.alnum(rest[0]) && rest[0] != '_')
    ensures ScanFraction(t, text + rest, w) == Ok((Float(text), |text|))
  {
    var s := text + rest;
    if rest != "" { DigitFacts(t, rest[0]); assert s[|text|] == rest[0]; }
    if f < |text| {
      assert s[f] == text[f];
      ScientificReads(t, text, rest, f);
    } else {
      DigitFacts(t, 'e');
      DigitFacts(t, 'E');
      FloatEndReads(t, text, rest);
    }
    hide Sane, ScanScientific, ScanFloatEnd;
    RunIs(t, Decimal, s, w + 1, f);
  }

  lemma {:induction false} FloatReads(t: Tables, x: string, w: nat, f: nat, rest: string)
    requires Sane(t) && FloatParts(x, w, f) && t.finite(x)
    requires rest == "" || (!t.alnum(rest[0]) && rest[0] != '_')
    ensures Scan(t, x + rest, false) == Ok((Float(x), |x|))
  {
    FloatChars(x, w, f);
    hide Sane, Scan, Digits;
    if w < f {
      FractionReads(t, x, rest, w, f);
    } else {
      ScientificReads(t, x, rest, w);
    }
    DecimalFloat(t, x, rest, w);
  }

  lemma {:induction false} DecimalFloat(t: Tables, x: string, rest: string, w: nat)
    requires 0 < w < |x| && Digits(x[..w]) && x[w] in ".eE" && Digit(x[0]) && x[1] !in "xXbBoO"
    requires x[w] == '.' ==> w + 1 < |x| && Digit(x[w + 1]) && ScanFraction(t, x + rest, w) == Ok((Float(x), |x|))
    requires x[w] != '.' ==> ScanScientific(t, x + rest, w) == Ok((Float(x), |x|))
    ensures Scan(t, x + rest, false) == Ok((Float(x), |x|))
  {
    var s := x + rest;
    WholeEnds(t, x, rest, w);
    assert s[..w] == x[..w];
    assert s[w] == x[w] && s[0] == x[0] && s[1] == x[1];
    if x[w] == '.' { assert s[w + 1] == x[w + 1]; }
    hide ScanScientific, ScanFraction, RunEnd, GoodSeparators, Scan, Digits, DropSeparators;
    assert ScanDecimal(t, s) == Ok((Float(x), |x|));
    DecimalDispatch(t, s);
  }

  lemma {:induction false} WholeEnds(t: Tables, x: string, rest: string, w: nat)
    requires w < |x| && Digits(x[..w]) && x[w] in ".eE"
    ensures RunEnd(t, DecimalSep, x + rest, 0) == w && GoodSeparators(x[..w])
  {
    var s := x + rest;
    forall i | 0 <= i < w ensures InClass(t, DecimalSep, s[i]) { assert s[i] == x[..w][i]; }
    RunIs(t, DecimalSep, s, 0, w);
    PlainDigits(x[..w]);
  }

  lemma {:induction false} FloatChars(x: string, w: nat, f: nat)
    requires FloatParts(x, w, f)
    ensures forall i | 0 <= i < |x| :: x[i] != '_'
    ensures 0 < w && Digit(x[0]) && x[1] !in "xXbBoO" && x[w] in ".eE"
    ensures x[w] == '.' ==> w < f && w + 1 < |x| && Digit(x[w + 1])
    ensures forall i | w < i < f :: Digit(x[i])
  {
    forall i | 0 <= i < |x| ensures x[i] != '_' && (i < w || w < i < f ==> Digit(x[i])) {
      if i < w { assert x[i] == x[..w][i]; }
      else if w < i < f { assert x[i] == x[w + 1..f][i - w - 1]; }
      else if i == f + 1 { }
      else if i > f + 1 {
        if x[f + 1] in "+-" { assert x[i] == x[f + 2..][i - f - 2]; } else { assert x[i] == x[f + 1..][i - f - 1]; }
      }
    }
    if f < |x| && x[f + 1] !in "+-" { assert x[f + 1] == x[f + 1..][0]; }
    if w < f { assert Digits(x[w + 1..f]) && x[w + 1] == x[w + 1..f][0]; }
  }

  lemma {:induction false} DecimalDispatch(t: Tables, s: string)
    requires s != "" && Digit(s[0]) && At(s, 1) !in "xXbBoO"
    ensures Scan(t, s, false) == ScanDecimal(t, s)
  {
    hide ScanDecimal;
  }

  // ----- characters and strings -----

  /** The value of a hexadecimal digit is its place in the row of digits. */
  lemma {:induction false} HexValues(n: nat)
    requires n < 16
    ensures HexValue("0123456789abcdef"[n]) == HexValue("0123456789ABCDEF"[n]) == n
    ensures HexDigit("0123456789abcdef"[n]) && HexDigit("0123456789ABCDEF"[n])
  {
  }

  lemma {:induction false} HexDigitsAre(c: char)
    ensures HexDigit(c) <==> c in "0123456789abcdefABCDEF"
  {
  }

  /** Any two hexadecimal digits, in either case. */
  lemma {:induction false} HexEscapeReads(t: Tables, a: char, b: char, m: nat, n: nat, rest: string, dot: bool)
    requires m < 16 && n < 16
    requires a in ["0123456789abcdef"[m], "0123456789ABCDEF"[m]] && b in ["0123456789abcdef"[n], "0123456789ABCDEF"[n]]
    ensures Scan(t, "'\\x" + [a, b] + "'" + rest, dot) == Ok((Char(16 * m + n), 6))
  {
    HexValues(m);
    HexValues(n);
    var s := "'\\x" + [a, b] + "'" + rest;
    assert s[0] == '\'' && At(s, 1) == '\\' && At(s, 2) == 'x' && At(s, 3) == a && At(s, 4) == b && At(s, 5) == '\'';
    hide HexValue, HexDigit;
    assert ScanCharBody(s) == Ok((16 * m + n, 5));
  }

  /** The seven simple escapes; no other is known. */
  function EscapeCode(c: char): int
  {
    match c
    case 'n' => 10
    case 'r' => 13
    case 't' => 9
    case '0' => 0
    case '\\' => 92
    case '\'' => 39
    case '"' => 34
    case _ => -1
  }

  lemma {:induction false} EscapeReads(t: Tables, c: char, rest: string, dot: bool)
    requires c != 'x'
    ensures var r := Scan(t, "'\\" + [c] + "'" + rest, dot);
      if c in "nrt0\\'\"" then r == Ok((Char(EscapeCode(c)), 4)) else r.Failed?
  {
    var s := "'\\" + [c] + "'" + rest;
    assert s[0] == '\'' && At(s, 1) == '\\' && At(s, 2) == c && At(s, 3) == '\'';
  }

  /** A character that stands for itself, if it is one byte. */
  lemma {:induction false} CharacterReads(t: Tables, c: char, rest: string, dot: bool)
    requires c != '\\'
    ensures var r := Scan(t, "'" + [c] + "'" + rest, dot);
      if c as int <= 255 && c !in ['\0', '\n', '\''] then r == Ok((Char(c as int), 3)) else r.Failed?
  {
    var s := "'" + [c] + "'" + rest;
    assert s[0] == '\'' && At(s, 1) == c && At(s, 2) == '\'';
  }

  lemma {:induction false} InsideScans(s: string, j: nat, x: string)
    requires j + |x| < |s| && s[j..j + |x|] == x && s[j + |x|] == '"' && Inside(x)
    ensures ScanStringEnd(s, j) == Ok(j + |x|)
    decreases |x|
  {
    if x != "" {
      assert s[j] == x[0];
      var n := if x[0] == '\\' then 2 else 1;
      if n == 2 { assert At(s, j + 1) == x[1]; }
      assert s[j + n..j + n + |x[n..]|] == x[n..];
      InsideScans(s, j + n, x[n..]);
    }
  }

  lemma {:induction false} StringReads(t: Tables, x: string, rest: string, dot: bool)
    requires Inside(x)
    ensures Scan(t, "\"" + x + "\"" + rest, dot) == Ok((Str(x), |x| + 2))
  {
    var s := "\"" + x + "\"" + rest;
    assert s[1..1 + |x|] == x && s[1 + |x|] == '"';
    InsideScans(s, 1, x);
  }

  lemma {:induction false} SymbolReads(t: Tables, op: string, rest: string, dot: bool)
    requires Sane(t) && LongestOperator(op, op + rest) && op != ""
    ensures Scan(t, op + rest, dot) == Ok((Symbol(op), |op|))
  {
    var s := op + rest;
    SymbolIsLongest(s);
    SymbolStarts(t, op);
    hide Sane, IsOperator;
    var r := ScanSymbol(s);
    assert r.Ok? && r.value.0.text == s[..|r.value.0.text|] && op == s[..|op|];
    hide ScanString, ScanChar, ScanNumber, ScanWord, ScanSymbol;
  }

  lemma {:induction false} SymbolStarts(t: Tables, op: string)
    requires Sane(t) && IsOperator(op)
    ensures op != "" && !t.alpha(op[0]) && op[0] != '"' && op[0] != '\'' && op[0] != '_' && !Digit(op[0]) && !Blank(op[0])
    ensures op[0] == '/' ==> op == "/" || op == "/="
  {
    OperatorStart(op);
    assert op[0] < '\U{80}';
  }

  lemma {:induction false} OperatorStart(op: string)
    requires IsOperator(op)
    ensures op != "" && op[0] in ONES && (op[0] == '/' ==> op == "/" || op == "/=")
  {
    if |op| == 1 { assert op == [op[0]]; }
  }

  lemma {:induction false} HexPairReads(t: Tables, code: int, rest: string, dot: bool)
    requires 0 <= code <= 255
    ensures Scan(t, Spell(Char(code)) + rest, dot) == Ok((Char(code), 6)) && |Spell(Char(code))| == 6 && Spell(Char(code))[0] == '\''
  {
    var pair := HexPair(code);
    HexEscapeReads(t, pair[0], pair[1], code / 16, code % 16, rest, dot);
    assert pair == [pair[0], pair[1]];
  }

  /** The token is read back from its spelling, whatever clear text follows. */
  lemma {:induction false} TokenReads(t: Tables, k: Token, dot: bool, rest: string)
    requires Sane(t) && HasSpelling(t, k, dot) && Clear(t, k, dot, rest)
    ensures Spell(k) != "" && Scan(t, Spell(k) + rest, dot) == Ok((k, |Spell(k)|))
    ensures !Blank(Spell(k)[0]) && (Spell(k)[0] == '/' ==> At(Spell(k) + rest, 1) !in "/*")
  {
    hide Scan, Sane;
    match k
    case Word(x) =>
      WordReads(t, x, dot, rest);
      WordStart(t, x[0]);
    case Int(base, x) =>
      IntReads(t, base, x, dot, rest);
    case Float(x) =>
      var w, f :| FloatParts(x, w, f);
      FloatReads(t, x, w, f, rest);
      FloatChars(x, w, f);
    case Char(code) => HexPairReads(t, code, rest, dot);
    case Str(x) => StringReads(t, x, rest, dot);
    case Symbol(op) =>
      SymbolStarts(t, op);
      OperatorReads(t, op, rest, dot);
  }

  lemma {:induction false} IntReads(t: Tables, base: nat, x: string, dot: bool, rest: string)
    requires Sane(t) && HasSpelling(t, Int(base, x), dot) && Clear(t, Int(base, x), dot, rest)
    ensures var s := Prefix(base) + x; s != "" && Digit(s[0]) && Scan(t, s + rest, dot) == Ok((Int(base, x), |s|))
  {
    hide Scan, Sane;
    if base == 10 {
      assert Prefix(base) + x == x;
      DecimalReads(t, x, dot, rest);
    } else {
      PrefixedReads(t, base, x, rest);
    }
  }

  lemma {:induction false} OperatorReads(t: Tables, op: string, rest: string, dot: bool)
    requires Sane(t) && IsOperator(op) && Clear(t, Symbol(op), dot, rest)
    ensures op != "" && Scan(t, op + rest, dot) == Ok((Symbol(op), |op|)) && (op[0] == '/' ==> At(op + rest, 1) !in "/*")
  {
    OperatorStart(op);
    ClearIsLongest(t, op, dot, rest);
    hide IsOperator, Scan, Sane;
    SymbolReads(t, op, rest, dot);
  }

  lemma {:induction false} ClearIsLongest(t: Tables, op: string, dot: bool, rest: string)
    requires IsOperator(op) && Clear(t, Symbol(op), dot, rest) && op != "" && (op[0] == '/' ==> op == "/" || op == "/=")
    ensures LongestOperator(op, op + rest) && (op[0] == '/' ==> At(op + rest, 1) !in "/*")
  {
    hide IsOperator;
    var s := op + rest;
    assert op <= s;
    if rest == "" {
      assert s == op;
    } else {
      assert s[|op|] == rest[0];
    }
    if op == "/=" { assert s[1] == op[1] == '='; }
  }

  // ----- texts -----

  predicate AllBlank(s: string) { forall i | 0 <= i < |s| :: s[i] in " \t\r\n" }

  function TextOf(toks: seq<Token>, gaps: seq<string>): string
    requires |gaps| == |toks| && forall i | 0 <= i < |toks| && toks[i].Char? :: 0 <= toks[i].code <= 255
  {
    if toks == [] then "" else Spell(toks[0]) + gaps[0] + TextOf(toks[1..], gaps[1..])
  }

  /** Whether a dot stands before the i-th token, where `dot` says so of the first. */
  predicate Dotted(toks: seq<Token>, i: int, dot: bool)
  {
    if 0 < i <= |toks| then toks[i - 1] == Symbol(".") else dot
  }

  /** Every token has a spelling where it stands. */
  ghost predicate Spelled(t: Tables, toks: seq<Token>, dot: bool)
  {
    forall i | 0 <= i < |toks| :: HasSpelling(t, toks[i], Dotted(toks, i, dot))
  }

  /** Blanks stand between the tokens wherever two would otherwise run together. */
  ghost predicate Apart(t: Tables, toks: seq<Token>, gaps: seq<string>, dot: bool)
  {
    && |gaps| == |toks|
    && (forall i | 0 <= i < |toks| && toks[i].Char? :: 0 <= toks[i].code <= 255)
    && (toks != [] ==>
          && HasSpelling(t, toks[0], dot) && AllBlank(gaps[0])
          && Clear(t, toks[0], dot, gaps[0] + TextOf(toks[1..], gaps[1..]))
          && Apart(t, toks[1..], gaps[1..], toks[0] == Symbol(".")))
  }

  lemma {:induction false} LexBlanks(t: Tables, gap: string, rest: string, st: LexState)
    requires Sane(t) && AllBlank(gap) && st.depth == 0
    ensures Lex(t, gap + rest, st) == Lex(t, rest, st)
    decreases gap
  {
    hide Sane, Lex;
    if gap == "" {
      assert gap + rest == rest;
    } else {
      assert (gap + rest)[1..] == gap[1..] + rest;
      LexBlank(t, gap + rest, st);
      LexBlanks(t, gap[1..], rest, st);
    }
  }

  /** The lexer inverts the spelling of token lists. */
  lemma {:induction false} SpellingReadsBack(t: Tables, toks: seq<Token>, gaps: seq<string>, lead: string)
    requires Sane(t) && Apart(t, toks, gaps, false) && AllBlank(lead)
    ensures Tokenize(t, lead + TextOf(toks, gaps)) == Ok(toks)
  {
    hide Sane;
    LexBlanks(t, lead, TextOf(toks, gaps), LexState(0, []));
    LexReads(t, toks, gaps, []);
    assert [] + toks == toks;
  }

  lemma {:induction false} LexReads(t: Tables, toks: seq<Token>, gaps: seq<string>, before: seq<Token>)
    requires Sane(t) && Apart(t, toks, gaps, AfterDot(before))
    ensures Lex(t, TextOf(toks, gaps), LexState(0, before)) == Ok(LexState(0, before + toks))
    decreases toks
  {
    hide Sane, Lex, Scan, HasSpelling, Clear, AllBlank, Spell;
    if toks == [] {
      LexEnd(t, LexState(0, before));
      assert before + toks == before;
    } else {
      var k, more := toks[0], TextOf(toks[1..], gaps[1..]);
      LexOne(t, k, gaps[0], more, before);
      LexReads(t, toks[1..], gaps[1..], before + [k]);
      assert Spell(k) + (gaps[0] + more) == Spell(k) + gaps[0] + more;
      assert before + [k] + toks[1..] == before + toks;
    }
  }

  lemma {:induction false} LexOne(t: Tables, k: Token, gap: string, more: string, before: seq<Token>)
    requires Sane(t) && HasSpelling(t, k, AfterDot(before)) && AllBlank(gap) && Clear(t, k, AfterDot(before), gap + more)
    ensures Lex(t, Spell(k) + (gap + more), LexState(0, before)) == Lex(t, more, LexState(0, before + [k]))
  {
    hide Sane, Lex, Scan, Clear;
    var s := Spell(k) + (gap + more);
    TokenReads(t, k, AfterDot(before), gap + more);
    hide HasSpelling, Spell;
    LexToken(t, s, LexState(0, before));
    assert s[|Spell(k)|..] == gap + more;
    LexBlanks(t, gap, more, LexState(0, before + [k]));
  }

  /** Any blank separates. */
  lemma {:induction false} BlankIsClear(t: Tables, k: Token, dot: bool, rest: string)
    requires Sane(t) && rest != "" && rest[0] in " \t\r\n"
    ensures Clear(t, k, dot, rest)
  {
    hide IsOperator;
    BlankFacts(t, rest[0]);
    if k.Symbol? { BlankEndsOperator(k.text, rest); }
  }

  lemma {:induction false} BlankFacts(t: Tables, c: char)
    requires Sane(t) && c in " \t\r\n"
    ensures !t.alnum(c) && c != '_' && c != '.' && c !in "/*" && c !in ONES
  {
  }

  lemma {:induction false} BlankEndsOperator(op: string, rest: string)
    requires rest != "" && rest[0] !in ONES
    ensures forall longer | IsOperator(longer) && longer <= op + rest :: |longer| <= |op|
  {
    hide IsOperator;
    forall longer | IsOperator(longer) && longer <= op + rest ensures |longer| <= |op| {
      OperatorChars(longer);
      LongerTakes(longer, op, rest);
    }
  }

  lemma {:induction false} LongerTakes(longer: string, op: string, rest: string)
    requires longer <= op + rest && rest != ""
    ensures |longer| > |op| ==> exists i :: 0 <= i < |longer| && longer[i] == rest[0]
  {
    if |longer| > |op| { assert longer[|op|] == (op + rest)[|op|] == rest[0]; }
  }

  lemma {:induction false} OperatorChars(op: string)
    requires IsOperator(op)
    ensures forall i | 0 <= i < |op| :: op[i] in ONES
  {
  }

  function LineEach(n: nat): (gaps: seq<string>)
    ensures |gaps| == n && forall i | 0 <= i < n :: gaps[i] == "\n"
  {
    seq(n, i => "\n")
  }

  lemma {:induction false} LinesAreApart(t: Tables, toks: seq<Token>, dot: bool)
    requires Sane(t) && Spelled(t, toks, dot)
    ensures Apart(t, toks, LineEach(|toks|), dot)
    decreases toks
  {
    hide Sane, HasSpelling, Clear;
    forall i | 0 <= i < |toks| && toks[i].Char? ensures 0 <= toks[i].code <= 255 {
      CharCode(t, toks[i], Dotted(toks, i, dot));
    }
    if toks != [] {
      var gaps, rest := LineEach(|toks|), toks[1..];
      assert gaps[1..] == LineEach(|rest|);
      forall i | 0 <= i < |rest| ensures HasSpelling(t, rest[i], Dotted(rest, i, toks[0] == Symbol("."))) {
        assert HasSpelling(t, toks[i + 1], Dotted(toks, i + 1, dot));
      }
      LinesAreApart(t, rest, toks[0] == Symbol("."));
      assert HasSpelling(t, toks[0], Dotted(toks, 0, dot));
      assert gaps[0] == "\n" && (gaps[0] + TextOf(rest, gaps[1..]))[0] == '\n';
      BlankIsClear(t, toks[0], dot, gaps[0] + TextOf(rest, gaps[1..]));
    }
  }

  lemma {:induction false} CharCode(t: Tables, k: Token, dot: bool)
    requires HasSpelling(t, k, dot) && k.Char?
    ensures 0 <= k.code <= 255
  {
  }

  // ----- and there are no other tokens -----

  lemma {:induction false} RunAll(t: Tables, k: CharClass, s: string, j: nat)
    requires j <= |s|
    ensures var e := RunEnd(t, k, s, j); AllIn(t, k, s[j..e])
    decreases |s| - j
  {
    if j < |s| && InClass(t, k, s[j]) {
      RunAll(t, k, s, j + 1);
      var e := RunEnd(t, k, s, j + 1);
      assert s[j..e] == [s[j]] + s[j + 1..e];
    }
  }

  lemma {:induction false} DropKeeps(t: Tables, k: CharClass, s: string)
    requires AllIn(t, k, s)
    ensures AllIn(t, k, DropSeparators(s)) && '_' !in DropSeparators(s)
    ensures s != "" && s[0] != '_' ==> DropSeparators(s) != ""
  {
    if s != "" {
      assert AllIn(t, k, s[1..]);
      DropKeeps(t, k, s[1..]);
    }
  }

  lemma {:induction false} ClassDigits(t: Tables, base: nat, x: string)
    requires base in {2, 8, 16} && AllIn(t, ClassOf(base), x) && '_' !in x && x != ""
    ensures DigitsOf(base, x)
  {
    forall i | 0 <= i < |x| ensures DigitsOf(base, [x[i]]) { BasesAre(t, base, x[i]); }
    assert forall i | 0 <= i < |x| :: [x[i]][0] == x[i];
  }

  lemma {:induction false} ClassDecimal(t: Tables, k: CharClass, x: string)
    requires k in {Decimal, DecimalSep} && AllIn(t, k, x) && '_' !in x && x != ""
    ensures Digits(x)
  {
  }

  lemma {:induction false} DropCat(a: string, b: string)
    ensures DropSeparators(a + b) == DropSeparators(a) + DropSeparators(b)
  {
    if a == "" {
      assert a + b == b;
    } else {
      assert (a + b)[1..] == a[1..] + b;
      DropCat(a[1..], b);
    }
  }

  lemma {:induction false} PrefixedSpelled(t: Tables, s: string, base: nat)
    requires base in {2, 8, 16} && |s| >= 2 && ScanPrefixed(t, s, ClassOf(base), base).Ok?
    ensures HasSpelling(t, ScanPrefixed(t, s, ClassOf(base), base).value.0, false)
  {
    var e := RunEnd(t, ClassOf(base), s, 2);
    RunAll(t, ClassOf(base), s, 2);
    DropKeeps(t, ClassOf(base), s[2..e]);
    ClassDigits(t, base, DropSeparators(s[2..e]));
  }

  lemma {:induction false} ExponentIs(t: Tables, s: string, j: nat)
    requires j < |s| && IsExp(s[j]) && ScanExponent(t, s, j).Ok?
    ensures var e := ScanExponent(t, s, j).value;
      && j + 2 <= e <= |s|
      && Digits(if s[j + 1] in "+-" then s[j + 2..e] else s[j + 1..e])
  {
    var k := if At(s, j + 1) == '+' || At(s, j + 1) == '-' then j + 2 else j + 1;
    RunAll(t, Decimal, s, k);
    var e := RunEnd(t, Decimal, s, k);
    assert e > k;
    ClassDecimal(t, Decimal, s[k..e]);
  }

  /** A text s[..e] whose digits end at w, with a fraction up to f, is a float once its separators are dropped. */
  lemma {:induction false} FloatSpelled(t: Tables, s: string, w: nat, f: nat, e: nat)
    requires w <= f <= e <= |s| && 0 < w < e && AllIn(t, DecimalSep, s[..w]) && s[0] != '_'
    requires w < f ==> s[w] == '.' && Digits(s[w + 1..f])
    requires f < e ==> IsExp(s[f]) && f + 2 <= e && Digits(if s[f + 1] in "+-" then s[f + 2..e] else s[f + 1..e])
    ensures FloatText(DropSeparators(s[..e]))
  {
    var a, b := s[..w], s[w..e];
    DropCat(a, b);
    assert a + b == s[..e];
    DropKeeps(t, DecimalSep, a);
    var d := DropSeparators(a);
    ClassDecimal(t, DecimalSep, d);
    RestIsPlain(s, w, f, e);
    PlainDigits(b);
    hide Digits, AllIn, DropSeparators;
    PartsMoved(s, w, f, e, d);
  }

  /** The parts of a float stay parts when other digits come first. */
  lemma {:induction false} PartsMoved(s: string, w: nat, f: nat, e: nat, d: string)
    requires w <= f <= e <= |s| && w < e && Digits(d)
    requires w < f ==> s[w] == '.' && Digits(s[w + 1..f])
    requires f < e ==> IsExp(s[f]) && f + 2 <= e && Digits(if s[f + 1] in "+-" then s[f + 2..e] else s[f + 1..e])
    ensures FloatParts(d + s[w..e], |d|, |d| + (f - w))
  {
    hide Digits;
    var x, g := d + s[w..e], |d| + (f - w);
    assert x[..|d|] == d;
    if w < f {
      MovedAt(s, w, e, d, w);
      Moved(s, w, e, d, w + 1, f);
    }
    if f < e {
      MovedAt(s, w, e, d, f);
      MovedAt(s, w, e, d, f + 1);
      Moved(s, w, e, d, f + 1, e);
      Moved(s, w, e, d, f + 2, e);
    }
  }

  lemma {:induction false} MovedAt(s: string, w: nat, e: nat, d: string, i: nat)
    requires w <= i < e <= |s|
    ensures (d + s[w..e])[|d| + i - w] == s[i]
  {
    assert (d + s[w..e])[|d| + i - w] == s[w..e][i - w];
  }

  lemma {:induction false} Moved(s: string, w: nat, e: nat, d: string, i: nat, j: nat)
    requires w <= i <= j <= e <= |s|
    ensures (d + s[w..e])[|d| + i - w..|d| + j - w] == s[i..j]
    ensures j == e ==> (d + s[w..e])[|d| + i - w..] == s[i..j]
  {
    var x, y := (d + s[w..e])[|d| + i - w..|d| + j - w], s[i..j];
    forall k | 0 <= k < |y| ensures x[k] == y[k] {
      assert (d + s[w..e])[|d| + i - w + k] == s[w..e][i - w + k];
    }
  }

  lemma {:induction false} RestIsPlain(s: string, w: nat, f: nat, e: nat)
    requires w <= f <= e <= |s|
    requires w < f ==> s[w] == '.' && Digits(s[w + 1..f])
    requires f < e ==> IsExp(s[f]) && f + 2 <= e && Digits(if s[f + 1] in "+-" then s[f + 2..e] else s[f + 1..e])
    ensures forall i | 0 <= i < |s[w..e]| :: s[w..e][i] != '_'
  {
    forall i | w <= i < e ensures s[i] != '_' {
      if w < i < f { assert s[i] == s[w + 1..f][i - w - 1]; }
      else if f + 1 < i {
        if s[f + 1] in "+-" { assert s[i] == s[f + 2..e][i - f - 2]; } else { assert s[i] == s[f + 1..e][i - f - 1]; }
      } else if i == f + 1 {
        if s[f + 1] !in "+-" { assert s[i] == s[f + 1..e][0]; }
      }
    }
  }

  lemma {:induction false} FloatEndSpelled(t: Tables, s: string, w: nat, f: nat, e: nat)
    requires w <= f <= e <= |s| && 0 < w < e && AllIn(t, DecimalSep, s[..w]) && s[0] != '_'
    requires w < f ==> s[w] == '.' && Digits(s[w + 1..f])
    requires f < e ==> IsExp(s[f]) && f + 2 <= e && Digits(if s[f + 1] in "+-" then s[f + 2..e] else s[f + 1..e])
    requires ScanFloatEnd(t, s, e).Ok?
    ensures HasSpelling(t, ScanFloatEnd(t, s, e).value.0, false)
  {
    FloatSpelled(t, s, w, f, e);
  }

  lemma {:induction false} DecimalSpelled(t: Tables, s: string)
    requires s != "" && Digit(s[0]) && ScanDecimal(t, s).Ok?
    ensures HasSpelling(t, ScanDecimal(t, s).value.0, false)
  {
    var w := RunEnd(t, DecimalSep, s, 0);
    RunAll(t, DecimalSep, s, 0);
    assert s[0..w] == s[..w];
    assert w > 0;
    if At(s, w) == '.' && Digit(At(s, w + 1)) {
      var f := RunEnd(t, Decimal, s, w + 1);
      RunAll(t, Decimal, s, w + 1);
      ClassDecimal(t, Decimal, s[w + 1..f]);
      if IsExp(At(s, f)) {
        ExponentIs(t, s, f);
        FloatEndSpelled(t, s, w, f, ScanExponent(t, s, f).value);
      } else {
        FloatEndSpelled(t, s, w, f, f);
      }
    } else if IsExp(At(s, w)) {
      ExponentIs(t, s, w);
      FloatEndSpelled(t, s, w, w, ScanExponent(t, s, w).value);
    } else {
      DropKeeps(t, DecimalSep, s[..w]);
      ClassDecimal(t, DecimalSep, DropSeparators(s[..w]));
    }
  }

  lemma {:induction false} IndexSpelled(t: Tables, s: string)
    requires s != "" && Digit(s[0]) && ScanIndex(t, s).Ok?
    ensures HasSpelling(t, ScanIndex(t, s).value.0, true)
  {
    var e := RunEnd(t, Decimal, s, 0);
    RunAll(t, Decimal, s, 0);
    assert s[0..e] == s[..e];
    ClassDecimal(t, Decimal, s[..e]);
  }

  lemma {:induction false} InsideSpelled(s: string, j: nat)
    requires j <= |s| && ScanStringEnd(s, j).Ok?
    ensures j <= ScanStringEnd(s, j).value < |s| && Inside(s[j..ScanStringEnd(s, j).value])
    decreases |s| - j
  {
    if s[j] != '"' {
      var n := if s[j] == '\\' then 2 else 1;
      StringEndIs(s, j + n);
      InsideSpelled(s, j + n);
      var e := ScanStringEnd(s, j).value;
      var x := s[j..e];
      assert x[0] == s[j] && x[n..] == s[j + n..e];
      if n == 2 { assert x[1] == s[j + 1]; }
    } else {
      assert s[j..j] == "";
    }
  }

  lemma {:induction false} WordSpelled(t: Tables, s: string, dot: bool)
    requires s != "" && (t.alpha(s[0]) || s[0] == '_') && (t.alpha(s[0]) ==> t.alnum(s[0]))
    ensures HasSpelling(t, ScanWord(t, s).value.0, dot)
  {
    RunAll(t, WordChars, s, 0);
    var e := RunEnd(t, WordChars, s, 0);
    assert s[0..e] == s[..e];
  }

  /** Whatever the lexer gives as a token has a spelling. */
  lemma {:induction false} ScannedIsSpelled(t: Tables, s: string, dot: bool)
    requires Sane(t) && s != "" && Scan(t, s, dot).Ok?
    ensures HasSpelling(t, Scan(t, s, dot).value.0, dot)
  {
    hide ScanNumber, ScanChar, ScanWord, ScanSymbol, ScanStringEnd, Sane, IsOperator, FloatText, DigitsOf;
    if s[0] == '"' {
      InsideSpelled(s, 1);
    } else if s[0] == '\'' {
      CharSpelled(t, s, dot);
    } else if Digit(s[0]) {
      NumberSpelled(t, s, dot);
    } else if t.alpha(s[0]) || s[0] == '_' {
      AlphaIsAlnum(t, s[0]);
      WordSpelled(t, s, dot);
    } else {
      SymbolIsLongest(s);
    }
  }

  lemma {:induction false} CharSpelled(t: Tables, s: string, dot: bool)
    requires s != "" && ScanChar(s).Ok?
    ensures HasSpelling(t, ScanChar(s).value.0, dot)
  {
  }

  lemma {:induction false} NumberSpelled(t: Tables, s: string, dot: bool)
    requires s != "" && Digit(s[0]) && ScanNumber(t, s, dot).Ok?
    ensures HasSpelling(t, ScanNumber(t, s, dot).value.0, dot)
  {
    hide ScanDecimal, ScanIndex, ScanPrefixed, HasSpelling;
    var c := At(s, 1);
    if dot { IndexSpelled(t, s); }
    else if s[0] == '0' && (c == 'x' || c == 'X') { PrefixedSpelled(t, s, 16); }
    else if s[0] == '0' && (c == 'b' || c == 'B') { PrefixedSpelled(t, s, 2); }
    else if s[0] == '0' && (c == 'o' || c == 'O') { PrefixedSpelled(t, s, 8); }
    else { DecimalSpelled(t, s); }
  }

  lemma {:induction false} LexSpelled(t: Tables, s: string, st: LexState)
    requires Sane(t) && Lex(t, s, st).Ok? && Spelled(t, st.tokens, false)
    ensures Spelled(t, Lex(t, s, st).value.tokens, false)
    decreases |s|
  {
    hide Scan, HasSpelling;
    if s != "" {
      if st.depth > 0 {
        if s[0] == '/' && At(s, 1) == '*' { LexSpelled(t, s[2..], st.(depth := st.depth + 1)); }
        else if s[0] == '*' && At(s, 1) == '/' { LexSpelled(t, s[2..], st.(depth := st.depth - 1)); }
        else { LexSpelled(t, s[1..], st); }
      } else if Blank(s[0]) {
        LexSpelled(t, s[1..], st);
      } else if s[0] == '/' && At(s, 1) == '/' {
        LexSpelled(t, s[LineEnd(s)..], st);
      } else if s[0] == '/' && At(s, 1) == '*' {
        LexSpelled(t, s[2..], st.(depth := 1));
      } else {
        ScannedIsSpelled(t, s, AfterDot(st.tokens));
        ScanAdvances(t, s, AfterDot(st.tokens));
        var r := Scan(t, s, AfterDot(st.tokens)).value;
        SpelledSnoc(t, st.tokens, r.0);
        LexSpelled(t, s[r.1..], st.(tokens := st.tokens + [r.0]));
      }
    }
  }

  lemma {:induction false} SpelledSnoc(t: Tables, toks: seq<Token>, k: Token)
    requires Spelled(t, toks, false) && HasSpelling(t, k, AfterDot(toks))
    ensures Spelled(t, toks + [k], false)
  {
    hide HasSpelling;
    var more := toks + [k];
    forall i | 0 <= i < |more| ensures HasSpelling(t, more[i], Dotted(more, i, false)) {
      if i < |toks| { assert Dotted(more, i, false) == Dotted(toks, i, false); }
    }
  }

  /** The lists of tokens that some text has are exactly those in which every token has a spelling. */
  lemma {:induction false} TokenListsAre(t: Tables, toks: seq<Token>)
    requires Sane(t)
    ensures (exists s :: Tokenize(t, s) == Ok(toks)) <==> Spelled(t, toks, false)
  {
    hide Sane, HasSpelling;
    if s :| Tokenize(t, s) == Ok(toks) {
      LexSpelled(t, s, LexState(0, []));
    }
    if Spelled(t, toks, false) {
      LinesAreApart(t, toks, false);
      SpellingReadsBack(t, toks, LineEach(|toks|), "");
    }
  }

  // ----- separators, and what is refused -----

  /** Digits with single separators between them, and none at either end. */
  predicate WellSeparated(x: string)
  {
    && x != "" && x[0] != '_' && x[|x| - 1] != '_'
    && forall i | 0 < i < |x| :: x[i] == '_' ==> x[i - 1] != '_'
  }

  lemma {:induction false} SeparatedIsGood(x: string)
    ensures x != "" && GoodSeparators(x) <==> WellSeparated(x)
  {
    if x != "" && GoodSeparators(x) {
      forall i | 0 < i < |x| && x[i] == '_' ensures x[i - 1] != '_' { assert x[i - 1 + 1] == '_'; }
    }
    if WellSeparated(x) {
      forall i | 0 <= i < |x| - 1 ensures !(x[i] == '_' && x[i + 1] == '_') {}
    }
  }

  /** A row of digits and separators behind a prefix is a number exactly if it is well separated, and
      then its digits are those that stay when the separators go. */
  lemma {:induction false} PrefixedSeparators(t: Tables, base: nat, x: string, rest: string)
    requires Sane(t) && base in {2, 8, 16} && AllIn(t, ClassOf(base), x)
    requires rest == "" || (!t.alnum(rest[0]) && rest[0] != '_')
    ensures Scan(t, Prefix(base) + x + rest, false) ==
      if WellSeparated(x) then Ok((Int(base, DropSeparators(x)), |x| + 2)) else Failed
  {
    var s := Prefix(base) + x + rest;
    var k, e := ClassOf(base), |x| + 2;
    assert s[0] == '0' && s[1] == Prefix(base)[1];
    PrefixDispatch(t, base, s);
    NulIsNothing(t);
    if e < |s| {
      assert s[e] == rest[0];
      ClassIsSticky(t, base, s[e]);
    }
    hide Sane, Scan;
    forall i | 2 <= i < e ensures InClass(t, k, s[i]) { assert s[i] == x[i - 2]; }
    hide InClass;
    RunIs(t, k, s, 2, e);
    assert s[2..e] == x;
    SeparatedIsGood(x);
    hide GoodSeparators, WellSeparated, DropSeparators, RunEnd;
  }

  lemma {:induction false} DecimalSeparators(t: Tables, x: string, rest: string)
    requires Sane(t) && AllIn(t, DecimalSep, x) && x != "" && Digit(x[0])
    requires rest == "" || (!t.alnum(rest[0]) && rest[0] != '_' && (rest[0] == '.' ==> !Digit(At(rest, 1))))
    ensures Scan(t, x + rest, false) == if WellSeparated(x) then Ok((Int(10, DropSeparators(x)), |x|)) else Failed
  {
    var s, e := x + rest, |x|;
    DigitFacts(t, At(s, e));
    NulIsNothing(t);
    assert At(s, e + 1) == At(rest, 1);
    assert e > 1 ==> At(s, 1) == x[1];
    DigitFacts(t, 'x'); DigitFacts(t, 'X'); DigitFacts(t, 'b'); DigitFacts(t, 'B'); DigitFacts(t, 'o'); DigitFacts(t, 'O');
    DigitFacts(t, 'e'); DigitFacts(t, 'E');
    DecimalDispatch(t, s);
    hide Sane, Scan;
    RunIs(t, DecimalSep, s, 0, e);
    assert s[..e] == x;
    SeparatedIsGood(x);
    hide GoodSeparators, WellSeparated, DropSeparators, RunEnd;
  }

  /** A letter that cannot go on with a number may not follow it directly, as in 12abc. */
  lemma {:induction false} GluedFails(t: Tables, x: string, c: char, rest: string, dot: bool)
    requires Sane(t) && Digits(x) && (t.alpha(c) || (c == '_' && dot)) && c !in "eE" && (x == "0" ==> c !in "xXbBoO")
    ensures Scan(t, x + [c] + rest, dot).Failed?
  {
    var s, e := x + [c] + rest, |x|;
    assert s[e] == c;
    DigitFacts(t, c);
    hide Sane;
    if dot {
      RunIs(t, Decimal, s, 0, e);
    } else {
      assert e > 1 ==> At(s, 1) == x[1];
      if e == 1 && x[0] == '0' { assert x == "0"; }
      assert s[0] != '0' || At(s, 1) !in "xXbBoO";
      RunIs(t, DecimalSep, s, 0, e);
      assert ScanDecimal(t, s).Failed?;
      hide ScanDecimal, ScanPrefixed;
    }
  }

  // ----- comments -----

  /** What stands in a block comment: words without a slash or a star, and comments. */
  datatype Remark = Nothing | Words(text: string, more: Remark) | Nested(inner: Remark, more: Remark)

  predicate Plain(r: Remark)
  {
    match r
    case Nothing => true
    case Words(text, more) => (forall i | 0 <= i < |text| :: text[i] !in "/*") && Plain(more)
    case Nested(inner, more) => Plain(inner) && Plain(more)
  }

  function Show(r: Remark): string
  {
    match r
    case Nothing => ""
    case Words(text, more) => text + Show(more)
    case Nested(inner, more) => "/*" + Show(inner) + "*/" + Show(more)
  }

  lemma {:induction false} LexWords(t: Tables, text: string, rest: string, st: LexState)
    requires Sane(t) && st.depth > 0 && forall i | 0 <= i < |text| :: text[i] !in "/*"
    ensures Lex(t, text + rest, st) == Lex(t, rest, st)
    decreases text
  {
    if text == "" {
      assert text + rest == rest;
    } else {
      assert (text + rest)[1..] == text[1..] + rest;
      LexWords(t, text[1..], rest, st);
    }
  }

  lemma {:induction false} LexOpen(t: Tables, rest: string, st: LexState)
    requires Sane(t)
    ensures Lex(t, "/*" + rest, st) == Lex(t, rest, st.(depth := st.depth + 1))
  {
    assert ("/*" + rest)[2..] == rest;
  }

  lemma {:induction false} LexClose(t: Tables, rest: string, st: LexState)
    requires Sane(t) && st.depth > 0
    ensures Lex(t, "*/" + rest, st) == Lex(t, rest, st.(depth := st.depth - 1))
  {
    assert ("*/" + rest)[2..] == rest;
  }

  lemma {:induction false} LexRemark(t: Tables, r: Remark, rest: string, st: LexState)
    requires Sane(t) && Plain(r) && st.depth > 0
    ensures Lex(t, Show(r) + rest, st) == Lex(t, rest, st)
    decreases r
  {
    hide Sane, Lex;
    match r
    case Nothing => assert Show(r) + rest == rest;
    case Words(text, more) =>
      assert Show(r) + rest == text + (Show(more) + rest);
      LexWords(t, text, Show(more) + rest, st);
      LexRemark(t, more, rest, st);
    case Nested(inner, more) =>
      var s2 := "*/" + (Show(more) + rest);
      assert Show(r) + rest == "/*" + (Show(inner) + s2);
      LexOpen(t, Show(inner) + s2, st);
      LexRemark(t, inner, s2, st.(depth := st.depth + 1));
      LexClose(t, Show(more) + rest, st.(depth := st.depth + 1));
      LexRemark(t, more, rest, st);
  }

  /** A block comment leaves no tokens, however deep the comments in it are nested. */
  lemma {:induction false} CommentVanishes(t: Tables, r: Remark, rest: string, st: LexState)
    requires Sane(t) && Plain(r) && st.depth == 0
    ensures Lex(t, "/*" + Show(r) + "*/" + rest, st) == Lex(t, rest, st)
  {
    hide Sane, Lex;
    var s := "*/" + rest;
    assert "/*" + Show(r) + "*/" + rest == "/*" + (Show(r) + s);
    LexOpen(t, Show(r) + s, st);
    LexRemark(t, r, s, st.(depth := 1));
    LexClose(t, rest, st.(depth := 1));
  }

  /** One that is not closed is an error. */
  lemma {:induction false} OpenCommentFails(t: Tables, r: Remark)
    requires Sane(t) && Plain(r)
    ensures Tokenize(t, "/*" + Show(r)).Failed?
  {
    hide Sane, Lex;
    LexOpen(t, Show(r), LexState(0, []));
    LexRemark(t, r, "", LexState(1, []));
    assert Show(r) + "" == Show(r);
    LexEnd(t, LexState(1, []));
  }

  /** A line comment leaves no tokens and ends with its line. */
  lemma {:induction false} LineCommentVanishes(t: Tables, text: string, rest: string, st: LexState)
    requires Sane(t) && '\n' !in text && st.depth == 0
    ensures Lex(t, "//" + text + "\n" + rest, st) == Lex(t, rest, st)
  {
    hide Sane, Lex;
    var s := "//" + text + "\n" + rest;
    LineEndIs(s, |text| + 2);
    LexLineComment(t, s, st);
    assert s[LineEnd(s)..] == "\n" + rest;
    LexBlank(t, "\n" + rest, st);
    assert ("\n" + rest)[1..] == rest;
  }

  lemma {:induction false} LineEndIs(s: string, n: nat)
    requires n < |s| && s[n] == '\n' && forall i | 0 <= i < n :: s[i] != '\n'
    ensures LineEnd(s) == n
  {
    if n > 0 { LineEndIs(s[1..], n - 1); }
  }
}
