/** The lexer looks no further than the end of a token: white space and line ends that follow do not
    matter to it, unless a string runs across a line end. */
module LexLocality {
  import opened Lexing

  /** A character no token continues with. */
  predicate Stop(t: Tables, c: char) { c == '\0' || c == '\n' || t.space(c) }

  /** White space up to a line end or the end of the text; then anything. */
  predicate Tail(t: Tables, x: string)
  {
    x == "" || x[0] == '\n' || (t.space(x[0]) && Tail(t, x[1..]))
  }

  lemma {:induction false} StopFacts(t: Tables, c: char)
    requires Sane(t) && Stop(t, c)
    ensures !Digit(c) && !HexDigit(c) && !t.alnum(c) && !t.alpha(c) && c != '_'
    ensures c != '.' && c != 'e' && c != 'E' && c != '+' && c != '-' && c != '\'' && c != '"' && c != '\\' && c != '/' && c != '*'
    ensures forall k :: !InClass(t, k, c)
    ensures !StickyEnd(t, c) && !AsciiLetter(c)
  {
    assert t.alpha('a') && t.alnum('a');
    if c < '\U{80}' { assert t.space(c) == AsciiSpace(c); }
  }

  lemma {:induction false} StopAt(t: Tables, p: string, x: string, j: nat)
    requires Tail(t, x) && j <= |p|
    ensures j < |p| ==> At(p + x, j) == p[j]
    ensures j == |p| ==> Stop(t, At(p + x, j))
  {
  }

  /** Wherever the lexer looks at or before the end of p, it sees the same or a stop. */
  lemma {:induction false} AtLocal(t: Tables, p: string, x: string, y: string, j: nat)
    requires Sane(t) && Tail(t, x) && Tail(t, y) && j <= |p|
    ensures var a, b := At(p + x, j), At(p + y, j);
      a == b || (j == |p| && Stop(t, a) && Stop(t, b))
    ensures j < |p| ==> At(p + x, j) == At(p + y, j)
  {
  }

  lemma {:induction false} RunLocal(t: Tables, k: CharClass, p: string, x: string, y: string, j: nat)
    requires Sane(t) && Tail(t, x) && Tail(t, y) && j <= |p|
    ensures RunEnd(t, k, p + x, j) == RunEnd(t, k, p + y, j) <= |p|
    decreases |p| - j
  {
    hide Sane;
    StopAt(t, p, x, j);
    StopAt(t, p, y, j);
    if j == |p| {
      StopFacts(t, At(p + x, j));
      StopFacts(t, At(p + y, j));
    } else if InClass(t, k, p[j]) {
      RunLocal(t, k, p, x, y, j + 1);
    }
  }

  lemma {:induction false} SliceLocal(p: string, x: string, i: nat, j: nat)
    requires i <= j <= |p|
    ensures (p + x)[i..j] == p[i..j]
  {
  }

  /** The first checks after a run see the same answer. */
  lemma {:induction false} EndLocal(t: Tables, p: string, x: string, y: string, j: nat)
    requires Sane(t) && Tail(t, x) && Tail(t, y) && j <= |p|
    ensures var a, b := At(p + x, j), At(p + y, j);
      && StickyEnd(t, a) == StickyEnd(t, b) && t.alpha(a) == t.alpha(b) && (a == '_' <==> b == '_')
      && (a == '.' <==> b == '.') && IsExp(a) == IsExp(b) && Digit(a) == Digit(b) && (a == '\'' <==> b == '\'')
      && (a == '+' <==> b == '+') && (a == '-' <==> b == '-') && HexDigit(a) == HexDigit(b)
      && (a == '.' || IsExp(a) || a == '+' || a == '-' || Digit(a) || HexDigit(a) || a == '\'' ==> j < |p|)
  {
    hide Sane;
    AtLocal(t, p, x, y, j);
    if j == |p| {
      StopAt(t, p, x, j);
      StopAt(t, p, y, j);
      StopFacts(t, At(p + x, j));
      StopFacts(t, At(p + y, j));
    }
  }

  lemma {:induction false} ExponentLocal(t: Tables, p: string, x: string, y: string, j: nat)
    requires Sane(t) && Tail(t, x) && Tail(t, y) && j < |p|
    ensures ScanExponent(t, p + x, j) == ScanExponent(t, p + y, j)
    ensures ScanExponent(t, p + x, j).Ok? ==> ScanExponent(t, p + x, j).value <= |p|
  {
    hide Sane, RunEnd;
    EndLocal(t, p, x, y, j + 1);
    var k := if At(p + x, j + 1) == '+' || At(p + x, j + 1) == '-' then j + 2 else j + 1;
    EndLocal(t, p, x, y, k);
    RunLocal(t, Decimal, p, x, y, k);
  }

  /** The same token of the same length, ending inside p. */
  predicate Agree(a: Lexed<(Token, nat)>, b: Lexed<(Token, nat)>, n: nat)
  {
    a == b && (a.Ok? ==> a.value.1 <= n)
  }

  lemma {:induction false} FloatEndLocal(t: Tables, p: string, x: string, y: string, e: nat)
    requires Sane(t) && Tail(t, x) && Tail(t, y) && e <= |p|
    ensures Agree(ScanFloatEnd(t, p + x, e), ScanFloatEnd(t, p + y, e), |p|)
  {
    hide Sane, DropSeparators;
    EndLocal(t, p, x, y, e);
    SliceLocal(p, x, 0, e);
    SliceLocal(p, y, 0, e);
  }

  lemma {:induction false} DecimalLocal(t: Tables, p: string, x: string, y: string)
    requires Sane(t) && Tail(t, x) && Tail(t, y)
    ensures Agree(ScanDecimal(t, p + x), ScanDecimal(t, p + y), |p|)
  {
    hide Sane, RunEnd, ScanFloatEnd, ScanExponent, GoodSeparators, DropSeparators;
    RunLocal(t, DecimalSep, p, x, y, 0);
    var e := RunEnd(t, DecimalSep, p + x, 0);
    SliceLocal(p, x, 0, e);
    SliceLocal(p, y, 0, e);
    EndLocal(t, p, x, y, e);
    if At(p + x, e) == '.' && e < |p| {
      EndLocal(t, p, x, y, e + 1);
      RunLocal(t, Decimal, p, x, y, e + 1);
      var f := RunEnd(t, Decimal, p + x, e + 1);
      EndLocal(t, p, x, y, f);
      FloatEndLocal(t, p, x, y, f);
      if IsExp(At(p + x, f)) {
        ExponentLocal(t, p, x, y, f);
        var g := ScanExponent(t, p + x, f);
        if g.Ok? { FloatEndLocal(t, p, x, y, g.value); }
      }
    }
    if IsExp(At(p + x, e)) {
      ExponentLocal(t, p, x, y, e);
      var g := ScanExponent(t, p + x, e);
      if g.Ok? { FloatEndLocal(t, p, x, y, g.value); }
    }
  }

  lemma {:induction false} PrefixedLocal(t: Tables, p: string, x: string, y: string, k: CharClass, base: nat)
    requires Sane(t) && Tail(t, x) && Tail(t, y) && |p| >= 2
    ensures Agree(ScanPrefixed(t, p + x, k, base), ScanPrefixed(t, p + y, k, base), |p|)
  {
    hide Sane, GoodSeparators, DropSeparators;
    RunLocal(t, k, p, x, y, 2);
    var e := RunEnd(t, k, p + x, 2);
    SliceLocal(p, x, 2, e);
    SliceLocal(p, y, 2, e);
    EndLocal(t, p, x, y, e);
  }

  lemma {:induction false} NumberLocal(t: Tables, p: string, x: string, y: string, dot: bool)
    requires Sane(t) && Tail(t, x) && Tail(t, y) && p != ""
    ensures Agree(ScanNumber(t, p + x, dot), ScanNumber(t, p + y, dot), |p|)
  {
    hide Sane, RunEnd, ScanDecimal, ScanPrefixed;
    if dot {
      RunLocal(t, Decimal, p, x, y, 0);
      var e := RunEnd(t, Decimal, p + x, 0);
      SliceLocal(p, x, 0, e);
      SliceLocal(p, y, 0, e);
      EndLocal(t, p, x, y, e);
    } else {
      DecimalLocal(t, p, x, y);
      if |p| >= 2 {
        PrefixedLocal(t, p, x, y, HexSep, 16);
        PrefixedLocal(t, p, x, y, BinarySep, 2);
        PrefixedLocal(t, p, x, y, OctalSep, 8);
      } else {
        NoPrefix(t, p, x);
        NoPrefix(t, p, y);
      }
    }
  }

  lemma {:induction false} NoPrefix(t: Tables, p: string, x: string)
    requires Sane(t) && Tail(t, x) && |p| == 1
    ensures ScanNumber(t, p + x, false) == ScanDecimal(t, p + x)
  {
    hide ScanDecimal, ScanPrefixed;
    StopAt(t, p, x, 1);
    StopFacts(t, At(p + x, 1));
  }

  // ----- characters, strings, words, symbols -----

  lemma {:induction false} CharLocal(t: Tables, p: string, x: string, y: string)
    requires Sane(t) && Tail(t, x) && Tail(t, y) && p != "" && ScanChar(p + x).Ok?
    ensures Agree(ScanChar(p + x), ScanChar(p + y), |p|)
  {
    hide Sane;
    var n := ScanCharBody(p + x).value.1;
    if n < |p| {
      AtLocal(t, p, x, y, 1);
      AtLocal(t, p, x, y, 2);
      AtLocal(t, p, x, y, n);
      if n == 5 {
        AtLocal(t, p, x, y, 3);
        AtLocal(t, p, x, y, 4);
      }
    } else {
      CharEndsInside(t, p, x);
    }
  }

  /** What follows the tail's white space starts after a line end. */
  lemma {:induction false} TailBreaks(t: Tables, p: string, x: string, n: nat)
    requires Tail(t, x) && |p| <= n && !Stop(t, At(p + x, n))
    ensures exists j :: |p| <= j < n && At(p + x, j) == '\n'
    decreases |x|
  {
    assert x != "" && n < |p + x|;
    if x[0] == '\n' {
      assert At(p + x, |p|) == '\n';
    } else {
      var p1 := p + [x[0]];
      assert p1 + x[1..] == p + x;
      assert At(p + x, |p|) == x[0];
      TailBreaks(t, p1, x[1..], n);
    }
  }

  /** A character literal that is complete is complete before any white space that ends the line. */
  lemma {:induction false} CharEndsInside(t: Tables, p: string, x: string)
    requires Sane(t) && Tail(t, x) && p != "" && ScanChar(p + x).Ok?
    ensures ScanCharBody(p + x).value.1 < |p|
  {
    var n := ScanCharBody(p + x).value.1;
    if n >= |p| {
      QuoteIsNoStop(t);
      TailBreaks(t, p, x, n);
      assert false;
    }
  }

  lemma {:induction false} QuoteIsNoStop(t: Tables)
    requires Sane(t)
    ensures !Stop(t, '\'') && !Stop(t, '"') && !Stop(t, '\\')
  {
  }

  /** No string reaches its closing quote through white space that ends the line. */
  lemma {:induction false} StringInTail(t: Tables, p: string, x: string, j: nat)
    requires Sane(t) && Tail(t, x) && |p| <= j && ScanStringEnd(p + x, j).Ok?
    ensures exists i :: |p| <= i < j && At(p + x, i) == '\n'
    decreases |p + x| - j
  {
    var s := p + x;
    if s[j] == '"' {
      QuoteIsNoStop(t);
      TailBreaks(t, p, x, j);
    } else if s[j] == '\\' {
      QuoteIsNoStop(t);
      TailBreaks(t, p, x, j);
    } else {
      StringInTail(t, p, x, j + 1);
    }
  }

  lemma {:induction false} StringEndLocal(t: Tables, p: string, x: string, y: string, j: nat)
    requires Sane(t) && Tail(t, x) && Tail(t, y) && j <= |p| && ScanStringEnd(p + x, j).Ok?
    requires '\n' !in (p + x)[j..StringEnd(p + x, j)]
    ensures StringEnd(p + x, j) < |p| && ScanStringEnd(p + y, j) == ScanStringEnd(p + x, j)
    decreases |p| - j
  {
    var s := p + x;
    var e := StringEnd(s, j);
    if j == |p| {
      StringInTail(t, p, x, j);
      assert false;
    } else if s[j] == '\\' {
      StringEndIs(s, j + 2);
      assert s[j..e][1] == s[j + 1];
      assert s[j..e][2..] == s[j + 2..e];
      AtLocal(t, p, x, y, j + 1);
      if j + 1 < |p| {
        StringEndLocal(t, p, x, y, j + 2);
      } else {
        assert (p + x)[|p|] != '\n';
        StringInTail(t, p, x, j + 2);
        assert false;
      }
    } else if s[j] != '"' {
      StringEndIs(s, j + 1);
      assert s[j..e][1..] == s[j + 1..e];
      StringEndLocal(t, p, x, y, j + 1);
    }
  }

  function StringEnd(s: string, j: nat): (e: nat)
    requires ScanStringEnd(s, j).Ok?
    ensures j <= e < |s|
  {
    StringEndIs(s, j);
    ScanStringEnd(s, j).value
  }

  /** The token holds no line end; only a string with an escaped one does. */
  predicate OnOneLine(k: Token)
  {
    k.Str? ==> '\n' !in k.text
  }

  lemma {:induction false} StringLocal(t: Tables, p: string, x: string, y: string)
    requires Sane(t) && Tail(t, x) && Tail(t, y) && p != "" && ScanString(p + x).Ok? && OnOneLine(ScanString(p + x).value.0)
    ensures Agree(ScanString(p + x), ScanString(p + y), |p|)
  {
    hide Sane, ScanStringEnd;
    var e := StringEnd(p + x, 1);
    StringEndLocal(t, p, x, y, 1);
    SliceLocal(p, x, 1, e);
    SliceLocal(p, y, 1, e);
  }

  lemma {:induction false} WordLocal(t: Tables, p: string, x: string, y: string)
    requires Sane(t) && Tail(t, x) && Tail(t, y)
    ensures Agree(ScanWord(t, p + x), ScanWord(t, p + y), |p|)
  {
    hide Sane;
    RunLocal(t, WordChars, p, x, y, 0);
    var e := RunEnd(t, WordChars, p + x, 0);
    SliceLocal(p, x, 0, e);
    SliceLocal(p, y, 0, e);
  }

  /** No operator contains a stop. */
  lemma {:induction false} SymbolStops(t: Tables, a: char, b: char, c: char)
    requires Sane(t)
    ensures Stop(t, b) ==> !TwoChar([a, b]) && !ThreeChar([a, b, c])
    ensures Stop(t, c) ==> !ThreeChar([a, b, c])
  {
    if Stop(t, b) { SymbolCharIsNoStop(t, b); }
    if Stop(t, c) { SymbolCharIsNoStop(t, c); }
    if TwoChar([a, b]) { assert [a, b][1] == b; }
    if ThreeChar([a, b, c]) { assert [a, b, c][1] == b && [a, b, c][2] == c; }
  }

  lemma {:induction false} SymbolCharIsNoStop(t: Tables, c: char)
    requires Sane(t) && Stop(t, c)
    ensures c !in "->=.!<&|+*/%^"
  {
    if c < '\U{80}' { assert t.space(c) == AsciiSpace(c); }
  }

  lemma {:induction false} SymbolLocal(t: Tables, p: string, x: string, y: string)
    requires Sane(t) && Tail(t, x) && Tail(t, y) && p != ""
    ensures Agree(ScanSymbol(p + x), ScanSymbol(p + y), |p|)
  {
    hide Sane, ThreeChar, TwoChar, OneChar;
    AtLocal(t, p, x, y, 1);
    var a, b, c := p[0], At(p + x, 1), At(p + x, 2);
    var b1, c1 := At(p + y, 1), At(p + y, 2);
    SymbolStops(t, a, b, c);
    SymbolStops(t, a, b1, c1);
    if |p| >= 2 { AtLocal(t, p, x, y, 2); }
  }

  /** A token that ends before the line does is read from its own text alone. */
  lemma {:induction false} ScanLocal(t: Tables, p: string, x: string, y: string, dot: bool)
    requires Sane(t) && Tail(t, x) && Tail(t, y) && p != "" && Scan(t, p + x, dot).Ok? && OnOneLine(Scan(t, p + x, dot).value.0)
    ensures Agree(Scan(t, p + x, dot), Scan(t, p + y, dot), |p|)
  {
    hide Sane, ScanString, ScanChar, ScanNumber, ScanWord, ScanSymbol;
    var c := p[0];
    if c == '"' {
      StringLocal(t, p, x, y);
    } else if c == '\'' {
      CharLocal(t, p, x, y);
    } else if Digit(c) {
      NumberLocal(t, p, x, y, dot);
    } else if t.alpha(c) || c == '_' {
      WordLocal(t, p, x, y);
    } else {
      SymbolLocal(t, p, x, y);
    }
  }
}
