/** The lexer as it runs: a cursor that advances over the source and a list of tokens that grows. */
module LexerMachine {
  import opened Lexing

  /** One step inside block comments. */
  lemma {:induction false} CommentStep(t: Tables, src: string, i: nat, st: LexState)
    requires Sane(t) && i < |src| && st.depth > 0
    ensures Lex(t, src[i..], st) ==
      if src[i] == '/' && At(src, i + 1) == '*' then Lex(t, src[i + 2..], st.(depth := st.depth + 1))
      else if src[i] == '*' && At(src, i + 1) == '/' then Lex(t, src[i + 2..], st.(depth := st.depth - 1))
      else Lex(t, src[i + 1..], st)
  {
    var s := src[i..];
    assert s[0] == src[i] && At(s, 1) == At(src, i + 1) && s[1..] == src[i + 1..];
    if i + 2 <= |src| { assert s[2..] == src[i + 2..]; }
  }

  class Lexer {
    const t: Tables
    const src: string
    var i: nat
    var tokens: seq<Token>

    predicate Valid()
      reads this
    {
      i <= |src|
    }

    constructor (t: Tables, src: string)
      ensures Valid() && this.t == t && this.src == src && i == 0 && tokens == []
    {
      this.t, this.src := t, src;
      i, tokens := 0, [];
    }

    function Peek(offset: nat): (c: char)
      reads this
      ensures i <= |src| ==> c == At(src[i..], offset)
    {
      At(src, i + offset)
    }

    method Advance() returns (c: char)
      requires i < |src|
      modifies this`i
      ensures c == src[old(i)] && i == old(i) + 1
    {
      c := src[i];
      i := i + 1;
    }

    /** Takes the run of class characters at the cursor; `start` is where the token began. */
    method TakeRun(k: CharClass, ghost start: nat) returns (taken: string)
      requires start <= i <= |src|
      modifies this`i
      ensures old(i) <= i <= |src| && taken == src[old(i)..i]
      ensures i - start == RunEnd(t, k, src[start..], old(i) - start)
    {
      ghost var s, from := src[start..], i;
      taken := "";
      while i < |src| && InClass(t, k, src[i])
        invariant from <= i <= |src| && taken == src[from..i]
        invariant RunEnd(t, k, s, i - start) == RunEnd(t, k, s, from - start)
        decreases |src| - i
      {
        assert s[i - start] == src[i];
        var c := Advance();
        taken := taken + [c];
      }
      if i < |src| { assert s[i - start] == src[i]; }
    }

    /** What a scanning method did: one more token and its length consumed, or an error. */
    twostate predicate Scanned(r: Lexed<(Token, nat)>, ok: bool)
      reads this
    {
      && (ok <==> r.Ok?)
      && (ok ==> i == old(i) + r.value.1 && tokens == old(tokens) + [r.value.0])
    }

    method Add(k: Token)
      modifies this`tokens
      ensures tokens == old(tokens) + [k]
    {
      tokens := tokens + [k];
    }

    // ----- numbers -----

    method Number() returns (ok: bool)
      requires i < |src| && Digit(src[i])
      modifies this
      ensures Scanned(ScanNumber(t, old(src[i..]), old(AfterDot(tokens))), ok)
    {
      if tokens != [] && tokens[|tokens| - 1] == Symbol(".") {
        ok := TupleIndex();
        return;
      }
      if Peek(0) == '0' && (Peek(1) == 'x' || Peek(1) == 'X') {
        ok := Prefixed(HexSep, 16);
      } else if Peek(0) == '0' && (Peek(1) == 'b' || Peek(1) == 'B') {
        ok := Prefixed(BinarySep, 2);
      } else if Peek(0) == '0' && (Peek(1) == 'o' || Peek(1) == 'O') {
        ok := Prefixed(OctalSep, 8);
      } else {
        ok := DecimalNumber();
      }
    }

    method TupleIndex() returns (ok: bool)
      requires i < |src|
      modifies this
      ensures Scanned(ScanIndex(t, old(src[i..])), ok)
    {
      ghost var start := i;
      var digits := TakeRun(Decimal, start);
      ok := !t.alpha(Peek(0)) && Peek(0) != '_';
      if ok {
        assert src[start..][..i - start] == digits;
        Add(Int(10, digits));
      }
    }

    method Prefixed(k: CharClass, base: nat) returns (ok: bool)
      requires i + 2 <= |src|
      modifies this
      ensures Scanned(ScanPrefixed(t, old(src[i..]), k, base), ok)
    {
      ghost var start := i;
      var _ := Advance();
      var _ := Advance();
      var digits := TakeRun(k, start);
      assert src[start..][2..i - start] == digits;
      ok := digits != "" && GoodSeparators(digits) && !StickyEnd(t, Peek(0));
      if ok {
        Add(Int(base, DropSeparators(digits)));
      }
    }

    /** `e`, an optional sign and at least one digit. */
    method Exponent(ghost start: nat) returns (ok: bool, text: string)
      requires start <= i < |src|
      modifies this`i
      ensures var r := ScanExponent(t, src[start..], old(i) - start);
        && (ok <==> r.Ok?)
        && (ok ==> start <= old(i) <= i <= |src| && i - start == r.value && text == src[old(i)..i])
    {
      var c := Advance();
      text := [c];
      if Peek(0) == '+' || Peek(0) == '-' {
        c := Advance();
        text := text + [c];
      }
      ok := Digit(Peek(0));
      if ok {
        var digits := TakeRun(Decimal, start);
        text := text + digits;
      }
    }

    method FinishFloat(s: string, ghost start: nat) returns (ok: bool)
      requires start <= i <= |src| && s == src[start..i]
      modifies this`tokens
      ensures var r := ScanFloatEnd(t, src[start..], i - start);
        (ok <==> r.Ok?) && (ok ==> i - start == r.value.1 && tokens == old(tokens) + [r.value.0])
    {
      assert src[start..][..i - start] == s;
      ok := !StickyEnd(t, Peek(0)) && t.finite(DropSeparators(s));
      if ok { Add(Float(DropSeparators(s))); }
    }

    /** The rest of a float whose text so far is s, from its exponent on. */
    method Scientific(s: string, ghost start: nat) returns (ok: bool)
      requires start <= i < |src| && s == src[start..i]
      modifies this
      ensures var r := ScanScientific(t, src[start..], old(i) - start);
        (ok <==> r.Ok?) && (ok ==> i == start + r.value.1 && tokens == old(tokens) + [r.value.0])
    {
      ghost var from := i;
      var text;
      ok, text := Exponent(start);
      if !ok { return; }
      assert s + text == src[start..i];
      ok := FinishFloat(s + text, start);
    }

    /** The same, from its decimal point on. */
    method Fraction(s: string, ghost start: nat) returns (ok: bool)
      requires start <= i < |src| && s == src[start..i]
      modifies this
      ensures var r := ScanFraction(t, src[start..], old(i) - start);
        (ok <==> r.Ok?) && (ok ==> i == start + r.value.1 && tokens == old(tokens) + [r.value.0])
    {
      var dot := Advance();
      var digits := TakeRun(Decimal, start);
      var text := s + [dot] + digits;
      assert text == src[start..i];
      if IsExp(Peek(0)) {
        ok := Scientific(text, start);
      } else {
        ok := FinishFloat(text, start);
      }
    }

    method DecimalNumber() returns (ok: bool)
      requires i < |src|
      modifies this
      ensures Scanned(ScanDecimal(t, old(src[i..])), ok)
    {
      hide GoodSeparators, DropSeparators, ScanFraction, ScanScientific;
      ghost var start := i;
      var s := TakeRun(DecimalSep, start);
      assert src[start..][..i - start] == s;
      ok := GoodSeparators(s);
      if !ok { return; }
      if Peek(0) == '.' && Digit(Peek(1)) {
        ok := Fraction(s, start);
      } else if IsExp(Peek(0)) {
        ok := Scientific(s, start);
      } else {
        ok := !t.alpha(Peek(0)) && Peek(0) != '_';
        if ok { Add(Int(10, DropSeparators(s))); }
      }
    }

    // ----- characters and strings -----

    method CharLiteral() returns (ok: bool)
      requires i < |src| && src[i] == '\''
      modifies this
      ensures Scanned(ScanChar(old(src[i..])), ok)
    {
      ghost var s := src[i..];
      var c := Advance();
      assert Peek(0) == At(s, 1);
      if Peek(0) == '\0' || Peek(0) == '\n' || Peek(0) == '\'' { return false; }
      var value: int;
      if Peek(0) == '\\' {
        c := Advance();
        assert Peek(0) == At(s, 2);
        if Peek(0) == '\0' || Peek(0) == '\n' { return false; }
        var escape := Advance();
        if escape == 'x' {
          assert Peek(0) == At(s, 3) && Peek(1) == At(s, 4);
          if !HexDigit(Peek(0)) || !HexDigit(Peek(1)) { return false; }
          var high := Advance();
          var low := Advance();
          value := 16 * HexValue(high) + HexValue(low);
        } else {
          var simple := SimpleEscape(escape);
          if simple.Failed? { return false; }
          value := simple.value;
        }
      } else {
        c := Advance();
        value := c as int;
      }
      assert Peek(0) == At(s, ScanCharBody(s).value.1);
      if Peek(0) != '\'' { return false; }
      c := Advance();
      ok := value <= 255;
      if ok { Add(Char(value)); }
    }

    method StringLiteral() returns (ok: bool)
      requires i < |src| && src[i] == '"'
      modifies this
      ensures Scanned(ScanString(old(src[i..])), ok)
    {
      ghost var s, start := src[i..], i;
      var c := Advance();
      var raw := "";
      while true
        invariant start + 1 <= i <= |src| && tokens == old(tokens)
        invariant raw == src[start + 1..i]
        invariant ScanStringEnd(s, i - start) == ScanStringEnd(s, 1)
        decreases |src| - i
      {
        c := Peek(0);
        assert i < |src| ==> s[i - start] == src[i];
        if c == '\0' || c == '\n' { return false; }
        if c == '\\' {
          c := Advance();
          raw := raw + [c];
          if Peek(0) == '\0' { return false; }
          c := Advance();
          raw := raw + [c];
          continue;
        }
        if c == '"' {
          assert s[1..i - start] == raw;
          c := Advance();
          Add(Str(raw));
          return true;
        }
        c := Advance();
        raw := raw + [c];
      }
    }

    method Ident() returns (ok: bool)
      requires Valid()
      modifies this
      ensures Scanned(ScanWord(t, old(src[i..])), ok)
    {
      ghost var start := i;
      var s := TakeRun(WordChars, start);
      assert src[start..][..i - start] == s;
      Add(Word(s));
      ok := true;
    }

    method SymbolToken() returns (ok: bool)
      requires i < |src|
      modifies this
      ensures Scanned(ScanSymbol(old(src[i..])), ok)
    {
      ghost var s := src[i..];
      var c := Advance();
      assert Peek(0) == At(s, 1) && Peek(1) == At(s, 2);
      var three := [c, Peek(0), Peek(1)];
      if ThreeChar(three) {
        NulInNoSymbol(c, Peek(0), Peek(1));
        var _ := Advance();
        var _ := Advance();
        Add(Symbol(three));
        return true;
      }
      var two := [c, Peek(0)];
      if TwoChar(two) {
        NulInNoSymbol(c, Peek(0), Peek(1));
        var _ := Advance();
        Add(Symbol(two));
        return true;
      }
      ok := OneChar(c);
      if ok { Add(Symbol([c])); }
    }

    // ----- comments and the main loop -----

    /** Skips a block comment with those nested in it; false if the source ends first. */
    method BlockComment() returns (ok: bool)
      requires Sane(t) && i + 2 <= |src|
      modifies this`i
      ensures Valid()
      ensures var r := Lex(t, src[old(i) + 2..], LexState(1, tokens));
        if ok then r == Lex(t, src[i..], LexState(0, tokens)) && i > old(i) else r.Ok? && r.value.depth > 0
    {
      hide Lex;
      ghost var r := Lex(t, src[i + 2..], LexState(1, tokens));
      var _ := Advance();
      var _ := Advance();
      var depth: nat := 1;
      while depth > 0
        invariant old(i) + 2 <= i <= |src|
        invariant Lex(t, src[i..], LexState(depth, tokens)) == r
        decreases |src| - i
      {
        if i >= |src| {
          assert src[i..] == "";
          LexEnd(t, LexState(depth, tokens));
          return false;
        }
        CommentStep(t, src, i, LexState(depth, tokens));
        if Peek(0) == '/' && Peek(1) == '*' {
          var _ := Advance();
          var _ := Advance();
          depth := depth + 1;
        } else if Peek(0) == '*' && Peek(1) == '/' {
          var _ := Advance();
          var _ := Advance();
          depth := depth - 1;
        } else {
          var _ := Advance();
        }
      }
      ok := true;
    }

    method LineComment()
      requires Valid()
      modifies this`i
      ensures Valid() && i == old(i) + LineEnd(src[old(i)..])
    {
      ghost var start, n := i, LineEnd(src[i..]);
      while i < |src| && Peek(0) != '\n'
        invariant start <= i <= |src| && i + LineEnd(src[i..]) == start + n
        decreases |src| - i
      {
        assert src[i..][1..] == src[i + 1..];
        var _ := Advance();
      }
    }

    method OneToken() returns (ok: bool)
      requires i < |src|
      modifies this
      ensures Scanned(Scan(t, old(src[i..]), old(AfterDot(tokens))), ok)
    {
      var c := Peek(0);
      assert src[i..][0] == src[i];
      if c == '"' {
        ok := StringLiteral();
      } else if c == '\'' {
        ok := CharLiteral();
      } else if Digit(c) {
        ok := Number();
      } else if t.alpha(c) || c == '_' {
        ok := Ident();
      } else {
        ok := SymbolToken();
      }
    }

    /** The machine computes the specification's tokens, or fails where it fails. */
    method Run() returns (r: Lexed<seq<Token>>)
      requires Sane(t) && i == 0 && tokens == []
      modifies this
      ensures r == Tokenize(t, src)
    {
      hide Scan, Sane, LineEnd, Lex;
      assert src[0..] == src;
      ghost var whole := Lex(t, src, LexState(0, []));
      while i < |src|
        invariant Valid() && Lex(t, src[i..], LexState(0, tokens)) == whole
        decreases |src| - i
      {
        var c := Peek(0);
        ghost var s := src[i..];
        assert s[0] == src[i];
        ghost var st := LexState(0, tokens);
        if Blank(c) {
          LexBlank(t, s, st);
          assert s[1..] == src[i + 1..];
          var _ := Advance();
          continue;
        }
        if c == '/' && Peek(1) == '/' {
          LexLineComment(t, s, st);
          assert s[LineEnd(s)..] == src[i + LineEnd(s)..];
          LineComment();
          continue;
        }
        if c == '/' && Peek(1) == '*' {
          LexBlockComment(t, s, st);
          assert s[2..] == src[i + 2..];
          var closed := BlockComment();
          if !closed { return Failed; }
          continue;
        }
        ghost var scan, before := Scan(t, s, AfterDot(tokens)), i;
        LexToken(t, s, st);
        var ok := OneToken();
        if !ok { return Failed; }
        assert s[scan.value.1..] == src[before + scan.value.1..];
      }
      assert src[i..] == "";
      LexEnd(t, LexState(0, tokens));
      r := Ok(tokens);
    }
  }
}
