/** The formatter and the lexer agree: formatting changes no token. */
module TokenPreservation {
  import opened MortSyntax
  import opened Lexing
  import opened LexLocality
  import opened Formatting

  predicate AllOnOneLine(tokens: seq<Token>)
  {
    forall i | 0 <= i < |tokens| :: OnOneLine(tokens[i])
  }

  /** White space within a line. */
  predicate Spaces(t: Tables, ws: string)
  {
    forall i | 0 <= i < |ws| :: t.space(ws[i]) && ws[i] != '\n'
  }

  predicate LineTail(z: string) { z == "" || z[0] == '\n' }

  lemma {:induction false} TailOf(t: Tables, ws: string, z: string)
    requires Spaces(t, ws) && LineTail(z)
    ensures Tail(t, ws + z)
  {
    if ws == "" {
      assert ws + z == z;
    } else {
      assert (ws + z)[1..] == ws[1..] + z;
      TailOf(t, ws[1..], z);
    }
  }

  /** No token starts with white space. */
  lemma {:induction false} SpaceScansNothing(t: Tables, s: string, dot: bool)
    requires Sane(t) && s != "" && t.space(s[0])
    ensures Scan(t, s, dot).Failed?
  {
    var c := s[0];
    StopFacts(t, c);
    hide Sane;
    OperatorStart(t, c, At(s, 1), At(s, 2));
  }

  lemma {:induction false} OperatorStart(t: Tables, a: char, b: char, c: char)
    requires Sane(t) && t.space(a)
    ensures !ThreeChar([a, b, c]) && !TwoChar([a, b]) && !OneChar(a)
  {
    if a < '\U{80}' { assert t.space(a) == AsciiSpace(a); }
    assert [a, b, c][0] == a && [a, b][0] == a;
  }

  /** White space in front of anything the lexer accepts can go: in code it is blank, in a comment it
      is skipped. */
  lemma {:induction false} SkipSpaces(t: Tables, ws: string, s: string, st: LexState)
    requires Sane(t) && Spaces(t, ws) && Lex(t, ws + s, st).Ok?
    ensures Lex(t, s, st) == Lex(t, ws + s, st)
    decreases |ws|
  {
    if ws == "" {
      assert ws + s == s;
    } else {
      var all := ws + s;
      assert all[1..] == ws[1..] + s;
      StopFacts(t, ws[0]);
      SpaceScansNothing(t, all, AfterDot(st.tokens));
      SkipSpaces(t, ws[1..], s, st);
    }
  }

  lemma {:induction false} LexGrows(t: Tables, s: string, st: LexState)
    requires Sane(t) && Lex(t, s, st).Ok?
    ensures st.tokens <= Lex(t, s, st).value.tokens
    decreases |s|
  {
    hide Scan;
    if s == "" {
    } else if st.depth > 0 {
      if s[0] == '/' && At(s, 1) == '*' { LexGrows(t, s[2..], st.(depth := st.depth + 1)); }
      else if s[0] == '*' && At(s, 1) == '/' { LexGrows(t, s[2..], st.(depth := st.depth - 1)); }
      else { LexGrows(t, s[1..], st); }
    } else if Blank(s[0]) {
      LexGrows(t, s[1..], st);
    } else if s[0] == '/' && At(s, 1) == '/' {
      assert LineEnd(s) > 0;
      LexGrows(t, s[LineEnd(s)..], st);
    } else if s[0] == '/' && At(s, 1) == '*' {
      LexGrows(t, s[2..], st.(depth := 1));
    } else {
      ScanAdvances(t, s, AfterDot(st.tokens));
      var r := Scan(t, s, AfterDot(st.tokens)).value;
      LexGrows(t, s[r.1..], st.(tokens := st.tokens + [r.0]));
    }
  }

  lemma {:induction false} LineEndLocal(p: string, ws: string, z: string)
    requires '\n' !in ws && LineTail(z)
    ensures LineEnd(p + ws + z) == if '\n' in p then LineEnd(p) else |p| + |ws|
    ensures '\n' in p <==> LineEnd(p) < |p|
  {
    var s := p + ws + z;
    var n := LineEnd(s);
    if '\n' in p {
      LineEndUnique(s, LineEnd(p));
    } else {
      assert '\n' !in (p + ws);
      assert s[..|p| + |ws|] == p + ws;
      LineEndUnique(s, |p| + |ws|);
    }
  }

  lemma {:induction false} LineEndUnique(s: string, n: nat)
    requires n <= |s| && '\n' !in s[..n] && (n < |s| ==> s[n] == '\n')
    ensures LineEnd(s) == n
  {
    var m := LineEnd(s);
    assert forall j | 0 <= j < n :: s[..n][j] == s[j];
    assert forall j | 0 <= j < m :: s[..m][j] == s[j];
  }

  /** The token in front, in what is left and in what came before the cut. */
  lemma {:induction false} TokenBeforeCut(t: Tables, p: string, x: string, y: string, st: LexState)
    requires Sane(t) && Tail(t, x) && Tail(t, y) && p != "" && Scan(t, p + x, AfterDot(st.tokens)).Ok?
    requires var r := Scan(t, p + x, AfterDot(st.tokens)).value;
      0 < r.1 <= |p + x| && Lex(t, (p + x)[r.1..], st.(tokens := st.tokens + [r.0])).Ok?
      && AllOnOneLine(Lex(t, (p + x)[r.1..], st.(tokens := st.tokens + [r.0])).value.tokens)
    ensures var r := Scan(t, p + x, AfterDot(st.tokens)).value;
      0 < r.1 <= |p| && Scan(t, p + y, AfterDot(st.tokens)) == Ok(r) && (p + x)[r.1..] == p[r.1..] + x && (p + y)[r.1..] == p[r.1..] + y
  {
    hide Scan, Sane;
    var r := Scan(t, p + x, AfterDot(st.tokens)).value;
    var next := st.(tokens := st.tokens + [r.0]);
    LexGrows(t, (p + x)[r.1..], next);
    var done := Lex(t, (p + x)[r.1..], next).value.tokens;
    assert done[|st.tokens|] == r.0;
    ScanLocal(t, p, x, y, AfterDot(st.tokens));
  }

  /** Cutting a text where a line's white space begins: the lexer gets there and goes on from the
      line end. */
  lemma {:induction false} Cut(t: Tables, p: string, ws: string, z: string, st: LexState)
    requires Sane(t) && Spaces(t, ws) && LineTail(z)
    requires Lex(t, p + ws + z, st).Ok? && AllOnOneLine(Lex(t, p + ws + z, st).value.tokens)
    ensures Lex(t, p, st).Ok? && Lex(t, z, Lex(t, p, st).value) == Lex(t, p + ws + z, st)
    decreases |p|
  {
    hide Scan, Sane, AllOnOneLine, Tail, Spaces, LineTail;
    var s, x := p + ws + z, ws + z;
    assert s == p + x;
    TailOf(t, ws, z);
    if p == "" {
      assert s == ws + z;
      SkipSpaces(t, ws, z, st);
    } else {
      NoTail(t);
      SecondLocal(t, p, x, "");
      assert p + "" == p;
      if st.depth > 0 {
        if s[0] == '/' && At(s, 1) == '*' {
          CutSlice(p, ws, z, 2);
          Cut(t, p[2..], ws, z, st.(depth := st.depth + 1));
        } else if s[0] == '*' && At(s, 1) == '/' {
          CutSlice(p, ws, z, 2);
          Cut(t, p[2..], ws, z, st.(depth := st.depth - 1));
        } else {
          CutSlice(p, ws, z, 1);
          Cut(t, p[1..], ws, z, st);
        }
      } else if Blank(s[0]) {
        CutSlice(p, ws, z, 1);
        Cut(t, p[1..], ws, z, st);
      } else if s[0] == '/' && At(s, 1) == '/' {
        NoLineEnd(t, ws);
        LineEndLocal(p, ws, z);
        var n := LineEnd(s);
        assert n > 0;
        if '\n' in p {
          CutSlice(p, ws, z, n);
          Cut(t, p[n..], ws, z, st);
        } else {
          assert s[n..] == z && p[LineEnd(p)..] == "";
        }
      } else if s[0] == '/' && At(s, 1) == '*' {
        CutSlice(p, ws, z, 2);
        Cut(t, p[2..], ws, z, st.(depth := 1));
      } else {
        ScanAdvances(t, s, AfterDot(st.tokens));
        var r := Scan(t, s, AfterDot(st.tokens)).value;
        TokenBeforeCut(t, p, x, "", st);
        CutSlice(p, ws, z, r.1);
        assert (p + "")[r.1..] == p[r.1..];
        Cut(t, p[r.1..], ws, z, st.(tokens := st.tokens + [r.0]));
      }
    }
  }

  lemma {:induction false} CutSlice(p: string, ws: string, z: string, n: nat)
    requires n <= |p|
    ensures (p + ws + z)[n..] == p[n..] + ws + z
  {
  }

  lemma NoTail(t: Tables)
    ensures Tail(t, "")
  {
  }

  lemma {:induction false} NoLineEnd(t: Tables, ws: string)
    requires Spaces(t, ws)
    ensures '\n' !in ws
  {
  }

  /** The second character decides about comments alike, if a stop follows. */
  lemma {:induction false} SecondLocal(t: Tables, p: string, x: string, y: string)
    requires Sane(t) && Tail(t, x) && Tail(t, y) && p != ""
    ensures (p + x)[0] == (p + y)[0] == p[0]
    ensures At(p + x, 1) == '*' <==> At(p + y, 1) == '*'
    ensures At(p + x, 1) == '/' <==> At(p + y, 1) == '/'
    ensures At(p + x, 1) == '*' || At(p + x, 1) == '/' ==> |p| >= 2
  {
    if |p| == 1 {
      StopAt(t, p, x, 1);
      StopAt(t, p, y, 1);
      StopFacts(t, At(p + x, 1));
      StopFacts(t, At(p + y, 1));
    }
  }

  /** Pasting a line end after a text: the lexer reads the text, then the rest. */
  lemma {:induction false} Paste(t: Tables, p: string, z: string, st: LexState)
    requires Sane(t) && LineTail(z) && Lex(t, p, st).Ok? && AllOnOneLine(Lex(t, p, st).value.tokens)
    ensures Lex(t, p + z, st) == Lex(t, z, Lex(t, p, st).value)
    decreases |p|
  {
    hide Scan, Sane, AllOnOneLine, Tail;
    var s := p + z;
    assert p + "" == p;
    TailOf(t, "", z);
    assert "" + z == z;
    if p == "" {
      assert s == z;
    } else {
      assert Tail(t, "") by { TailOf(t, "", ""); assert "" + "" == ""; }
      SecondLocal(t, p, "", z);
      if st.depth > 0 {
        if s[0] == '/' && At(s, 1) == '*' {
          assert s[2..] == p[2..] + z;
          Paste(t, p[2..], z, st.(depth := st.depth + 1));
        } else if s[0] == '*' && At(s, 1) == '/' {
          assert s[2..] == p[2..] + z;
          Paste(t, p[2..], z, st.(depth := st.depth - 1));
        } else {
          assert s[1..] == p[1..] + z;
          Paste(t, p[1..], z, st);
        }
      } else if Blank(s[0]) {
        assert s[1..] == p[1..] + z;
        Paste(t, p[1..], z, st);
      } else if s[0] == '/' && At(s, 1) == '/' {
        LineEndLocal(p, "", z);
        assert p + "" + z == s;
        var n := LineEnd(s);
        assert n > 0;
        if '\n' in p {
          assert s[n..] == p[n..] + z;
          Paste(t, p[n..], z, st);
        } else {
          assert s[n..] == z && p[LineEnd(p)..] == "";
        }
      } else if s[0] == '/' && At(s, 1) == '*' {
        assert s[2..] == p[2..] + z;
        Paste(t, p[2..], z, st.(depth := 1));
      } else {
        ScanAdvances(t, p, AfterDot(st.tokens));
        var r := Scan(t, p, AfterDot(st.tokens)).value;
        TokenBeforeCut(t, p, "", z, st);
        assert s[r.1..] == p[r.1..] + z;
        assert (p + "")[r.1..] == p[r.1..];
        Paste(t, p[r.1..], z, st.(tokens := st.tokens + [r.0]));
      }
    }
  }

  lemma {:induction false} NewLine(t: Tables, s: string, st: LexState)
    requires Sane(t)
    ensures Lex(t, "\n" + s, st) == Lex(t, s, st)
  {
    assert ("\n" + s)[1..] == s;
  }

  lemma {:induction false} Indented(t: Tables, n: nat, s: string, st: LexState)
    requires Sane(t)
    ensures Lex(t, Indent(n) + s, st) == Lex(t, s, st)
  {
    hide Sane, Lex;
    if n == 0 {
      assert "" + s == s;
    } else {
      var rest := Indent(n - 1) + s;
      assert Indent(n) + s == "    " + rest;
      FourBlanks(t, rest, st);
      Indented(t, n - 1, s, st);
    }
  }

  lemma {:induction false} FourBlanks(t: Tables, s: string, st: LexState)
    requires Sane(t)
    ensures Lex(t, "    " + s, st) == Lex(t, s, st)
  {
    hide Sane, Lex;
    var one := " " + s;
    var two := " " + one;
    var three := " " + two;
    OneBlank(t, s, st);
    OneBlank(t, one, st);
    OneBlank(t, two, st);
    OneBlank(t, three, st);
    assert "    " + s == " " + three;
  }

  lemma {:induction false} OneBlank(t: Tables, s: string, st: LexState)
    requires Sane(t)
    ensures Lex(t, " " + s, st) == Lex(t, s, st)
  {
    assert (" " + s)[1..] == s;
  }

  // ----- line by line -----

  /** Every line break is "\n" or "\r\n". */
  predicate OnlyLineFeeds(s: string)
  {
    forall j | 0 <= j < |s| && IsBreak(s[j]) :: s[j] == '\n' || (s[j] == '\r' && At(s, j + 1) == '\n')
  }

  /** The white space around a line's text. */
  lemma {:induction false} StripParts(t: Tables, raw: string) returns (lead: string, trail: string)
    requires NoBreaks(raw)
    ensures raw == lead + Strip(t, raw) + trail && Spaces(t, lead) && Spaces(t, trail)
  {
    var left := StripLeft(t, raw);
    StripLeftIs(t, raw);
    StripRightIs(t, left);
    lead := raw[..|raw| - |left|];
    trail := left[|Strip(t, raw)|..];
  }

  /** Reading one raw line is reading its stripped text; `cr` is the carriage return of "\r\n". */
  lemma {:induction false} LineReads(t: Tables, raw: string, cr: string, z: string, st: LexState)
    requires Sane(t) && NoBreaks(raw) && Spaces(t, cr) && LineTail(z)
    requires Lex(t, raw + cr + z, st).Ok? && AllOnOneLine(Lex(t, raw + cr + z, st).value.tokens)
    ensures Lex(t, Strip(t, raw), st).Ok? && Lex(t, z, Lex(t, Strip(t, raw), st).value) == Lex(t, raw + cr + z, st)
  {
    hide Sane, AllOnOneLine, Lex, Strip;
    var lead, trail := StripParts(t, raw);
    var text := Strip(t, raw);
    var ws := trail + cr;
    assert raw + cr + z == lead + (text + ws + z);
    SkipSpaces(t, lead, text + ws + z, st);
    Cut(t, text, ws, z, st);
  }

  /** Writing a formatted line and going on. */
  lemma {:induction false} LineWrites(t: Tables, raw: string, q: Layouter, rest: string, st: LexState)
    requires Sane(t) && Lex(t, Strip(t, raw), st).Ok? && AllOnOneLine(Lex(t, Strip(t, raw), st).value.tokens)
    ensures Lex(t, Unlines(FormatLine(t, raw, q).0) + rest, st) == Lex(t, rest, Lex(t, Strip(t, raw), st).value)
  {
    hide Sane, AllOnOneLine, Strip, LeadingCloses, Braces;
    var text := Strip(t, raw);
    var out := FormatLine(t, raw, q).0;
    if text == "" {
      if out == [] {
        assert "" + rest == rest;
      } else {
        assert out[1..] == [] && Unlines(out) == "" + "\n" + "";
        assert Unlines(out) + rest == "\n" + rest;
        NewLine(t, rest, st);
      }
    } else {
      var leading := if q.block > 0 then 0 else LeadingCloses(t, text);
      var n := Clamp(q.depth - leading);
      assert out[1..] == [] && Unlines(out) == Indent(n) + text + "\n" + "";
      assert Unlines(out) + rest == Indent(n) + (text + ("\n" + rest));
      Indented(t, n, text + ("\n" + rest), st);
      Paste(t, text, "\n" + rest, st);
      NewLine(t, rest, Lex(t, text, st).value);
    }
  }

  lemma {:induction false} UnlinesAppend(a: seq<string>, b: seq<string>)
    ensures Unlines(a + b) == Unlines(a) + Unlines(b)
  {
    if a == [] {
      assert a + b == b;
    } else {
      assert (a + b)[1..] == a[1..] + b;
      UnlinesAppend(a[1..], b);
    }
  }

  lemma {:induction false} PrefixOnOneLine(a: seq<Token>, b: seq<Token>)
    requires a <= b && AllOnOneLine(b)
    ensures AllOnOneLine(a)
  {
  }

  lemma {:induction false} RestOnlyLineFeeds(s: string, n: nat)
    requires OnlyLineFeeds(s) && n <= |s|
    ensures OnlyLineFeeds(s[n..])
  {
  }

  /** The first line of a text, the carriage return of its line end, and the rest. */
  lemma {:induction false} SplitText(s: string) returns (raw: string, cr: string, rest: string)
    requires OnlyLineFeeds(s) && s != ""
    ensures var n := BreakAt(s);
      && raw == s[..n] && rest == (if n < |s| then s[n + BreakLength(s, n)..] else "")
      && s == (if n < |s| then raw + cr + "\n" + rest else raw) && (n == |s| ==> cr == "" && rest == "")
    ensures NoBreaks(raw) && (cr == "" || cr == "\r") && |rest| < |s| && rest == s[|s| - |rest|..]
    ensures SplitLines(s) == [raw] + SplitLines(rest)
  {
    hide NoBreaks, SplitLines;
    var n := BreakAt(s);
    var len := if n < |s| then BreakLength(s, n) else 0;
    raw, cr, rest := s[..n], if len == 2 then "\r" else "", if n < |s| then s[n + len..] else "";
    RawHasNoBreaks(s);
    SplitStep(s, n, len, raw, rest);
    if n < |s| {
      assert s[n + len - 1] == '\n';
      assert cr == s[n..n + len - 1];
      assert s == s[..n] + s[n..n + len - 1] + [s[n + len - 1]] + s[n + len..];
    }
  }

  /** Formatting the rest of a text, from any state of both machines, keeps its tokens. */
  lemma {:induction false} LayoutKeepsTokens(t: Tables, s: string, q: Layouter, st: LexState)
    requires Sane(t) && OnlyLineFeeds(s) && Lex(t, s, st).Ok? && AllOnOneLine(Lex(t, s, st).value.tokens)
    ensures Lex(t, Unlines(Layout(t, SplitLines(s), q)), st) == Lex(t, s, st)
    decreases |s|
  {
    hide Sane, AllOnOneLine, Lex, FormatLine, Strip, NoBreaks, OnlyLineFeeds, SplitLines, Spaces, Unlines, Layout;
    if s == "" {
      NoLines();
      NothingLaidOut(t, q);
    } else {
      var raw, cr, rest := SplitText(s);
      var z := if BreakAt(s) < |s| then "\n" + rest else "";
      ReturnIsSpace(t);
      assert s == raw + cr + z;
      LineReads(t, raw, cr, z, st);
      var st1 := Lex(t, Strip(t, raw), st).value;
      LexGrows(t, z, st1);
      PrefixOnOneLine(st1.tokens, Lex(t, s, st).value.tokens);
      var (out, q1) := FormatLine(t, raw, q);
      if BreakAt(s) < |s| { NewLine(t, rest, st1); }
      RestOnlyLineFeeds(s, |s| - |rest|);
      LayoutKeepsTokens(t, rest, q1, st1);
      var more := Layout(t, SplitLines(rest), q1);
      LayoutStep(t, raw, SplitLines(rest), q);
      UnlinesAppend(out, more);
      LineWrites(t, raw, q, Unlines(more), st);
    }
  }

  lemma NothingLaidOut(t: Tables, q: Layouter)
    ensures Unlines(Layout(t, [], q)) == ""
  {
  }

  lemma {:induction false} RawHasNoBreaks(s: string)
    ensures NoBreaks(s[..BreakAt(s)])
  {
  }

  lemma {:induction false} ReturnIsSpace(t: Tables)
    requires Sane(t)
    ensures Spaces(t, "\r") && Spaces(t, "")
  {
    assert t.space('\r') == AsciiSpace('\r');
  }

  lemma {:induction false} SplitStep(s: string, n: nat, len: nat, raw: string, rest: string)
    requires s != "" && n == BreakAt(s) && raw == s[..n]
    requires if n < |s| then len == BreakLength(s, n) && rest == s[n + len..] else rest == ""
    ensures SplitLines(s) == [raw] + SplitLines(rest)
  {
    if n == |s| { assert raw == s; }
  }

  lemma {:induction false} LayoutStep(t: Tables, raw: string, lines: seq<string>, q: Layouter)
    ensures Layout(t, [raw] + lines, q) == FormatLine(t, raw, q).0 + Layout(t, lines, FormatLine(t, raw, q).1)
  {
    assert ([raw] + lines)[1..] == lines;
  }

  /** Trailing blank lines hold no tokens. */
  lemma {:induction false} BlankEndKeepsTokens(t: Tables, lines: seq<string>, st: LexState)
    requires Sane(t) && Lex(t, Unlines(lines), st).Ok? && AllOnOneLine(Lex(t, Unlines(lines), st).value.tokens)
    ensures Lex(t, Unlines(DropBlankEnd(lines)), st) == Lex(t, Unlines(lines), st)
  {
    hide Sane, AllOnOneLine, Lex;
    if lines != [] && lines[|lines| - 1] == "" {
      var front := lines[..|lines| - 1];
      assert lines == front + [""];
      UnlinesAppend(front, [""]);
      assert [""][1..] == [] && Unlines([""]) == "" + "\n" + "";
      assert Unlines(lines) == Unlines(front) + "" + "\n";
      assert Spaces(t, "");
      Cut(t, Unlines(front), "", "\n", st);
      assert "\n" + "" == "\n";
      NewLine(t, "", Lex(t, Unlines(front), st).value);
      LexEnd(t, Lex(t, Unlines(front), st).value);
      BlankEndKeepsTokens(t, front, st);
    }
  }

  /** For every lexable source whose line breaks are "\n" or "\r\n" and whose strings do not run across
      lines: the formatted text has the same tokens, in order, with the same values. */
  lemma {:induction false} FormatKeepsTokens(t: Tables, source: string)
    requires Sane(t) && OnlyLineFeeds(source)
    requires Tokenize(t, source).Ok? && AllOnOneLine(Tokenize(t, source).value)
    ensures Tokenize(t, Format(t, source)) == Tokenize(t, source)
  {
    hide Sane, AllOnOneLine, Lex;
    var st := LexState(0, []);
    LayoutKeepsTokens(t, source, START, st);
    var all := Layout(t, SplitLines(source), START);
    BlankEndKeepsTokens(t, all, st);
    if DropBlankEnd(all) == [] {
      assert "\n" + "" == "\n";
      NewLine(t, "", st);
    }
  }
}
