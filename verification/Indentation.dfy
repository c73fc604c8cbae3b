/** What formatted text looks like, told by the lexer: how far every line is indented, where blank lines
    stand, and that nothing but white space has changed. */
module Indentation {
  import opened MortSyntax
  import opened Lexing
  import opened LexLocality
  import opened Formatting
  import opened TokenPreservation
  import opened BraceAgreement

  // ----- the indentation of a line -----

  /** How many braces are open after these tokens. */
  function Open(tokens: seq<Token>): int { Count(tokens, "{") - Count(tokens, "}") }

  /** No closing brace without an open one. */
  predicate Balanced(tokens: seq<Token>)
  {
    forall n | 0 <= n <= |tokens| :: Open(tokens[..n]) >= 0
  }

  function CountChar(s: string, c: char): nat
  {
    if s == "" then 0 else (if s[0] == c then 1 else 0) + CountChar(s[1..], c)
  }

  /** n closing braces, with nothing but white space among them, start the text. */
  ghost predicate StartsWithClosers(t: Tables, text: string, n: nat)
  {
    exists k: nat :: ClosersUpTo(t, text, k) && CountChar(text[..k], '}') == n
  }

  predicate ClosersUpTo(t: Tables, text: string, k: nat)
  {
    && k <= |text| && (forall j | 0 <= j < k :: text[j] == '}' || t.space(text[j]))
    && (k < |text| ==> text[k] != '}' && !t.space(text[k]))
  }

  /** Text behind this many blanks, with no white space of its own at either end. */
  predicate IndentedBy(t: Tables, line: string, blanks: int, text: string)
  {
    && 0 <= blanks && |line| == blanks + |text| && (forall j | 0 <= j < blanks :: line[j] == ' ') && line[blanks..] == text
    && text != "" && !t.space(text[0]) && !t.space(text[|text| - 1])
  }

  /** Read from the state st, the line is indented by four blanks for every open brace, less the closing
      braces it starts with; a line that starts in a comment starts with none. */
  ghost predicate Laid(t: Tables, line: string, st: LexState)
  {
    exists text, n: nat :: LaidAs(t, line, st, text, n)
  }

  ghost predicate LaidAs(t: Tables, line: string, st: LexState, text: string, n: nat)
  {
    && IndentedBy(t, line, 4 * (Open(st.tokens) - n), text)
    && (if st.depth > 0 then n == 0 else StartsWithClosers(t, text, n))
  }

  lemma {:induction false} ClosersAre(t: Tables, text: string)
    requires !t.space('}')
    ensures StartsWithClosers(t, text, LeadingCloses(t, text))
  {
    if text != "" && (text[0] == '}' || t.space(text[0])) {
      ClosersAre(t, text[1..]);
      var k: nat :| ClosersUpTo(t, text[1..], k) && CountChar(text[1..][..k], '}') == LeadingCloses(t, text[1..]);
      forall j | 0 <= j < k + 1 ensures text[j] == '}' || t.space(text[j]) { if j > 0 { assert text[1..][j - 1] == text[j]; } }
      assert text[..k + 1][1..] == text[1..][..k];
      assert ClosersUpTo(t, text, k + 1);
    } else {
      assert ClosersUpTo(t, text, 0) && CountChar(text[..0], '}') == 0;
    }
  }

  lemma {:induction false} IndentIs(n: nat)
    ensures |Indent(n)| == 4 * n && forall j | 0 <= j < |Indent(n)| :: Indent(n)[j] == ' '
  {
    if n > 0 { IndentIs(n - 1); }
  }

  function Repeat(k: Token, n: nat): seq<Token> { if n == 0 then [] else [k] + Repeat(k, n - 1) }

  lemma {:induction false} CountRepeat(tokens: seq<Token>, n: nat)
    ensures Open(tokens + Repeat(Symbol("}"), n)) == Open(tokens) - n
    decreases n
  {
    if n == 0 {
      assert tokens + [] == tokens;
    } else {
      assert tokens + Repeat(Symbol("}"), n) == (tokens + [Symbol("}")]) + Repeat(Symbol("}"), n - 1);
      CountAppend(tokens, Symbol("}"), "{");
      CountAppend(tokens, Symbol("}"), "}");
      assert "{"[0] != "}"[0];
      CountRepeat(tokens + [Symbol("}")], n - 1);
    }
  }

  /** The closing braces a line starts with are its first tokens. */
  lemma {:induction false} ClosersAreTokens(t: Tables, text: string, st: LexState)
    requires Sane(t) && st.depth == 0 && Lex(t, text, st).Ok?
    ensures st.tokens + Repeat(Symbol("}"), LeadingCloses(t, text)) <= Lex(t, text, st).value.tokens
    decreases |text|
  {
    hide Sane, Lex;
    LexGrows(t, text, st);
    if text != "" && text[0] == '}' {
      CloserToken(t, text, st);
      var st1 := LexState(0, st.tokens + [Symbol("}")]);
      ClosersAreTokens(t, text[1..], st1);
      var n := LeadingCloses(t, text[1..]);
      assert st.tokens + Repeat(Symbol("}"), n + 1) == st1.tokens + Repeat(Symbol("}"), n);
    } else if text != "" && t.space(text[0]) {
      SpaceIsBlank(t, text, st);
      LexBlank(t, text, st);
      ClosersAreTokens(t, text[1..], st);
    } else {
      assert st.tokens + [] == st.tokens;
    }
  }

  lemma {:induction false} CloserToken(t: Tables, text: string, st: LexState)
    requires Sane(t) && st.depth == 0 && text != "" && text[0] == '}'
    ensures Lex(t, text, st) == Lex(t, text[1..], LexState(0, st.tokens + [Symbol("}")]))
  {
    LexToken(t, text, st);
    assert !t.alpha('}');
    hide Lex, Sane;
    assert Scan(t, text, AfterDot(st.tokens)) == ScanSymbol(text);
    NoBraceOperator(text[0], At(text, 1), At(text, 2));
    hide Scan;
    assert ScanSymbol(text) == Ok((Symbol([text[0]]), 1));
    assert [text[0]] == "}";
  }

  lemma {:induction false} NoBraceOperator(a: char, b: char, c: char)
    requires a == '}'
    ensures !ThreeChar([a, b, c]) && !TwoChar([a, b]) && OneChar(a)
  {
    assert [a, b, c][0] == a && [a, b][0] == a;
  }

  lemma {:induction false} SpaceIsBlank(t: Tables, text: string, st: LexState)
    requires Sane(t) && st.depth == 0 && text != "" && t.space(text[0]) && Lex(t, text, st).Ok?
    ensures Blank(text[0])
  {
    hide Scan;
    SpaceScansNothing(t, text, AfterDot(st.tokens));
    StopFacts(t, text[0]);
  }

  // ----- one line -----

  /** Both machines agree on where they are. */
  predicate InStep(q: Layouter, st: LexState) { q.depth == Open(st.tokens) && q.block == st.depth }

  lemma {:induction false} StripEnds(t: Tables, raw: string)
    requires Strip(t, raw) != ""
    ensures var text := Strip(t, raw); !t.space(text[0]) && !t.space(text[|text| - 1])
  {
    StripLeftIs(t, raw);
    StripRightIs(t, StripLeft(t, raw));
  }

  lemma {:induction false} LeadingIsOpen(t: Tables, text: string, st: LexState)
    requires Sane(t) && st.depth == 0 && Lex(t, text, st).Ok? && Balanced(Lex(t, text, st).value.tokens)
    ensures LeadingCloses(t, text) <= Open(st.tokens)
  {
    var n := LeadingCloses(t, text);
    ClosersAreTokens(t, text, st);
    var all, some := Lex(t, text, st).value.tokens, st.tokens + Repeat(Symbol("}"), n);
    assert all[..|some|] == some;
    CountRepeat(st.tokens, n);
  }

  lemma {:induction false} LineIsLaid(t: Tables, raw: string, q: Layouter, st: LexState)
    requires Sane(t) && InStep(q, st) && NoBreaks(raw) && Strip(t, raw) != ""
    requires Lex(t, Strip(t, raw), st).Ok? && Balanced(Lex(t, Strip(t, raw), st).value.tokens)
    ensures var (out, q1) := FormatLine(t, raw, q); var st1 := Lex(t, Strip(t, raw), st);
      |out| == 1 && Lex(t, out[0], st) == st1 && Laid(t, out[0], st) && InStep(q1, st1.value)
  {
    hide Sane, Lex, Strip, LeadingCloses, Braces, NoBreaks, Balanced, Laid, Open, FormatLine, Indent;
    var text := Strip(t, raw);
    TextHasNoBreaks(t, raw);
    DepthFollows(t, text, q, st);
    var m, n := LineDepth(t, text, q, st);
    FormattedLine(t, raw, q);
    Indented(t, m, text, st);
    TextIsLaid(t, raw, st, m, n);
  }

  lemma {:induction false} FormattedLine(t: Tables, raw: string, q: Layouter)
    requires Strip(t, raw) != ""
    ensures var text := Strip(t, raw);
      var b := Braces(text, q.block);
      FormatLine(t, raw, q) == ([Indent(Clamp(q.depth - (if q.block > 0 then 0 else LeadingCloses(t, text)))) + text],
        Layouter(Clamp(q.depth + b.opens - b.closes), b.block, true, false))
  {
    hide Strip, Braces, LeadingCloses;
  }

  lemma {:induction false} LineDepth(t: Tables, text: string, q: Layouter, st: LexState) returns (m: nat, n: nat)
    requires Sane(t) && InStep(q, st) && Lex(t, text, st).Ok? && Balanced(Lex(t, text, st).value.tokens)
    ensures n == if q.block > 0 then 0 else LeadingCloses(t, text)
    ensures m == Clamp(q.depth - n) && m + n == Open(st.tokens)
  {
    n := if st.depth > 0 then 0 else LeadingCloses(t, text);
    if st.depth == 0 { LeadingIsOpen(t, text, st); }
    m := q.depth - n;
  }

  lemma {:induction false} DepthFollows(t: Tables, text: string, q: Layouter, st: LexState)
    requires Sane(t) && InStep(q, st) && '\n' !in text
    requires Lex(t, text, st).Ok? && Balanced(Lex(t, text, st).value.tokens)
    ensures var b := Braces(text, q.block); var st1 := Lex(t, text, st).value;
      b.block == st1.depth && Clamp(q.depth + b.opens - b.closes) == Open(st1.tokens)
  {
    var st1 := Lex(t, text, st).value;
    BracesAreTokens(t, text, st);
    assert st1.tokens[..|st1.tokens|] == st1.tokens;
  }

  lemma {:induction false} TextHasNoBreaks(t: Tables, raw: string)
    requires NoBreaks(raw)
    ensures '\n' !in Strip(t, raw)
  {
    StripLeftIs(t, raw);
    StripRightIs(t, StripLeft(t, raw));
  }

  lemma {:induction false} TextIsLaid(t: Tables, raw: string, st: LexState, m: nat, n: nat)
    requires Sane(t) && Strip(t, raw) != "" && m + n == Open(st.tokens)
    requires n == if st.depth > 0 then 0 else LeadingCloses(t, Strip(t, raw))
    ensures Laid(t, Indent(m) + Strip(t, raw), st)
  {
    var text := Strip(t, raw);
    StripEnds(t, raw);
    IndentIs(m);
    assert !t.space('}');
    ClosersAre(t, text);
    hide Sane, Strip, StartsWithClosers;
    var line := Indent(m) + text;
    assert line[|Indent(m)|..] == text;
    assert IndentedBy(t, line, 4 * (Open(st.tokens) - n), text);
    assert LaidAs(t, line, st, text, n);
  }

  // ----- all lines -----

  ghost predicate WellLaid(t: Tables, lines: seq<string>, st: LexState)
    requires Sane(t)
  {
    lines == [] ||
    var r := Lex(t, lines[0], st);
    r.Ok? && AllOnOneLine(r.value.tokens) && (lines[0] != "" ==> Laid(t, lines[0], st)) && WellLaid(t, lines[1..], r.value)
  }

  lemma {:induction false} PrefixBalanced(a: seq<Token>, b: seq<Token>)
    requires a <= b && Balanced(b)
    ensures Balanced(a)
  {
    forall n | 0 <= n <= |a| ensures Open(a[..n]) >= 0 { assert a[..n] == b[..n]; }
  }

  lemma {:induction false} LayoutIsWellLaid(t: Tables, s: string, q: Layouter, st: LexState)
    requires Sane(t) && OnlyLineFeeds(s) && InStep(q, st) && Lex(t, s, st).Ok?
    requires AllOnOneLine(Lex(t, s, st).value.tokens) && Balanced(Lex(t, s, st).value.tokens)
    ensures WellLaid(t, Layout(t, SplitLines(s), q), st)
    decreases |s|
  {
    hide Sane, AllOnOneLine, Lex, FormatLine, Strip, NoBreaks, OnlyLineFeeds, SplitLines, Spaces, Layout, Balanced, InStep, WellLaid;
    if s == "" {
      NoLines();
      NothingLaid(t, q, st);
    } else {
      var raw, cr, rest := SplitText(s);
      FirstLineRead(t, s, raw, cr, rest, st);
      var st1 := Lex(t, Strip(t, raw), st).value;
      RestOnlyLineFeeds(s, |s| - |rest|);
      LayoutStep(t, raw, SplitLines(rest), q);
      var q1 := FormatLine(t, raw, q).1;
      LineIsWellLaid(t, raw, q, st, Layout(t, SplitLines(rest), q1));
      LayoutIsWellLaid(t, rest, q1, st1);
    }
  }

  /** Reading on behind the first line. */
  lemma {:induction false} FirstLineRead(t: Tables, s: string, raw: string, cr: string, rest: string, st: LexState)
    requires Sane(t) && Lex(t, s, st).Ok? && NoBreaks(raw) && (cr == "" || cr == "\r")
    requires s == (if BreakAt(s) < |s| then raw + cr + "\n" + rest else raw) && (BreakAt(s) == |s| ==> cr == "" && rest == "")
    requires AllOnOneLine(Lex(t, s, st).value.tokens) && Balanced(Lex(t, s, st).value.tokens)
    ensures var r := Lex(t, Strip(t, raw), st);
      && r.Ok? && AllOnOneLine(r.value.tokens) && Balanced(r.value.tokens) && Lex(t, rest, r.value) == Lex(t, s, st)
  {
    hide Sane, AllOnOneLine, Lex, Strip, NoBreaks, Spaces, Balanced, BreakAt;
    var z := if BreakAt(s) < |s| then "\n" + rest else "";
    ReturnIsSpace(t);
    assert s == raw + cr + z;
    LineReads(t, raw, cr, z, st);
    var st1 := Lex(t, Strip(t, raw), st).value;
    LexGrows(t, z, st1);
    PrefixOnOneLine(st1.tokens, Lex(t, s, st).value.tokens);
    PrefixBalanced(st1.tokens, Lex(t, s, st).value.tokens);
    if BreakAt(s) < |s| { NewLine(t, rest, st1); }
  }

  lemma NothingLaid(t: Tables, q: Layouter, st: LexState)
    requires Sane(t)
    ensures WellLaid(t, Layout(t, [], q), st)
  {
  }

  lemma {:induction false} LineIsWellLaid(t: Tables, raw: string, q: Layouter, st: LexState, more: seq<string>)
    requires Sane(t) && InStep(q, st) && NoBreaks(raw) && Lex(t, Strip(t, raw), st).Ok?
    requires var toks := Lex(t, Strip(t, raw), st).value.tokens; AllOnOneLine(toks) && Balanced(toks)
    ensures var st1 := Lex(t, Strip(t, raw), st).value; var (out, q1) := FormatLine(t, raw, q);
      InStep(q1, st1) && (WellLaid(t, more, st1) ==> WellLaid(t, out + more, st))
  {
    hide Sane, AllOnOneLine, Lex, Balanced, Laid, NoBreaks;
    var (out, q1) := FormatLine(t, raw, q);
    if Strip(t, raw) == "" {
      LexEnd(t, st);
      if out != [] {
        assert out == [""];
        assert (out + more)[1..] == more;
      } else {
        assert out + more == more;
      }
    } else {
      LineIsLaid(t, raw, q, st);
      assert (out + more)[1..] == more && (out + more)[0] == out[0];
    }
  }

  /** Where reading the lines from the first on leads. */
  lemma {:induction false} LineByLine(t: Tables, lines: seq<string>, st: LexState, i: nat)
    requires Sane(t) && WellLaid(t, lines, st) && i < |lines|
    ensures var r := Lex(t, Unlines(lines[..i]), st); r.Ok? && (lines[i] != "" ==> Laid(t, lines[i], r.value))
    decreases i
  {
    hide Sane, Lex, AllOnOneLine, Laid;
    if i == 0 {
      LexEnd(t, st);
    } else {
      var first, more := lines[0], Unlines(lines[1..][..i - 1]);
      assert lines[..i][1..] == lines[1..][..i - 1];
      assert Unlines(lines[..i]) == first + "\n" + more == first + ("\n" + more);
      Paste(t, first, "\n" + more, st);
      NewLine(t, more, Lex(t, first, st).value);
      LineByLine(t, lines[1..], Lex(t, first, st).value, i - 1);
    }
  }

  /** The layout theorem: in the formatted text of a lexable source with plain line ends, no string across
      lines, and no closing brace without an open one, every line that is not blank is indented by four
      blanks for each brace that is open before it, less the closing braces it starts with. */
  lemma {:induction false} FormatIndents(t: Tables, source: string, i: nat)
    requires Sane(t) && OnlyLineFeeds(source) && Tokenize(t, source).Ok?
    requires AllOnOneLine(Tokenize(t, source).value) && Balanced(Tokenize(t, source).value)
    requires i < |OutputLines(t, source)|
    ensures var lines := OutputLines(t, source); var r := Lex(t, Unlines(lines[..i]), LexState(0, []));
      r.Ok? && (lines[i] != "" ==> Laid(t, lines[i], r.value))
  {
    hide Sane, Lex, Laid, AllOnOneLine, Balanced, Layout;
    var st := LexState(0, []);
    assert InStep(START, st);
    LayoutIsWellLaid(t, source, START, st);
    var all := Layout(t, SplitLines(source), START);
    DropBlankEndIs(all);
    var lines := DropBlankEnd(all);
    assert lines[..i] == all[..i] && lines[i] == all[i];
    LineByLine(t, all, st, i);
  }

  // ----- blank lines -----

  /** The lines that are not blank, each with whether a blank line stands between it and the one before. */
  function Marks(lines: seq<string>, started: bool, gap: bool): seq<(string, bool)>
  {
    if lines == [] then []
    else if lines[0] == "" then Marks(lines[1..], started, started)
    else [(lines[0], gap)] + Marks(lines[1..], true, false)
  }

  function Stripped(t: Tables, lines: seq<string>): (r: seq<string>)
    ensures |r| == |lines|
  {
    seq(|lines|, i requires 0 <= i < |lines| => Strip(t, lines[i]))
  }

  lemma {:induction false} StrippedParts(t: Tables, a: seq<string>, b: seq<string>)
    ensures Stripped(t, a + b) == Stripped(t, a) + Stripped(t, b)
  {
  }

  lemma {:induction false} MarksCons(x: string, more: seq<string>, started: bool, gap: bool)
    ensures Marks([x] + more, started, gap) ==
      if x == "" then Marks(more, started, started) else [(x, gap)] + Marks(more, true, false)
  {
    assert ([x] + more)[1..] == more;
  }

  lemma {:induction false} MarksKept(t: Tables, lines: seq<string>, q: Layouter)
    requires t.space(' ')
    ensures var gap := q.started && q.blank;
      Marks(Stripped(t, Layout(t, lines, q)), q.started, gap) == Marks(Stripped(t, lines), q.started, gap)
    decreases lines
  {
    hide Strip, Marks;
    var gap := q.started && q.blank;
    if lines == [] {
      assert Layout(t, lines, q) == [];
    } else {
      var (out, q1) := FormatLine(t, lines[0], q);
      var text := Strip(t, lines[0]);
      var more := Layout(t, lines[1..], q1);
      assert lines == [lines[0]] + lines[1..];
      StrippedParts(t, [lines[0]], lines[1..]);
      StrippedParts(t, out, more);
      assert Stripped(t, [lines[0]]) == [text];
      MarksCons(text, Stripped(t, lines[1..]), q.started, gap);
      MarksKept(t, lines[1..], q1);
      OutputStrips(t, lines[0], q);
      if out == [] {
        assert Stripped(t, out) + Stripped(t, more) == Stripped(t, more);
      } else {
        assert Stripped(t, out) == [text];
        MarksCons(text, Stripped(t, more), q.started, gap);
      }
    }
  }

  /** A line that is written is the line that was read, but for the white space around it. */
  lemma {:induction false} OutputStrips(t: Tables, raw: string, q: Layouter)
    requires t.space(' ')
    ensures var out := FormatLine(t, raw, q).0; out == [] || (|out| == 1 && Strip(t, out[0]) == Strip(t, raw))
    ensures FormatLine(t, raw, q).0 == [] ==> Strip(t, raw) == ""
  {
    hide Braces, LeadingCloses;
    if Strip(t, raw) != "" {
      StripOfIndented(t, raw, Clamp(q.depth - (if q.block > 0 then 0 else LeadingCloses(t, Strip(t, raw)))));
    }
  }

  /** No blank line follows a blank line, nor starts the list unless that is allowed. */
  predicate Spaced(lines: seq<string>, mayStart: bool)
  {
    lines == [] || ((lines[0] == "" ==> mayStart) && Spaced(lines[1..], lines[0] != ""))
  }

  lemma {:induction false} LayoutIsSpaced(t: Tables, lines: seq<string>, q: Layouter)
    ensures Spaced(Layout(t, lines, q), q.started && !q.blank)
  {
    hide Strip, Braces, LeadingCloses;
    if lines != [] {
      var (out, q1) := FormatLine(t, lines[0], q);
      var more := Layout(t, lines[1..], q1);
      LayoutIsSpaced(t, lines[1..], q1);
      if out == [] {
        assert out + more == more;
      } else {
        assert (out + more)[1..] == more && (out + more)[0] == out[0];
      }
    }
  }

  lemma {:induction false} SpacedAt(lines: seq<string>, mayStart: bool, i: nat)
    requires Spaced(lines, mayStart) && i < |lines| && lines[i] == ""
    ensures i == 0 ==> mayStart
    ensures i > 0 ==> lines[i - 1] != ""
  {
    if i > 0 { SpacedAt(lines[1..], lines[0] != "", i - 1); }
  }

  lemma {:induction false} MarksOfEnd(lines: seq<string>, started: bool, gap: bool)
    ensures Marks(lines + [""], started, gap) == Marks(lines, started, gap)
  {
    if lines == [] {
      assert lines + [""] == [""];
    } else {
      assert (lines + [""])[1..] == lines[1..] + [""];
      MarksOfEnd(lines[1..], if lines[0] == "" then started else true, if lines[0] == "" then started else false);
    }
  }

  lemma {:induction false} MarksOfKept(t: Tables, lines: seq<string>)
    ensures Marks(Stripped(t, DropBlankEnd(lines)), false, false) == Marks(Stripped(t, lines), false, false)
    ensures DropBlankEnd(lines) == [] || DropBlankEnd(lines)[|DropBlankEnd(lines)| - 1] != ""
    decreases lines
  {
    if lines != [] && lines[|lines| - 1] == "" {
      var front := lines[..|lines| - 1];
      assert lines == front + [""];
      StrippedParts(t, front, [""]);
      assert Stripped(t, [""]) == [""];
      MarksOfEnd(Stripped(t, front), false, false);
      MarksOfKept(t, front);
    }
  }

  /** Whatever the source: formatting keeps the text of every line that is not blank, in order, keeps a
      blank line between two of them exactly where there was at least one, never has two in a row and
      none at either end, and ends every line with one line feed. */
  lemma {:induction false} FormatKeepsText(t: Tables, source: string)
    requires t.space(' ')
    ensures var lines := OutputLines(t, source);
      && Format(t, source) == (if lines == [] then "\n" else Unlines(lines))
      && Marks(Stripped(t, lines), false, false) == Marks(Stripped(t, SplitLines(source)), false, false)
      && (lines != [] ==> lines[0] != "" && lines[|lines| - 1] != "")
      && forall i | 0 < i < |lines| && lines[i] == "" :: lines[i - 1] != ""
  {
    hide Strip, Marks;
    var all := Layout(t, SplitLines(source), START);
    var lines := DropBlankEnd(all);
    MarksKept(t, SplitLines(source), START);
    MarksOfKept(t, all);
    DropBlankEndIs(all);
    LayoutIsSpaced(t, SplitLines(source), START);
    forall i: nat | i < |lines| && lines[i] == "" ensures i > 0 && lines[i - 1] != "" { SpacedAt(all, false, i); }
  }

  // ----- lines -----

  /** The line boundaries of Python's strings: line feed, vertical tab, form feed, carriage return, the
      file, group and record separators, next line, and the line and paragraph separators. */
  const BREAKS: string := "\n\U{0b}\U{0c}\r\U{1c}\U{1d}\U{1e}\U{85}\U{2028}\U{2029}"

  lemma {:induction false} BreaksAre(c: char)
    ensures IsBreak(c) <==> c in BREAKS
  {
  }

  lemma {:induction false} SpacesAre(t: Tables, c: char)
    requires Sane(t) && c < '\U{80}'
    ensures t.space(c) <==> c in " \t\n\U{0b}\U{0c}\r\U{1c}\U{1d}\U{1e}\U{1f}"
  {
  }

  /** Each line with what ends it: one boundary, or a carriage return and a line feed. */
  function Ended(lines: seq<string>, ends: seq<string>): string
    requires |ends| == |lines|
  {
    if lines == [] then "" else lines[0] + ends[0] + Ended(lines[1..], ends[1..])
  }

  /** No line has a boundary in it, and no carriage return that ends a line stands before a line feed. */
  predicate ProperEnds(lines: seq<string>, ends: seq<string>)
  {
    && |ends| == |lines|
    && (forall i | 0 <= i < |lines| :: NoBreaks(lines[i]))
    && (forall i | 0 <= i < |ends| :: ends[i] == "\r\n" || (|ends[i]| == 1 && ends[i][0] in BREAKS))
    && forall i | 0 <= i < |ends| - 1 :: ends[i] == "\r" ==> lines[i + 1] != "" || ends[i + 1][0] != '\n'
  }

  /** Splitting gives the lines back, the last one with or without an end. */
  lemma {:induction false} SplitInverts(lines: seq<string>, ends: seq<string>, last: string)
    requires ProperEnds(lines, ends) && NoBreaks(last)
    requires |ends| == |lines|
    ensures SplitLines(Ended(lines, ends) + last) == lines + (if last == "" then [] else [last])
    decreases |lines|
  {
    hide NoBreaks, SplitLines, ProperEnds;
    if lines == [] {
      assert Ended(lines, ends) == "" && Ended(lines, ends) + last == last;
      if last != "" { LastLine(last); } else { NoLines(); }
    } else {
      var rest := Ended(lines[1..], ends[1..]) + last;
      EndedParts(lines, ends, last);
      FirstEnd(lines, ends);
      if ends[0] == "\r" { AfterReturn(lines, ends, last); }
      FirstSplit(lines[0], ends[0], rest);
      SplitInverts(lines[1..], ends[1..], last);
    }
  }

  lemma {:induction false} EndedParts(lines: seq<string>, ends: seq<string>, last: string)
    requires |ends| == |lines| > 0
    ensures Ended(lines, ends) + last == lines[0] + (ends[0] + (Ended(lines[1..], ends[1..]) + last))
  {
  }

  lemma {:induction false} FirstEnd(lines: seq<string>, ends: seq<string>)
    requires ProperEnds(lines, ends) && lines != []
    ensures NoBreaks(lines[0]) && (ends[0] == "\r\n" || (|ends[0]| == 1 && ends[0][0] in BREAKS))
    ensures ProperEnds(lines[1..], ends[1..])
  {
    hide NoBreaks;
    forall i | 0 <= i < |ends[1..]| - 1 ensures ends[1..][i] == "\r" ==> lines[1..][i + 1] != "" || ends[1..][i + 1][0] != '\n' {
      assert ends[i + 1] == ends[1..][i] && ends[i + 1 + 1] == ends[1..][i + 1] && lines[i + 1 + 1] == lines[1..][i + 1];
    }
  }

  lemma {:induction false} LastLine(last: string)
    requires NoBreaks(last) && last != ""
    ensures SplitLines(last) == [last]
  {
    assert BreakAt(last) == |last|;
    assert last[..|last|] == last;
  }

  lemma {:induction false} AfterReturn(lines: seq<string>, ends: seq<string>, last: string)
    requires ProperEnds(lines, ends) && NoBreaks(last) && lines != [] && ends[0] == "\r"
    ensures var rest := Ended(lines[1..], ends[1..]) + last; rest == "" || rest[0] != '\n'
  {
    if |lines| > 1 {
      var more := Ended(lines[1..][1..], ends[1..][1..]) + last;
      assert Ended(lines[1..], ends[1..]) + last == lines[1] + (ends[1] + more);
      assert ends[0] == "\r" && 0 < |ends| - 1;
      if lines[1] != "" { assert NoBreaks(lines[1]); }
    } else {
      assert Ended(lines[1..], ends[1..]) + last == last;
    }
  }

  lemma {:induction false} FirstSplit(line: string, end: string, rest: string)
    requires NoBreaks(line) && (end == "\r\n" || (|end| == 1 && end[0] in BREAKS))
    requires end == "\r" ==> rest == "" || rest[0] != '\n'
    ensures SplitLines(line + (end + rest)) == [line] + SplitLines(rest)
  {
    var s := line + (end + rest);
    BreaksAre(end[0]);
    LineStops(line, end + rest);
    EndLength(end, rest);
    hide NoBreaks, BreakAt, IsBreak;
    assert s[..|line|] == line && s[|line|] == end[0];
    assert s[|line| + |end|..] == rest;
    assert At(s, |line| + 1) == At(end + rest, 1);
    SplitStep(s, |line|, |end|, line, rest);
  }

  lemma {:induction false} EndLength(end: string, rest: string)
    requires end == "\r\n" || (|end| == 1 && end[0] in BREAKS)
    requires end == "\r" ==> rest == "" || rest[0] != '\n'
    ensures |end| == if end[0] == '\r' && At(end + rest, 1) == '\n' then 2 else 1
  {
    if |end| == 1 { assert end == [end[0]] && At(end + rest, 1) == At(rest, 0); }
  }

  lemma {:induction false} LineStops(line: string, more: string)
    requires NoBreaks(line) && more != "" && IsBreak(more[0])
    ensures BreakAt(line + more) == |line|
  {
    var s := line + more;
    assert s[|line|] == more[0];
    assert forall j | 0 <= j < |line| :: s[j] == line[j];
  }
}
