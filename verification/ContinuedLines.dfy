/** Strings that run across lines: formatting keeps the tokens of a source exactly if every line that
    starts inside a string already has the margin the formatter gives it. */
module ContinuedLines {
  import opened MortSyntax
  import opened Lexing
  import opened LexLocality
  import opened Formatting
  import opened TokenPreservation

  // ----- a string that is still open -----

  /** From j on the text stays inside a string, up to its end. */
  predicate OpenString(s: string, j: nat)
    decreases |s| - j
  {
    j == |s| ||
    (j < |s| && s[j] != '\0' && s[j] != '\n' && s[j] != '"' &&
     if s[j] == '\\' then At(s, j + 1) != '\0' && OpenString(s, j + 2) else OpenString(s, j + 1))
  }

  lemma {:induction false} ClosedIsNotOpen(s: string, j: nat)
    requires ScanStringEnd(s, j).Ok?
    ensures !OpenString(s, j)
    decreases |s| - j
  {
    if s[j] == '\\' { ClosedIsNotOpen(s, j + 2); } else if s[j] != '"' { ClosedIsNotOpen(s, j + 1); }
  }

  /** The closing quote is found alike in any text that agrees that far. */
  lemma {:induction false} ClosesAlike(s: string, r: string, j: nat)
    requires ScanStringEnd(s, j).Ok?
    requires var e := ScanStringEnd(s, j).value; e < |s| && e < |r| && forall i | 0 <= i <= e :: r[i] == s[i]
    ensures j <= ScanStringEnd(s, j).value && s[ScanStringEnd(s, j).value] == '"'
    ensures ScanStringEnd(r, j) == ScanStringEnd(s, j)
    decreases |s| - j
  {
    StringEndIs(s, j);
    if s[j] == '\\' {
      StringEndIs(s, j + 2);
      ClosesAlike(s, r, j + 2);
    } else if s[j] != '"' {
      StringEndIs(s, j + 1);
      ClosesAlike(s, r, j + 1);
    }
  }

  /** A text of whole lines. */
  predicate Complete(p: string) { p == "" || p[|p| - 1] == '\n' }

  /** Behind whole lines a string has been closed or is still open. */
  lemma {:induction false} ClosedOrOpen(p: string, x: string, j: nat)
    requires Complete(p) && p != "" && j <= |p| && ScanStringEnd(p + x, j).Ok?
    ensures OpenString(p, j) || ScanStringEnd(p, j) == ScanStringEnd(p + x, j)
    decreases |p| - j
  {
    if j < |p| {
      assert (p + x)[j] == p[j];
      if p[j] == '\\' {
        assert (p + x)[j + 1] == p[j + 1];
        ClosedOrOpen(p, x, j + 2);
      } else if p[j] != '"' {
        ClosedOrOpen(p, x, j + 1);
      }
    }
  }

  /** A string is open after a line end only if that is escaped. */
  lemma {:induction false} OpenEndsEscaped(s: string, j: nat)
    requires OpenString(s, j) && j < |s| && s[|s| - 1] == '\n'
    ensures |s| >= 2 && s[|s| - 2] == '\\'
    decreases |s| - j
  {
    var k := if s[j] == '\\' then j + 2 else j + 1;
    if k < |s| { OpenEndsEscaped(s, k); }
  }

  /** Scanning goes on behind an open string. */
  lemma {:induction false} OpenGoesOn(c: string, y: string, j: nat)
    requires OpenString(c, j) && j <= |c|
    ensures ScanStringEnd(c + y, j) == ScanStringEnd(c + y, |c|)
    decreases |c| - j
  {
    if j < |c| {
      assert (c + y)[j] == c[j];
      if c[j] == '\\' {
        assert (c + y)[j + 1] == c[j + 1];
        OpenGoesOn(c, y, j + 2);
      } else {
        OpenGoesOn(c, y, j + 1);
      }
    }
  }

  /** White space is ordinary text inside a string. */
  lemma {:induction false} SpacesGoOn(t: Tables, c: string, ws: string, y: string)
    requires Sane(t) && Spaces(t, ws)
    ensures ScanStringEnd(c + ws + y, |c|) == ScanStringEnd(c + ws + y, |c| + |ws|)
    decreases |ws|
  {
    if ws != "" {
      var s := c + ws + y;
      assert s[|c|] == ws[0];
      assert ws[0] != '\0' by { assert t.space('\0') == AsciiSpace('\0'); }
      StopFacts(t, ws[0]);
      var c1 := c + [ws[0]];
      assert c1 + ws[1..] + y == s;
      SpacesGoOn(t, c1, ws[1..], y);
    }
  }

  // ----- the lexer at the end of a line -----

  /** After some lines: the text of a string that is still open, or "", and the state before it. */
  datatype Mid = Mid(open: string, st: LexState)

  /** The lexer over whole lines. */
  ghost function LexPart(t: Tables, s: string, st: LexState): Lexed<Mid>
    requires Sane(t)
    decreases |s|
  {
    if s == "" then Ok(Mid("", st))
    else if st.depth > 0 then
      if s[0] == '/' && At(s, 1) == '*' then LexPart(t, s[2..], st.(depth := st.depth + 1))
      else if s[0] == '*' && At(s, 1) == '/' then LexPart(t, s[2..], st.(depth := st.depth - 1))
      else LexPart(t, s[1..], st)
    else if Blank(s[0]) then LexPart(t, s[1..], st)
    else if s[0] == '/' && At(s, 1) == '/' then
      assert LineEnd(s) > 0;
      LexPart(t, s[LineEnd(s)..], st)
    else if s[0] == '/' && At(s, 1) == '*' then LexPart(t, s[2..], st.(depth := 1))
    else if s[0] == '"' && OpenString(s, 1) then Ok(Mid(s, st))
    else
      var r :- Scan(t, s, AfterDot(st.tokens));
      ScanAdvances(t, s, AfterDot(st.tokens));
      LexPart(t, s[r.1..], st.(tokens := st.tokens + [r.0]))
  }

  /** The lexer is in code, or inside a string that started on an earlier line. */
  predicate IsOpen(c: string, st: LexState)
  {
    c != "" ==> c[0] == '"' && OpenString(c, 1) && Complete(c) && st.depth == 0
  }

  lemma {:induction false} PartIsOpen(t: Tables, s: string, st: LexState)
    requires Sane(t) && Complete(s) && LexPart(t, s, st).Ok?
    ensures IsOpen(LexPart(t, s, st).value.open, LexPart(t, s, st).value.st)
    decreases |s|
  {
    hide Scan, Sane, OpenString;
    if s == "" {
    } else if st.depth > 0 {
      if s[0] == '/' && At(s, 1) == '*' { PartIsOpen(t, s[2..], st.(depth := st.depth + 1)); }
      else if s[0] == '*' && At(s, 1) == '/' { PartIsOpen(t, s[2..], st.(depth := st.depth - 1)); }
      else { PartIsOpen(t, s[1..], st); }
    } else if Blank(s[0]) {
      PartIsOpen(t, s[1..], st);
    } else if s[0] == '/' && At(s, 1) == '/' {
      assert LineEnd(s) > 0;
      PartIsOpen(t, s[LineEnd(s)..], st);
    } else if s[0] == '/' && At(s, 1) == '*' {
      PartIsOpen(t, s[2..], st.(depth := 1));
    } else if !(s[0] == '"' && OpenString(s, 1)) {
      ScanAdvances(t, s, AfterDot(st.tokens));
      var r := Scan(t, s, AfterDot(st.tokens)).value;
      PartIsOpen(t, s[r.1..], st.(tokens := st.tokens + [r.0]));
    }
  }

  /** Only a quote starts a string. */
  lemma {:induction false} ScanKind(t: Tables, s: string, dot: bool)
    requires s != "" && s[0] != '"' && Scan(t, s, dot).Ok?
    ensures OnOneLine(Scan(t, s, dot).value.0)
  {
  }

  /** A token at the front of whole lines, with and without what follows them. */
  lemma {:induction false} TokenInLines(t: Tables, p: string, x: string, dot: bool)
    requires Sane(t) && Complete(p) && p != "" && !Blank(p[0]) && !(p[0] == '"' && OpenString(p, 1))
    ensures Scan(t, p, dot).Ok? ==> Scan(t, p + x, dot) == Scan(t, p, dot) && Scan(t, p, dot).value.1 <= |p|
    ensures Scan(t, p + x, dot).Ok? ==> Scan(t, p, dot).Ok?
  {
    hide Sane, ScanChar, ScanNumber, ScanWord, ScanSymbol, OpenString;
    if p[0] == '"' {
      if ScanStringEnd(p, 1).Ok? {
        StringEndIs(p, 1);
        ClosesAlike(p, p + x, 1);
        var e := ScanStringEnd(p, 1).value;
        assert (p + x)[1..e] == p[1..e];
      } else if ScanStringEnd(p + x, 1).Ok? {
        ClosedOrOpen(p, x, 1);
      }
    } else {
      var q := p[..|p| - 1];
      assert p == q + "\n" && p + x == q + ("\n" + x);
      assert Tail(t, "\n") && Tail(t, "\n" + x);
      if Scan(t, p, dot).Ok? {
        ScanKind(t, p, dot);
        ScanLocal(t, q, "\n", "\n" + x, dot);
      }
      if Scan(t, p + x, dot).Ok? {
        ScanKind(t, p + x, dot);
        ScanLocal(t, q, "\n" + x, "\n", dot);
      }
    }
  }

  /** Reading whole lines and then the rest is reading all. */
  lemma {:induction false} Resume(t: Tables, p: string, x: string, st: LexState)
    requires Sane(t) && Complete(p)
    ensures LexPart(t, p, st).Ok? ==> Lex(t, p + x, st) == Lex(t, LexPart(t, p, st).value.open + x, LexPart(t, p, st).value.st)
    ensures Lex(t, p + x, st).Ok? ==> LexPart(t, p, st).Ok?
    decreases |p|, 1
  {
    hide Scan, Sane, OpenString;
    hide Complete, LineEnd;
    var s := p + x;
    if p == "" {
      assert s == x && "" + x == x;
    } else {
      LinesFront(p, x);
      if st.depth > 0 {
        if s[0] == '/' && At(s, 1) == '*' {
          LinesSlice(p, x, 2);
          Resume(t, p[2..], x, st.(depth := st.depth + 1));
        } else if s[0] == '*' && At(s, 1) == '/' {
          LinesSlice(p, x, 2);
          Resume(t, p[2..], x, st.(depth := st.depth - 1));
        } else {
          LinesSlice(p, x, 1);
          Resume(t, p[1..], x, st);
        }
      } else if Blank(s[0]) {
        LinesSlice(p, x, 1);
        Resume(t, p[1..], x, st);
      } else if s[0] == '/' && At(s, 1) == '/' {
        var n := LineEnd(p);
        EndsBefore(p, x);
        LinesSlice(p, x, n);
        LineEndIsLater(p);
        Resume(t, p[n..], x, st);
      } else if s[0] == '/' && At(s, 1) == '*' {
        LinesSlice(p, x, 2);
        Resume(t, p[2..], x, st.(depth := 1));
      } else if !(p[0] == '"' && OpenString(p, 1)) {
        ResumeToken(t, p, x, st);
      }
    }
  }

  lemma {:induction false} ResumeToken(t: Tables, p: string, x: string, st: LexState)
    requires Sane(t) && Complete(p) && p != "" && st.depth == 0 && !Blank(p[0]) && !(p[0] == '"' && OpenString(p, 1))
    requires !(p[0] == '/' && (At(p, 1) == '/' || At(p, 1) == '*')) && At(p + x, 1) == At(p, 1)
    ensures LexPart(t, p, st).Ok? ==> Lex(t, p + x, st) == Lex(t, LexPart(t, p, st).value.open + x, LexPart(t, p, st).value.st)
    ensures Lex(t, p + x, st).Ok? ==> LexPart(t, p, st).Ok?
    decreases |p|, 0
  {
    hide Scan, Sane, OpenString, Complete;
    TokenInLines(t, p, x, AfterDot(st.tokens));
    if Scan(t, p, AfterDot(st.tokens)).Ok? {
      var r := Scan(t, p, AfterDot(st.tokens)).value;
      ScanAdvances(t, p, AfterDot(st.tokens));
      LinesSlice(p, x, r.1);
      Resume(t, p[r.1..], x, st.(tokens := st.tokens + [r.0]));
    }
  }

  lemma {:induction false} LinesFront(p: string, x: string)
    requires Complete(p) && p != ""
    ensures (p + x)[0] == p[0] && (|p| == 1 ==> p[0] == '\n') && (|p| > 1 ==> At(p + x, 1) == At(p, 1))
  {
  }

  lemma {:induction false} LinesSlice(p: string, x: string, n: nat)
    requires Complete(p) && n <= |p|
    ensures (p + x)[n..] == p[n..] + x && Complete(p[n..])
  {
  }

  lemma {:induction false} LineEndIsLater(p: string)
    requires p != "" && p[0] == '/'
    ensures LineEnd(p) > 0
  {
  }

  lemma {:induction false} EndsBefore(p: string, x: string)
    requires Complete(p) && p != ""
    ensures LineEnd(p) < |p| && LineEnd(p + x) == LineEnd(p)
  {
    var n := LineEnd(p);
    assert p[..|p|] == p;
    assert (p + x)[..n] == p[..n];
    LineEndUnique(p + x, n);
  }

  // ----- white space at the ends of a line -----

  lemma {:induction false} SpacesVanish(t: Tables, ws: string, s: string, st: LexState)
    requires Sane(t) && Spaces(t, ws) && LexPart(t, ws + s, st).Ok?
    ensures LexPart(t, s, st) == LexPart(t, ws + s, st)
    decreases |ws|
  {
    if ws == "" {
      assert ws + s == s;
    } else {
      var all := ws + s;
      assert all[1..] == ws[1..] + s;
      StopFacts(t, ws[0]);
      SpaceScansNothing(t, all, AfterDot(st.tokens));
      SpacesVanish(t, ws[1..], s, st);
    }
  }

  lemma {:induction false} MarginVanishes(t: Tables, n: nat, s: string, st: LexState)
    requires Sane(t)
    ensures LexPart(t, Indent(n) + s, st) == LexPart(t, s, st)
  {
    hide Sane, LexPart;
    if n == 0 {
      assert "" + s == s;
    } else {
      var rest := Indent(n - 1) + s;
      assert Indent(n) + s == [' '] + ([' '] + ([' '] + ([' '] + rest)));
      BlankVanishes(t, [' '] + ([' '] + ([' '] + rest)), st);
      BlankVanishes(t, [' '] + ([' '] + rest), st);
      BlankVanishes(t, [' '] + rest, st);
      BlankVanishes(t, rest, st);
      MarginVanishes(t, n - 1, s, st);
    }
  }

  lemma {:induction false} BlankVanishes(t: Tables, s: string, st: LexState)
    requires Sane(t)
    ensures LexPart(t, [' '] + s, st) == LexPart(t, s, st)
  {
    assert ([' '] + s)[1..] == s;
  }

  lemma {:induction false} LineEndPart(t: Tables, st: LexState)
    requires Sane(t)
    ensures LexPart(t, "\n", st) == Ok(Mid("", st))
  {
    assert "\n"[1..] == "";
  }

  /** A token of a line, with and without the white space behind the line. */
  lemma {:induction false} TokenInLine(t: Tables, p: string, ws: string, dot: bool)
    requires Sane(t) && Spaces(t, ws) && ws != "" && p != "" && Scan(t, p + ws + "\n", dot).Ok?
    ensures Scan(t, p + "\n", dot) == Scan(t, p + ws + "\n", dot) && Scan(t, p + "\n", dot).value.1 <= |p|
    ensures p[0] == '"' ==> !OpenString(p + "\n", 1)
  {
    hide Sane, ScanChar, ScanNumber, ScanWord, ScanSymbol, OpenString, Tail;
    var s := p + ws + "\n";
    assert s == p + (ws + "\n");
    if p[0] == '"' {
      var e := ScanStringEnd(s, 1).value;
      StringEndIs(s, 1);
      ClosesAlike(s, s, 1);
      QuoteIsNoStop(t);
      assert forall i | 0 <= i < |ws| :: s[|p| + i] == ws[i];
      assert e < |p|;
      ClosesAlike(s, p + "\n", 1);
      ClosedIsNotOpen(p + "\n", 1);
      assert (p + "\n")[1..e] == s[1..e];
    } else {
      TailOf(t, ws, "\n");
      TailOf(t, "", "\n");
      assert "" + "\n" == "\n";
      ScanKind(t, s, dot);
      ScanLocal(t, p, ws + "\n", "\n", dot);
    }
  }

  /** Behind a line comment. */
  lemma {:induction false} TrailComment(t: Tables, p: string, ws: string, st: LexState)
    requires Sane(t) && Spaces(t, ws) && LexPart(t, p + ws + "\n", st).Ok? && ws != "" && p != "" && st.depth == 0
    requires var s := p + ws + "\n"; !Blank(s[0]) && s[0] == '/' && At(s, 1) == '/' && At(p + "\n", 1) == '/'
    ensures LexPart(t, p + "\n", st) == LexPart(t, p + ws + "\n", st)
    decreases |p|, 0
  {
    hide Scan, Sane, OpenString, Tail, Spaces, LineEnd;
    var s, r := p + ws + "\n", p + "\n";
    NoLineEnd(t, ws);
    LineEndLocal(p, ws, "\n");
    LineEndLocal(p, "", "\n");
    assert p + "" + "\n" == r;
    var n := LineEnd(s);
    if '\n' in p {
      TrailSlice(p, ws, n);
      TrailVanishes(t, p[n..], ws, st);
    } else {
      assert s[n..] == "\n" && r[LineEnd(r)..] == "\n";
    }
  }

  /** White space behind a line makes no difference: an open string has none there. */
  lemma {:induction false} TrailVanishes(t: Tables, p: string, ws: string, st: LexState)
    requires Sane(t) && Spaces(t, ws) && LexPart(t, p + ws + "\n", st).Ok?
    ensures LexPart(t, p + "\n", st) == LexPart(t, p + ws + "\n", st)
    decreases |p|, 1
  {
    hide Scan, Sane, OpenString, Tail, Spaces, LineEnd;
    var s := p + ws + "\n";
    if ws == "" {
      assert s == p + "\n";
    } else if p == "" {
      assert s == ws + "\n" && "" + "\n" == "\n";
      SpacesVanish(t, ws, "\n", st);
    } else {
      var r := p + "\n";
      assert s == p + (ws + "\n");
      TailOf(t, ws, "\n");
      TailOf(t, "", "\n");
      assert "" + "\n" == "\n";
      SecondLocal(t, p, ws + "\n", "\n");
      if st.depth > 0 {
        if s[0] == '/' && At(s, 1) == '*' {
          TrailSlice(p, ws, 2);
          TrailVanishes(t, p[2..], ws, st.(depth := st.depth + 1));
        } else if s[0] == '*' && At(s, 1) == '/' {
          TrailSlice(p, ws, 2);
          TrailVanishes(t, p[2..], ws, st.(depth := st.depth - 1));
        } else {
          TrailSlice(p, ws, 1);
          TrailVanishes(t, p[1..], ws, st);
        }
      } else if Blank(s[0]) {
        TrailSlice(p, ws, 1);
        TrailVanishes(t, p[1..], ws, st);
      } else if s[0] == '/' && At(s, 1) == '/' {
        TrailComment(t, p, ws, st);
      } else if s[0] == '/' && At(s, 1) == '*' {
        TrailSlice(p, ws, 2);
        TrailVanishes(t, p[2..], ws, st.(depth := 1));
      } else {
        TrailToken(t, p, ws, st);
      }
    }
  }

  lemma {:induction false} TrailToken(t: Tables, p: string, ws: string, st: LexState)
    requires Sane(t) && Spaces(t, ws) && ws != "" && LexPart(t, p + ws + "\n", st).Ok?
    requires p != "" && st.depth == 0 && !Blank(p[0])
    requires !(p[0] == '/' && (At(p + ws + "\n", 1) == '/' || At(p + ws + "\n", 1) == '*'))
    requires !(p[0] == '/' && (At(p + "\n", 1) == '/' || At(p + "\n", 1) == '*'))
    ensures LexPart(t, p + "\n", st) == LexPart(t, p + ws + "\n", st)
    decreases |p|, 0
  {
    hide Scan, Sane, OpenString, Spaces;
    var s := p + ws + "\n";
    assert s[0] == p[0] == (p + "\n")[0];
    NoTrailInString(t, p, ws);
    TokenInLine(t, p, ws, AfterDot(st.tokens));
    var k := Scan(t, s, AfterDot(st.tokens)).value;
    ScanAdvances(t, s, AfterDot(st.tokens));
    TrailSlice(p, ws, k.1);
    TrailVanishes(t, p[k.1..], ws, st.(tokens := st.tokens + [k.0]));
  }

  lemma {:induction false} NoTrailInString(t: Tables, p: string, ws: string)
    requires Sane(t) && Spaces(t, ws) && ws != "" && p != ""
    ensures !OpenString(p + ws + "\n", 1)
  {
    var s := p + ws + "\n";
    assert s[|s| - 2] == ws[|ws| - 1];
    StopFacts(t, ws[|ws| - 1]);
    if OpenString(s, 1) { OpenEndsEscaped(s, 1); }
  }

  lemma {:induction false} TrailSlice(p: string, ws: string, n: nat)
    requires n <= |p|
    ensures (p + ws + "\n")[n..] == p[n..] + ws + "\n" && (p + "\n")[n..] == p[n..] + "\n"
  {
  }

  // ----- a line end behind everything -----

  lemma {:induction false} LineEndBehind(t: Tables, p: string, st: LexState)
    requires Sane(t) && Lex(t, p, st).Ok?
    ensures Lex(t, p + "\n", st) == Lex(t, p, st)
    decreases |p|
  {
    hide Scan, Sane, Tail;
    var s := p + "\n";
    assert p + "" == p;
    if p == "" {
      NewLine(t, "", st);
      assert "\n" + "" == s;
    } else {
      TailOf(t, "", "\n");
      TailOf(t, "", "");
      assert "" + "\n" == "\n" && "" + "" == "";
      SecondLocal(t, p, "", "\n");
      if st.depth > 0 {
        if s[0] == '/' && At(s, 1) == '*' {
          assert s[2..] == p[2..] + "\n";
          LineEndBehind(t, p[2..], st.(depth := st.depth + 1));
        } else if s[0] == '*' && At(s, 1) == '/' {
          assert s[2..] == p[2..] + "\n";
          LineEndBehind(t, p[2..], st.(depth := st.depth - 1));
        } else {
          assert s[1..] == p[1..] + "\n";
          LineEndBehind(t, p[1..], st);
        }
      } else if Blank(s[0]) {
        assert s[1..] == p[1..] + "\n";
        LineEndBehind(t, p[1..], st);
      } else if s[0] == '/' && At(s, 1) == '/' {
        LineEndLocal(p, "", "\n");
        assert p + "" + "\n" == s;
        var n := LineEnd(p);
        assert n > 0 && LineEnd(s) == n && s[n..] == p[n..] + "\n";
        LineEndBehind(t, p[n..], st);
      } else if s[0] == '/' && At(s, 1) == '*' {
        assert s[2..] == p[2..] + "\n";
        LineEndBehind(t, p[2..], st.(depth := 1));
      } else {
        ScanAdvances(t, p, AfterDot(st.tokens));
        var r := Scan(t, p, AfterDot(st.tokens)).value;
        TokenBeforeEnd(t, p, AfterDot(st.tokens));
        assert s[r.1..] == p[r.1..] + "\n";
        LineEndBehind(t, p[r.1..], st.(tokens := st.tokens + [r.0]));
      }
    }
  }

  lemma {:induction false} TokenBeforeEnd(t: Tables, p: string, dot: bool)
    requires Sane(t) && p != "" && Scan(t, p, dot).Ok?
    ensures Scan(t, p + "\n", dot) == Scan(t, p, dot)
  {
    hide Sane, ScanChar, ScanNumber, ScanWord, ScanSymbol;
    assert p + "" == p;
    if p[0] == '"' {
      StringEndIs(p, 1);
      ClosesAlike(p, p + "\n", 1);
      var e := ScanStringEnd(p, 1).value;
      assert (p + "\n")[1..e] == p[1..e];
    } else {
      ScanKind(t, p, dot);
      ScanLocal(t, p, "", "\n", dot);
    }
  }

  // ----- line by line -----

  /** The white space a line starts with, and what the formatter puts there. */
  function Lead(t: Tables, raw: string): string { raw[..Clamp(|raw| - |StripLeft(t, raw)|)] }

  function Margin(t: Tables, raw: string, q: Layouter): string
  {
    Indent(Clamp(q.depth - (if q.block > 0 then 0 else LeadingCloses(t, Strip(t, raw)))))
  }

  /** Every line of s that starts inside a string (the first one, if `open` is not empty) starts with
      the white space the formatter would give it. */
  ghost predicate ContinuationsStay(t: Tables, open: string, s: string, q: Layouter, st: LexState)
    requires Sane(t)
    decreases |s|
  {
    s == "" ||
    var n := BreakAt(s);
    var raw := s[..n];
    var m := LexPart(t, open + raw + "\n", st);
    && (open != "" ==> Lead(t, raw) == Margin(t, raw, q))
    && m.Ok?
    && ContinuationsStay(t, m.value.open, if n < |s| then s[n + BreakLength(s, n)..] else "", FormatLine(t, raw, q).1, m.value.st)
  }

  lemma {:induction false} LineParts(t: Tables, raw: string) returns (trail: string)
    requires NoBreaks(raw)
    ensures raw == Lead(t, raw) + Strip(t, raw) + trail && Spaces(t, Lead(t, raw)) && Spaces(t, trail)
    ensures Strip(t, raw) != "" ==> !t.space(Strip(t, raw)[0])
  {
    var left := StripLeft(t, raw);
    StripLeftIs(t, raw);
    StripRightIs(t, left);
    trail := left[|Strip(t, raw)|..];
  }

  /** The line the formatter writes leaves the lexer where the source line does. */
  lemma {:induction false} LineStays(t: Tables, open: string, raw: string, cr: string, q: Layouter, st: LexState)
    requires Sane(t) && NoBreaks(raw) && Spaces(t, cr) && IsOpen(open, st)
    requires LexPart(t, open + raw + cr + "\n", st).Ok?
    requires open != "" ==> Strip(t, raw) != "" && Lead(t, raw) == Margin(t, raw, q)
    ensures LexPart(t, open + Unlines(FormatLine(t, raw, q).0), st) == LexPart(t, open + raw + cr + "\n", st)
  {
    hide Sane, LexPart, Strip, LeadingCloses, Braces, Spaces, Lead, IsOpen;
    var text, out := Strip(t, raw), FormatLine(t, raw, q).0;
    var trail := LineParts(t, raw);
    var lead := Lead(t, raw);
    var ws := trail + cr;
    assert Spaces(t, ws) by { SpacesJoin(t, trail, cr); }
    assert open + raw + cr + "\n" == (open + lead + text) + ws + "\n";
    TrailVanishes(t, open + lead + text, ws, st);
    if text == "" {
      assert open + lead + text + "\n" == lead + "\n";
      SpacesVanish(t, lead, "\n", st);
      LineEndPart(t, st);
      NothingPart(t, st);
      assert out == [""] ==> out[1..] == [];
      assert Unlines(out) == (if out == [] then "" else "" + "\n" + "");
      assert "" + "" == "" && "" + ("" + "\n" + "") == "\n";
    } else {
      assert out == [Margin(t, raw, q) + text];
      assert out[1..] == [] && Unlines(out) == Margin(t, raw, q) + text + "\n" + "";
      if open == "" {
        assert open + lead + text + "\n" == lead + (text + "\n");
        SpacesVanish(t, lead, text + "\n", st);
        MarginVanishes(t, Clamp(q.depth - (if q.block > 0 then 0 else LeadingCloses(t, text))), text + "\n", st);
        assert open + Unlines(out) == Margin(t, raw, q) + (text + "\n");
      } else {
        assert open + Unlines(out) == open + lead + text + "\n";
      }
    }
  }

  lemma {:induction false} SpacesJoin(t: Tables, a: string, b: string)
    requires Spaces(t, a) && Spaces(t, b)
    ensures Spaces(t, a + b)
  {
  }

  lemma NothingPart(t: Tables, st: LexState)
    requires Sane(t)
    ensures LexPart(t, "", st) == Ok(Mid("", st))
  {
  }

  // ----- a margin that changes -----

  /** An open string goes on over the white space of the next line. */
  lemma {:induction false} OpenLine(t: Tables, open: string, lead: string, y: string, st: LexState)
    requires Sane(t) && open != "" && IsOpen(open, st) && Spaces(t, lead) && Lex(t, open + lead + y, st).Ok?
    ensures var s := open + lead + y;
      var e := ScanStringEnd(s, |open| + |lead|);
      && e.Ok? && |open| + |lead| <= e.value < |s|
      && |st.tokens| < |Lex(t, s, st).value.tokens| && Lex(t, s, st).value.tokens[|st.tokens|] == Str(s[1..e.value])
  {
    hide Sane, OpenString, Spaces, ScanStringEnd, Lex;
    var s := open + lead + y;
    assert s == open + (lead + y);
    assert s[0] == '"';
    OpenGoesOn(open, lead + y, 1);
    SpacesGoOn(t, open, lead, y);
    assert Scan(t, s, AfterDot(st.tokens)) == ScanString(s);
    LexToken(t, s, st);
    StringEndIs(s, |open| + |lead|);
    var e := ScanStringEnd(s, |open| + |lead|).value;
    LexGrows(t, s[e + 1..], st.(tokens := st.tokens + [Str(s[1..e])]));
  }

  lemma {:induction false} MarginIsSpaces(t: Tables, n: nat)
    requires Sane(t)
    ensures Spaces(t, Indent(n))
  {
    assert t.space(' ') == AsciiSpace(' ');
    if n > 0 { MarginIsSpaces(t, n - 1); }
  }

  /** Two different margins inside a string make two different tokens. */
  lemma {:induction false} MarginsClash(t: Tables, open: string, a: string, b: string, text: string, x: string, y: string, st: LexState)
    requires Sane(t) && open != "" && IsOpen(open, st) && Spaces(t, a) && Spaces(t, b) && a != b
    requires text != "" && !t.space(text[0])
    requires Lex(t, open + a + (text + x), st).Ok? && Lex(t, open + b + (text + y), st).Ok?
    ensures Lex(t, open + a + (text + x), st).value.tokens != Lex(t, open + b + (text + y), st).value.tokens
  {
    hide Sane, Lex;
    OpenLine(t, open, a, text + x, st);
    OpenLine(t, open, b, text + y, st);
    hide IsOpen, ScanStringEnd;
    var s, r := open + a + (text + x), open + b + (text + y);
    var e, f := ScanStringEnd(s, |open| + |a|).value, ScanStringEnd(r, |open| + |b|).value;
    if |a| == |b| {
      var i :| 0 <= i < |a| && a[i] != b[i];
      assert s[|open| + i] == a[i] && r[|open| + i] == b[i];
      SlicesDiffer(s, r, e, f, |open| + i);
    } else {
      var i := if |a| < |b| then |a| else |b|;
      assert s[|open| + i] == (if i < |a| then a[i] else text[0]);
      assert r[|open| + i] == (if i < |b| then b[i] else text[0]);
      SlicesDiffer(s, r, e, f, |open| + i);
    }
  }

  lemma {:induction false} SlicesDiffer(s: string, r: string, e: nat, f: nat, i: nat)
    requires 1 <= e < |s| && 1 <= f < |r| && 1 <= i < |s| && i < |r| && s[i] != r[i] && (i < e || i < f)
    ensures s[1..e] != r[1..f]
  {
    if i < e && i < f { assert s[1..e][i - 1] == s[i] && r[1..f][i - 1] == r[i]; }
  }

  /** A line inside a string is not blank. */
  lemma {:induction false} ContinuedNotBlank(t: Tables, open: string, raw: string, cr: string, y: string, st: LexState)
    requires Sane(t) && open != "" && IsOpen(open, st) && NoBreaks(raw) && Spaces(t, cr)
    requires Lex(t, open + raw + cr + "\n" + y, st).Ok?
    ensures Strip(t, raw) != ""
  {
    hide Sane, Lex, Strip, Lead, NoBreaks, IsOpen;
    var trail := LineParts(t, raw);
    var lead := Lead(t, raw);
    if Strip(t, raw) == "" {
      var ws := lead + trail + cr;
      SpacesJoin(t, lead, trail);
      SpacesJoin(t, lead + trail, cr);
      assert open + raw + cr + "\n" + y == open + ws + ("\n" + y);
      assert (open + ws + ("\n" + y))[|open| + |ws|] == '\n';
      OpenLine(t, open, ws, "\n" + y, st);
    }
  }

  // ----- the theorem -----

  /** Same tokens and same comment depth, or a failure or different tokens. */
  predicate SameOrNot(same: bool, a: Lexed<LexState>, b: Lexed<LexState>)
    requires b.Ok?
  {
    if same then a == b else a.Ok? ==> a.value.tokens != b.value.tokens
  }

  /** The first line of a text and what follows, with a line end supplied behind the last line. */
  lemma {:induction false} FirstLine(t: Tables, open: string, s: string, st: LexState) returns (raw: string, cr: string, rest: string)
    requires Sane(t) && OnlyLineFeeds(s) && s != "" && Lex(t, open + s, st).Ok?
    ensures var n := BreakAt(s);
      raw == s[..n] && rest == (if n < |s| then s[n + BreakLength(s, n)..] else "")
    ensures NoBreaks(raw) && Spaces(t, cr) && OnlyLineFeeds(rest) && |rest| < |s| && SplitLines(s) == [raw] + SplitLines(rest)
    ensures Lex(t, open + raw + cr + "\n" + rest, st) == Lex(t, open + s, st)
  {
    hide Sane, Lex, NoBreaks, Spaces, OnlyLineFeeds, BreakAt, BreakLength, SplitLines;
    raw, cr, rest := SplitText(s);
    ReturnIsSpace(t);
    RestOnlyLineFeeds(s, |s| - |rest|);
    Regroup(open, raw, cr, rest);
    if BreakAt(s) == |s| { LineEndBehind(t, open + s, st); }
  }

  lemma {:induction false} Regroup(open: string, raw: string, cr: string, rest: string)
    ensures open + (raw + cr + "\n" + rest) == open + raw + cr + "\n" + rest
    ensures cr == "" && rest == "" ==> open + raw + "\n" == open + raw + cr + "\n" + rest
  {
  }

  /** One line, read as it is and as the formatter writes it. */
  lemma {:induction false} LineExact(t: Tables, open: string, raw: string, cr: string, rest: string, q: Layouter, more: string,
                                     st: LexState) returns (m: Mid)
    requires Sane(t) && NoBreaks(raw) && Spaces(t, cr) && IsOpen(open, st)
    requires Lex(t, open + raw + cr + "\n" + rest, st).Ok?
    ensures LexPart(t, open + raw + "\n", st) == Ok(m) && IsOpen(m.open, m.st)
    ensures Lex(t, m.open + rest, m.st) == Lex(t, open + raw + cr + "\n" + rest, st)
    ensures var b := Lex(t, open + Unlines(FormatLine(t, raw, q).0) + more, st);
      if open != "" && Lead(t, raw) != Margin(t, raw, q)
      then b.Ok? ==> b.value.tokens != Lex(t, open + raw + cr + "\n" + rest, st).value.tokens
      else b == Lex(t, m.open + more, m.st)
  {
    hide Sane, Lex, LexPart, FormatLine, Strip, NoBreaks, IsOpen, Lead, Margin, Spaces, Unlines;
    var line := open + raw + cr + "\n";
    Resume(t, line, rest, st);
    PartIsOpen(t, line, st);
    m := LexPart(t, line, st).value;
    TrailVanishes(t, open + raw, cr, st);
    if open != "" { ContinuedNotBlank(t, open, raw, cr, rest, st); }
    if open != "" && Lead(t, raw) != Margin(t, raw, q) {
      LineClashes(t, open, raw, cr, rest, q, more, st);
    } else {
      LineStays(t, open, raw, cr, q, st);
      LineIsComplete(t, open, raw, q, st);
      Resume(t, open + Unlines(FormatLine(t, raw, q).0), more, st);
    }
  }

  lemma {:induction false} LayoutExact(t: Tables, open: string, s: string, q: Layouter, st: LexState)
    requires Sane(t) && OnlyLineFeeds(s) && IsOpen(open, st) && Lex(t, open + s, st).Ok?
    ensures SameOrNot(ContinuationsStay(t, open, s, q, st), Lex(t, open + Unlines(Layout(t, SplitLines(s), q)), st), Lex(t, open + s, st))
    decreases |s|
  {
    hide Sane, Lex, LexPart, FormatLine, NoBreaks, IsOpen, Lead, Margin, Spaces, SplitLines, OnlyLineFeeds;
    if s == "" {
      assert SplitLines(s) == [] by { NoLines(); }
      assert Unlines([]) == "";
    } else {
      var raw, cr, rest := FirstLine(t, open, s, st);
      var (out, q1) := FormatLine(t, raw, q);
      var more := Layout(t, SplitLines(rest), q1);
      LayoutStep(t, raw, SplitLines(rest), q);
      UnlinesAppend(out, more);
      assert open + Unlines(out + more) == open + Unlines(out) + Unlines(more);
      var m := LineExact(t, open, raw, cr, rest, q, Unlines(more), st);
      LayoutExact(t, m.open, rest, q1, m.st);
    }
  }

  lemma {:induction false} LineIsComplete(t: Tables, open: string, raw: string, q: Layouter, st: LexState)
    requires IsOpen(open, st)
    ensures Complete(open + Unlines(FormatLine(t, raw, q).0))
  {
    hide OpenString, Strip, Braces, LeadingCloses;
    var out := FormatLine(t, raw, q).0;
    if out == [] {
      assert open + "" == open;
    } else {
      assert out[1..] == [] && Unlines(out) == out[0] + "\n" + "";
    }
  }

  /** A continued line whose margin changes changes the string. */
  lemma {:induction false} LineClashes(t: Tables, open: string, raw: string, cr: string, rest: string, q: Layouter, more: string, st: LexState)
    requires Sane(t) && open != "" && IsOpen(open, st) && NoBreaks(raw) && Strip(t, raw) != ""
    requires Lex(t, open + raw + cr + "\n" + rest, st).Ok? && Lead(t, raw) != Margin(t, raw, q)
    ensures var b := Lex(t, open + Unlines(FormatLine(t, raw, q).0) + more, st);
      b.Ok? ==> b.value.tokens != Lex(t, open + raw + cr + "\n" + rest, st).value.tokens
  {
    hide Sane, Lex, Strip, IsOpen, Lead, Spaces, NoBreaks;
    var text, out := Strip(t, raw), FormatLine(t, raw, q).0;
    var trail := LineParts(t, raw);
    var x, y := trail + cr + "\n" + rest, "\n" + more;
    assert open + raw + cr + "\n" + rest == open + Lead(t, raw) + (text + x);
    assert out == [Margin(t, raw, q) + text];
    assert out[1..] == [] && Unlines(out) == Margin(t, raw, q) + text + "\n" + "";
    assert open + Unlines(out) + more == open + Margin(t, raw, q) + (text + y);
    MarginIsSpaces(t, Clamp(q.depth - (if q.block > 0 then 0 else LeadingCloses(t, text))));
    if Lex(t, open + Margin(t, raw, q) + (text + y), st).Ok? {
      MarginsClash(t, open, Lead(t, raw), Margin(t, raw, q), text, x, y, st);
    }
  }

  /** Blank lines at the end hold no tokens, and an open string does not survive one. */
  lemma {:induction false} BlankEndExact(t: Tables, lines: seq<string>, st: LexState)
    requires Sane(t)
    ensures var a, b := Lex(t, Unlines(DropBlankEnd(lines)), st), Lex(t, Unlines(lines), st);
      (a.Ok? || b.Ok?) ==> a == b
  {
    hide Sane, Lex, LexPart;
    if lines != [] && lines[|lines| - 1] == "" {
      var front := lines[..|lines| - 1];
      assert lines == front + [""];
      UnlinesAppend(front, [""]);
      assert [""][1..] == [] && Unlines([""]) == "" + "\n" + "";
      var u := Unlines(front);
      assert Unlines(lines) == u + "\n";
      UnlinesComplete(front);
      if Lex(t, u, st).Ok? { LineEndBehind(t, u, st); }
      if Lex(t, u + "\n", st).Ok? { LineEndGoes(t, u, st); }
      BlankEndExact(t, front, st);
    }
  }

  lemma {:induction false} UnlinesComplete(lines: seq<string>)
    ensures Complete(Unlines(lines))
  {
    if lines != [] { UnlinesComplete(lines[1..]); }
  }

  lemma {:induction false} LineEndGoes(t: Tables, u: string, st: LexState)
    requires Sane(t) && Complete(u) && Lex(t, u + "\n", st).Ok?
    ensures Lex(t, u, st) == Lex(t, u + "\n", st)
  {
    hide Sane, Lex, LexPart, IsOpen;
    Resume(t, u, "\n", st);
    Resume(t, u, "", st);
    PartIsOpen(t, u, st);
    var m := LexPart(t, u, st).value;
    assert u + "" == u && m.open + "" == m.open;
    if m.open != "" {
      assert Spaces(t, "") && m.open + "" + "\n" == m.open + "\n";
      assert (m.open + "\n")[|m.open|] == '\n';
      OpenLine(t, m.open, "", "\n", m.st);
    } else {
      assert "" + "\n" == "\n" && "\n" + "" == "\n";
      NewLine(t, "", m.st);
    }
  }

  /** For every lexable source whose line breaks are "\n" or "\r\n": formatting keeps the tokens, in
      order and with their values, if and only if every line that starts inside a string starts with
      the white space the formatter gives it. */
  lemma {:induction false} FormatKeepsTokensIff(t: Tables, source: string)
    requires Sane(t) && OnlyLineFeeds(source) && Tokenize(t, source).Ok?
    ensures Tokenize(t, Format(t, source)) == Tokenize(t, source) <==> ContinuationsStay(t, "", source, START, LexState(0, []))
  {
    hide Sane, Lex, ContinuationsStay;
    var st := LexState(0, []);
    var all := Layout(t, SplitLines(source), START);
    assert "" + source == source && "" + Unlines(all) == Unlines(all);
    LayoutExact(t, "", source, START, st);
    BlankEndExact(t, all, st);
    if DropBlankEnd(all) == [] {
      NewLine(t, "", st);
      assert "\n" + "" == "\n";
    }
  }

  // ----- sources with other line separators -----

  /** The text as the formatter splits it: every line separator becomes "\n". */
  function LineFeeds(s: string): string { Unlines(SplitLines(s)) }

  lemma {:induction false} UnlinesOnlyLineFeeds(lines: seq<string>)
    requires forall i | 0 <= i < |lines| :: NoBreaks(lines[i])
    ensures OnlyLineFeeds(Unlines(lines))
  {
    if lines != [] {
      UnlinesOnlyLineFeeds(lines[1..]);
      var head, tail := lines[0] + "\n", Unlines(lines[1..]);
      var s := head + tail;
      assert forall j | 0 <= j < |lines[0]| :: s[j] == lines[0][j];
      forall j | 0 <= j < |s| && IsBreak(s[j]) ensures s[j] == '\n' || (s[j] == '\r' && At(s, j + 1) == '\n') {
        if j > |lines[0]| {
          assert s[j] == tail[j - |head|] && At(s, j + 1) == At(tail, j + 1 - |head|);
        }
      }
    }
  }

  /** As many lines, with the same text between the white space at their ends. */
  predicate SameLines(t: Tables, a: string, b: string)
  {
    var x, y := SplitLines(a), SplitLines(b);
    |x| == |y| && forall i | 0 <= i < |x| :: Strip(t, x[i]) == Strip(t, y[i])
  }

  lemma {:induction false} LayoutOfSameLines(t: Tables, x: seq<string>, y: seq<string>, q: Layouter)
    requires |x| == |y| && forall i | 0 <= i < |x| :: Strip(t, x[i]) == Strip(t, y[i])
    ensures Layout(t, x, q) == Layout(t, y, q)
  {
    hide Strip, Braces, LeadingCloses;
    if x != [] { LayoutOfSameLines(t, x[1..], y[1..], FormatLine(t, x[0], q).1); }
  }

  /** The formatter looks at nothing but the lines' text. */
  lemma {:induction false} FormatOfSameLines(t: Tables, a: string, b: string)
    requires SameLines(t, a, b)
    ensures Format(t, a) == Format(t, b)
  {
    LayoutOfSameLines(t, SplitLines(a), SplitLines(b), START);
  }

  /** Any source, whatever its separators, and any form of it with plain line ends and the same lines,
      that lexes: the formatted source has the tokens of that form if and only if its continued lines
      stay; and then formatting keeps the tokens of the source if and only if the form has them. */
  lemma {:induction false} SeparatorsKeepTokensIff(t: Tables, source: string, form: string)
    requires Sane(t) && OnlyLineFeeds(form) && SameLines(t, form, source) && Tokenize(t, form).Ok?
    ensures Tokenize(t, Format(t, source)) == Tokenize(t, form) <==> ContinuationsStay(t, "", form, START, LexState(0, []))
    ensures ContinuationsStay(t, "", form, START, LexState(0, [])) ==>
      (Tokenize(t, Format(t, source)) == Tokenize(t, source) <==> Tokenize(t, form) == Tokenize(t, source))
  {
    FormatOfSameLines(t, form, source);
    FormatKeepsTokensIff(t, form);
  }

  /** Two such forms that every source has: with "\n" for every separator, */
  lemma {:induction false} LineFeedsIsForm(t: Tables, s: string)
    ensures OnlyLineFeeds(LineFeeds(s)) && SameLines(t, LineFeeds(s), s)
  {
    SplitHasNoBreaks(s);
    SplitUnlines(SplitLines(s));
    UnlinesOnlyLineFeeds(SplitLines(s));
  }

  function TrimAll(t: Tables, lines: seq<string>): (r: seq<string>)
    ensures |r| == |lines| && forall i | 0 <= i < |lines| :: r[i] == Strip(t, lines[i])
  {
    if lines == [] then [] else [Strip(t, lines[0])] + TrimAll(t, lines[1..])
  }

  /** and with the white space at both ends of every line removed as well. */
  lemma {:induction false} TrimmedIsForm(t: Tables, s: string)
    requires Sane(t)
    ensures var form := Unlines(TrimAll(t, SplitLines(s))); OnlyLineFeeds(form) && SameLines(t, form, s)
  {
    hide Strip;
    var lines := SplitLines(s);
    var trimmed := TrimAll(t, lines);
    SplitHasNoBreaks(s);
    forall i | 0 <= i < |lines| ensures NoBreaks(trimmed[i]) && Strip(t, trimmed[i]) == trimmed[i] {
      StripStays(t, lines[i]);
    }
    SplitUnlines(trimmed);
    UnlinesOnlyLineFeeds(trimmed);
  }

  lemma {:induction false} StripStays(t: Tables, raw: string)
    requires Sane(t) && NoBreaks(raw)
    ensures NoBreaks(Strip(t, raw)) && Strip(t, Strip(t, raw)) == Strip(t, raw)
  {
    StripLeftIs(t, raw);
    StripRightIs(t, StripLeft(t, raw));
    assert t.space(' ') == AsciiSpace(' ');
    if Strip(t, raw) != "" {
      StripOfIndented(t, raw, 0);
      assert Indent(0) + Strip(t, raw) == Strip(t, raw);
    } else {
      NothingStrips(t);
    }
  }

  /** A line comment with a separator in it that only the formatter splits at:  // a <sep> b  */
  function SplitComment(a: string, sep: char, b: string): string { "//" + a + [sep] + b }

  lemma {:induction false} CommentLexes(t: Tables, a: string, z: string)
    requires Sane(t) && '\n' !in a && LineTail(z)
    ensures Lex(t, "//" + a + z, LexState(0, [])) == Lex(t, z, LexState(0, []))
  {
    hide Sane;
    var s := "//" + a + z;
    assert ("//" + a) + "" + z == s;
    LineEndLocal("//" + a, "", z);
    assert s[|"//" + a|..] == z;
    LexLineComment(t, s, LexState(0, []));
  }

  lemma {:induction false} LineEndIsBreak(a: string)
    requires NoBreaks(a)
    ensures '\n' !in a
  {
  }

  lemma {:induction false} CommentSplits(a: string, sep: char, b: string)
    requires NoBreaks(a) && NoBreaks(b) && IsBreak(sep) && sep != '\n'
    ensures SplitLines(SplitComment(a, sep, b)) == ["//" + a] + (if b == "" then [] else [b])
  {
    var s := SplitComment(a, sep, b);
    var n := |"//" + a|;
    assert forall j | 0 <= j < n :: s[j] == ("//" + a)[j];
    assert s[n] == sep && s[..n] == "//" + a && s[n + 1..] == b;
    assert BreakAt(s) == n;
    assert BreakLength(s, n) == 1;
    assert BreakAt(b) == |b|;
  }

  /** What is stripped off a line comment lies behind its two slashes. */
  lemma {:induction false} CommentStrips(t: Tables, a: string) returns (rest: string)
    requires Sane(t) && NoBreaks(a)
    ensures Strip(t, "//" + a) == "//" + rest && '\n' !in rest
  {
    var s := "//" + a;
    assert !t.space('/') by { assert t.space('/') == AsciiSpace('/'); }
    assert StripLeft(t, s) == s;
    StripRightIs(t, s);
    var k := |StripRight(t, s)|;
    assert s[1] == '/';
    assert k >= 2;
    rest := s[2..k];
    assert forall i | 0 <= i < |rest| :: rest[i] == a[i];
  }

  lemma {:induction false} CommentLine(t: Tables, a: string, text: string)
    requires Sane(t) && text == Strip(t, "//" + a) && "//" <= text
    ensures FormatLine(t, "//" + a, START) == ([text], Layouter(0, 0, true, false))
  {
    hide Strip;
    var b := Scanner(0, None, false, 0, 0);
    assert !t.space('/') by { assert t.space('/') == AsciiSpace('/'); }
    assert ScanStep(text, 0, b) == (|text|, b);
    assert BraceScan(text, |text|, b) == b;
    assert Braces(text, 0) == b;
    assert LeadingCloses(t, text) == 0;
    assert Indent(0) + text == text;
  }

  lemma {:induction false} TailLine(t: Tables, b: string)
    ensures FormatLine(t, b, Layouter(0, 0, true, false)).0 == [Strip(t, b)]
  {
    hide Strip, Braces, LeadingCloses;
    assert Indent(0) + Strip(t, b) == Strip(t, b);
  }

  /** The formatted lines, without the blank one. */
  lemma {:induction false} CommentFormats(t: Tables, a: string, sep: char, b: string) returns (rest: string)
    requires Sane(t) && NoBreaks(a) && NoBreaks(b) && IsBreak(sep) && sep != '\n'
    ensures '\n' !in rest
    ensures Format(t, SplitComment(a, sep, b)) == "//" + rest + ("\n" + (if Strip(t, b) == "" then "" else Strip(t, b) + "\n"))
  {
    hide Sane, Strip, NoBreaks, FormatLine, SplitLines;
    rest := CommentStrips(t, a);
    var first, second := "//" + rest, Strip(t, b);
    var q := Layouter(0, 0, true, false);
    CommentSplits(a, sep, b);
    CommentLine(t, a, first);
    TailLine(t, b);
    assert Strip(t, "") == "" by { NothingStrips(t); }
    LayoutStep(t, "//" + a, if b == "" then [] else [b], START);
    LayoutStep(t, b, [], q);
    assert [b] + [] == [b] && ["//" + a] + [] == ["//" + a];
    assert Layout(t, [], FormatLine(t, b, q).1) == [] && Layout(t, [], q) == [];
    var all := Layout(t, SplitLines(SplitComment(a, sep, b)), START);
    assert all == if b == "" then [first] else [first, second];
    hide Layout;
    TwoLinesWritten(first, second);
  }

  /** One or two lines, without a blank one at the end. */
  lemma {:induction false} TwoLinesWritten(first: string, second: string)
    requires first != ""
    ensures DropBlankEnd([first]) == [first] && Unlines([first]) == first + ("\n" + "")
    ensures var lines := DropBlankEnd([first, second]);
      lines == (if second == "" then [first] else [first, second])
      && Unlines(lines) == first + ("\n" + (if second == "" then "" else second + "\n"))
  {
    assert [first, second][..1] == [first];
    assert [first][1..] == [] && [second][1..] == [] && [first, second][1..] == [second];
    assert Unlines([first]) == first + "\n" + "";
    assert Unlines([second]) == second + "\n" + "";
    assert Unlines([first, second]) == first + "\n" + (second + "\n" + "");
    assert first + "\n" + (second + "\n" + "") == first + ("\n" + (second + "\n"));
  }

  lemma {:induction false} NothingStrips(t: Tables)
    ensures Strip(t, "") == ""
  {
  }

  lemma {:induction false} NoTokensBehind(t: Tables, text: string)
    requires Sane(t)
    ensures Tokenize(t, text + "\n") == Ok([]) <==> Tokenize(t, text) == Ok([])
  {
    hide Sane, Lex;
    var st := LexState(0, []);
    if Lex(t, text, st).Ok? { LineEndBehind(t, text, st); }
    if Lex(t, text + "\n", st).Ok? && Lex(t, text + "\n", st).value.tokens == [] {
      assert text + "" + "\n" == text + "\n";
      assert Spaces(t, "") && LineTail("\n") && AllOnOneLine([]);
      Cut(t, text, "", "\n", st);
      NewLine(t, "", Lex(t, text, st).value);
      LexEnd(t, Lex(t, text, st).value);
      assert "\n" + "" == "\n";
    }
  }

  /** It is one comment to the lexer and two lines to the formatter, so formatting keeps its tokens,
      of which there are none, exactly if there are none behind the separator. */
  lemma {:induction false} SplitCommentIff(t: Tables, a: string, sep: char, b: string)
    requires Sane(t) && NoBreaks(a) && NoBreaks(b) && IsBreak(sep) && sep != '\n'
    ensures Tokenize(t, SplitComment(a, sep, b)) == Ok([])
    ensures Tokenize(t, Format(t, SplitComment(a, sep, b))) == Ok([]) <==> Tokenize(t, Strip(t, b)) == Ok([])
  {
    hide Sane, Lex, Strip, NoBreaks, Format;
    var s, st := SplitComment(a, sep, b), LexState(0, []);
    LineEndIsBreak(a);
    LineEndIsBreak(b);
    assert s == "//" + (a + [sep] + b) + "";
    CommentLexes(t, a + [sep] + b, "");
    LexEnd(t, st);
    var rest := CommentFormats(t, a, sep, b);
    var text := Strip(t, b);
    var more := if text == "" then "" else text + "\n";
    CommentLexes(t, rest, "\n" + more);
    NewLine(t, more, st);
    NoTokensBehind(t, text);
  }

  /** // <sep> <unit separator> // : Python strips the unit separator as white space, the lexer does
      not skip it. */
  function HiddenSpace(sep: char): string { SplitComment("", sep, ['\U{1f}'] + "//") }

  /** So a source can be lexable and keep its tokens although its line-feed form does not even lex. */
  lemma {:induction false} LineFeedFormMayFail(t: Tables, sep: char)
    requires Sane(t) && IsBreak(sep) && sep != '\n'
    ensures var s := HiddenSpace(sep);
      && Tokenize(t, s) == Ok([]) && Tokenize(t, Format(t, s)) == Ok([])
      && Tokenize(t, LineFeeds(s)).Failed?
  {
    hide Lex, Format;
    var b := ['\U{1f}'] + "//";
    HiddenStrips(t, b);
    var st := LexState(0, []);
    CommentLexes(t, "", "");
    LexEnd(t, st);
    assert "//" + "" + "" == "//";
    SplitCommentIff(t, "", sep, b);
    CommentSplits("", sep, b);
    assert "//" + "" == "//" && ["//"] + [b] == ["//", b];
    assert ["//", b][1..] == [b] && [b][1..] == [];
    assert Unlines([b]) == b + "\n" + "";
    assert Unlines(["//", b]) == "//" + "\n" + (b + "\n" + "");
    var rest := b + "\n";
    assert LineFeeds(HiddenSpace(sep)) == "//" + "" + ("\n" + rest);
    CommentLexes(t, "", "\n" + rest);
    NewLine(t, rest, st);
    assert rest[0] == '\U{1f}';
    SpaceScansNothing(t, rest, false);
    LexToken(t, rest, st);
  }

  lemma {:induction false} HiddenStrips(t: Tables, b: string)
    requires Sane(t) && b == ['\U{1f}'] + "//"
    ensures NoBreaks(b) && t.space(b[0]) && Strip(t, b) == "//"
  {
    assert t.space('\U{1f}') == AsciiSpace('\U{1f}') && t.space('/') == AsciiSpace('/');
    assert b[1..] == "//";
    assert StripLeft(t, "//") == "//" && StripLeft(t, b) == "//" && StripRight(t, "//") == "//";
  }
}
