/** The source formatter: a line scanner that re-indents and trims, knowing only braces, quotes and
    comments. Its loops are proved against functions, and formatting twice is formatting once. */
module Formatting {
  import opened MortSyntax
  import opened Lexing

  // ----- lines and white space, as Python's strings have them -----

  /** Where str.splitlines breaks. */
  predicate IsBreak(c: char)
  {
    '\n' <= c <= '\r' || '\U{1c}' <= c <= '\U{1e}' || c == '\U{85}' || c == '\U{2028}' || c == '\U{2029}'
  }

  function BreakAt(s: string): (n: nat)
    ensures n <= |s|
    ensures forall j | 0 <= j < n :: !IsBreak(s[j])
    ensures n < |s| ==> IsBreak(s[n])
  {
    if s == "" || IsBreak(s[0]) then 0 else 1 + BreakAt(s[1..])
  }

  function BreakLength(s: string, n: nat): nat
    requires n < |s|
  {
    if s[n] == '\r' && At(s, n + 1) == '\n' then 2 else 1
  }

  function SplitLines(s: string): seq<string>
    decreases |s|
  {
    if s == "" then []
    else
      var n := BreakAt(s);
      if n == |s| then [s] else [s[..n]] + SplitLines(s[n + BreakLength(s, n)..])
  }

  function StripLeft(t: Tables, s: string): string
  {
    if s != "" && t.space(s[0]) then StripLeft(t, s[1..]) else s
  }

  function StripRight(t: Tables, s: string): string
  {
    if s != "" && t.space(s[|s| - 1]) then StripRight(t, s[..|s| - 1]) else s
  }

  function Strip(t: Tables, s: string): string { StripRight(t, StripLeft(t, s)) }

  function Indent(n: nat): string
  {
    if n == 0 then "" else "    " + Indent(n - 1)
  }

  /** Every line with its line end. */
  function Unlines(lines: seq<string>): string
  {
    if lines == [] then "" else lines[0] + "\n" + Unlines(lines[1..])
  }

  // ----- braces -----

  datatype Scanner = Scanner(block: nat, quote: Option<char>, escaped: bool, opens: nat, closes: nat)

  /** One round of the scan at index i: the next index (past the end to stop) and state. */
  function ScanStep(line: string, i: nat, b: Scanner): (nat, Scanner)
    requires i < |line|
  {
    var c, following := line[i], At(line, i + 1);
    if b.block > 0 then
      if c == '/' && following == '*' then (i + 2, b.(block := b.block + 1))
      else if c == '*' && following == '/' then (i + 2, b.(block := b.block - 1))
      else (i + 1, b)
    else if b.quote.None? && c == '/' && following == '/' then (|line|, b)
    else if b.quote.None? && c == '/' && following == '*' then (i + 2, b.(block := 1))
    else if b.quote.Some? then
      if b.escaped then (i + 1, b.(escaped := false))
      else if c == '\\' then (i + 1, b.(escaped := true))
      else if c == b.quote.value then (i + 1, b.(quote := None))
      else (i + 1, b)
    else if c == '"' || c == '\'' then (i + 1, b.(quote := Some(c)))
    else if c == '{' then (i + 1, b.(opens := b.opens + 1))
    else if c == '}' then (i + 1, b.(closes := b.closes + 1))
    else (i + 1, b)
  }

  function BraceScan(line: string, i: nat, b: Scanner): Scanner
    decreases |line| - i
  {
    if i >= |line| then b
    else
      var (j, b1) := ScanStep(line, i, b);
      BraceScan(line, j, b1)
  }

  function Braces(line: string, block: nat): Scanner { BraceScan(line, 0, Scanner(block, None, false, 0, 0)) }

  /** Structural braces outside literals and nested comments. */
  method BraceDelta(line: string, blockDepth: nat) returns (opens: nat, closes: nat, depth: nat)
    ensures var b := Braces(line, blockDepth); opens == b.opens && closes == b.closes && depth == b.block
  {
    opens, closes, depth := 0, 0, blockDepth;
    var quote: Option<char> := None;
    var escaped := false;
    var index := 0;
    while index < |line|
      invariant BraceScan(line, index, Scanner(depth, quote, escaped, opens, closes)) == Braces(line, blockDepth)
      decreases |line| - index
    {
      var c := line[index];
      var following := At(line, index + 1);
      if depth > 0 {
        if c == '/' && following == '*' {
          depth, index := depth + 1, index + 2;
        } else if c == '*' && following == '/' {
          depth, index := depth - 1, index + 2;
        } else {
          index := index + 1;
        }
        continue;
      }
      if quote.None? && c == '/' && following == '/' {
        index := |line|;
        break;
      }
      if quote.None? && c == '/' && following == '*' {
        depth, index := 1, index + 2;
        continue;
      }
      if quote.Some? {
        if escaped {
          escaped := false;
        } else if c == '\\' {
          escaped := true;
        } else if c == quote.value {
          quote := None;
        }
      } else if c == '"' || c == '\'' {
        quote := Some(c);
      } else if c == '{' {
        opens := opens + 1;
      } else if c == '}' {
        closes := closes + 1;
      }
      index := index + 1;
    }
  }

  /** The closing braces a line starts with. */
  function LeadingCloses(t: Tables, text: string): nat
  {
    if text == "" then 0
    else if text[0] == '}' then 1 + LeadingCloses(t, text[1..])
    else if t.space(text[0]) then LeadingCloses(t, text[1..])
    else 0
  }

  // ----- the formatter -----

  /** Between lines: brace depth, open block comments, whether a line was written, whether the last
      source line was blank. */
  datatype Layouter = Layouter(depth: nat, block: nat, started: bool, blank: bool)

  function Clamp(n: int): nat { if n < 0 then 0 else n }

  function FormatLine(t: Tables, raw: string, q: Layouter): (seq<string>, Layouter)
  {
    var text := Strip(t, raw);
    if text == "" then (if q.started && !q.blank then [""] else [], q.(blank := true))
    else
      var b := Braces(text, q.block);
      var leading := if q.block > 0 then 0 else LeadingCloses(t, text);
      ([Indent(Clamp(q.depth - leading)) + text], Layouter(Clamp(q.depth + b.opens - b.closes), b.block, true, false))
  }

  function Layout(t: Tables, lines: seq<string>, q: Layouter): seq<string>
  {
    if lines == [] then []
    else
      var (out, q1) := FormatLine(t, lines[0], q);
      out + Layout(t, lines[1..], q1)
  }

  function DropBlankEnd(lines: seq<string>): seq<string>
  {
    if lines != [] && lines[|lines| - 1] == "" then DropBlankEnd(lines[..|lines| - 1]) else lines
  }

  const START := Layouter(0, 0, false, false)

  function OutputLines(t: Tables, source: string): seq<string>
  {
    DropBlankEnd(Layout(t, SplitLines(source), START))
  }

  function Format(t: Tables, source: string): string
  {
    var lines := OutputLines(t, source);
    if lines == [] then "\n" else Unlines(lines)
  }

  lemma {:induction false} LayoutSplit(t: Tables, lines: seq<string>, n: nat, q: Layouter) returns (q1: Layouter)
    requires n < |lines|
    ensures Layout(t, lines[..n + 1], q) == Layout(t, lines[..n], q) + FormatLine(t, lines[n], StateAfter(t, lines[..n], q)).0
    ensures StateAfter(t, lines[..n + 1], q) == FormatLine(t, lines[n], StateAfter(t, lines[..n], q)).1
    decreases n
  {
    hide FormatLine;
    if n == 0 {
      assert lines[..1][1..] == [];
      q1 := q;
    } else {
      q1 := FormatLine(t, lines[0], q).1;
      assert lines[..n + 1][1..] == lines[1..][..n] && lines[..n][1..] == lines[1..][..n - 1];
      var _ := LayoutSplit(t, lines[1..], n - 1, q1);
    }
  }

  function StateAfter(t: Tables, lines: seq<string>, q: Layouter): Layouter
  {
    if lines == [] then q else StateAfter(t, lines[1..], FormatLine(t, lines[0], q).1)
  }

  method CountLeadingCloses(t: Tables, text: string) returns (n: nat)
    ensures n == LeadingCloses(t, text)
  {
    n := 0;
    for i := 0 to |text|
      invariant n + LeadingCloses(t, text[i..]) == LeadingCloses(t, text)
    {
      assert text[i..][1..] == text[i + 1..];
      if text[i] == '}' {
        n := n + 1;
      } else if !t.space(text[i]) {
        return;
      }
    }
  }

  /** `format_source`. */
  method FormatSource(t: Tables, source: string) returns (formatted: string)
    ensures formatted == Format(t, source)
  {
    var output: seq<string> := [];
    var depth: nat := 0;
    var blockDepth: nat := 0;
    var blank := false;
    var lines := SplitLines(source);
    for i := 0 to |lines|
      invariant output == Layout(t, lines[..i], START)
      invariant var q := StateAfter(t, lines[..i], START);
        q.depth == depth && q.block == blockDepth && q.blank == blank && q.started == (output != [])
    {
      ghost var _ := LayoutSplit(t, lines, i, START);
      var text := Strip(t, lines[i]);
      if text == "" {
        if output != [] && !blank { output := output + [""]; }
        blank := true;
        continue;
      }
      blank := false;
      var startedInBlockComment := blockDepth > 0;
      var opens, closes, block := BraceDelta(text, blockDepth);
      blockDepth := block;
      var leadingCloses := 0;
      if !startedInBlockComment {
        leadingCloses := CountLeadingCloses(t, text);
      }
      var lineDepth := Clamp(depth - leadingCloses);
      output := output + [Indent(lineDepth) + text];
      depth := Clamp(depth + opens - closes);
    }
    assert lines[..|lines|] == lines;
    while output != [] && output[|output| - 1] == ""
      invariant DropBlankEnd(output) == OutputLines(t, source)
    {
      output := output[..|output| - 1];
    }
    formatted := if output == [] then "\n" else Unlines(output);
  }

  // ----- formatting is idempotent -----

  lemma {:induction false} StripLeftIs(t: Tables, s: string)
    ensures StripLeft(t, s) != "" ==> !t.space(StripLeft(t, s)[0])
    ensures |StripLeft(t, s)| <= |s| && StripLeft(t, s) == s[|s| - |StripLeft(t, s)|..]
    ensures forall j | 0 <= j < |s| - |StripLeft(t, s)| :: t.space(s[j])
  {
    if s != "" && t.space(s[0]) {
      StripLeftIs(t, s[1..]);
      assert forall j | 1 <= j < |s| - |StripLeft(t, s)| :: s[j] == s[1..][j - 1];
    }
  }

  lemma {:induction false} StripRightIs(t: Tables, s: string)
    ensures StripRight(t, s) != "" ==> !t.space(StripRight(t, s)[|StripRight(t, s)| - 1])
    ensures |StripRight(t, s)| <= |s| && StripRight(t, s) == s[..|StripRight(t, s)|]
    ensures forall j | |StripRight(t, s)| <= j < |s| :: t.space(s[j])
  {
    if s != "" && t.space(s[|s| - 1]) { StripRightIs(t, s[..|s| - 1]); }
  }

  lemma {:induction false} StripOfIndented(t: Tables, raw: string, n: nat)
    requires t.space(' ') && Strip(t, raw) != ""
    ensures Strip(t, Indent(n) + Strip(t, raw)) == Strip(t, raw)
  {
    var text := Strip(t, raw);
    StripLeftIs(t, raw);
    StripRightIs(t, StripLeft(t, raw));
    IndentStrips(t, n, text);
  }

  lemma {:induction false} IndentStrips(t: Tables, n: nat, text: string)
    requires t.space(' ') && text != "" && !t.space(text[0])
    ensures StripLeft(t, Indent(n) + text) == text
  {
    if n == 0 {
      assert "" + text == text;
    } else {
      var rest := Indent(n - 1) + text;
      assert Indent(n) + text == "    " + rest;
      FourSpaces(t, rest);
      IndentStrips(t, n - 1, text);
    }
  }

  lemma {:induction false} FourSpaces(t: Tables, rest: string)
    requires t.space(' ')
    ensures StripLeft(t, "    " + rest) == StripLeft(t, rest)
  {
    hide StripLeft;
    var one := [' '] + rest;
    var two := [' '] + one;
    var three := [' '] + two;
    OneSpace(t, rest);
    OneSpace(t, one);
    OneSpace(t, two);
    OneSpace(t, three);
    assert "    " + rest == [' '] + three;
  }

  lemma {:induction false} OneSpace(t: Tables, rest: string)
    requires t.space(' ')
    ensures StripLeft(t, [' '] + rest) == StripLeft(t, rest)
  {
    assert ([' '] + rest)[1..] == rest;
  }

  /** Lines that the formatter reproduces as they are. */
  predicate Stable(t: Tables, lines: seq<string>, q: Layouter)
  {
    lines == [] ||
    var (out, q1) := FormatLine(t, lines[0], q);
    out == [lines[0]] && Stable(t, lines[1..], q1)
  }

  lemma {:induction false} StableLayout(t: Tables, lines: seq<string>, q: Layouter)
    requires Stable(t, lines, q)
    ensures Layout(t, lines, q) == lines
  {
    if lines != [] { StableLayout(t, lines[1..], FormatLine(t, lines[0], q).1); }
  }

  lemma {:induction false} StablePrefix(t: Tables, lines: seq<string>, n: nat, q: Layouter)
    requires Stable(t, lines, q) && n <= |lines|
    ensures Stable(t, lines[..n], q)
  {
    if n > 0 {
      StablePrefix(t, lines[1..], n - 1, FormatLine(t, lines[0], q).1);
      assert lines[..n][1..] == lines[1..][..n - 1];
    }
  }

  /** Before anything is written, blank lines make no difference. */
  lemma {:induction false} BlankStart(t: Tables, lines: seq<string>, q: Layouter)
    requires Stable(t, lines, q.(blank := true)) && !q.started
    ensures Stable(t, lines, q)
  {
    if lines != [] { assert Strip(t, lines[0]) != ""; }
  }

  /** What the formatter writes, it would write again. */
  lemma {:induction false} LayoutIsStable(t: Tables, lines: seq<string>, q: Layouter)
    requires t.space(' ')
    ensures Stable(t, Layout(t, lines, q), q)
  {
    if lines != [] {
      var (out, q1) := FormatLine(t, lines[0], q);
      var rest := Layout(t, lines[1..], q1);
      LayoutIsStable(t, lines[1..], q1);
      var text := Strip(t, lines[0]);
      if text == "" {
        if q.started && !q.blank {
          assert ([""] + rest)[1..] == rest;
          assert Strip(t, "") == "";
        } else {
          assert [] + rest == rest;
          if !q.blank { BlankStart(t, rest, q); } else { assert q1 == q; }
        }
      } else {
        var leading := if q.block > 0 then 0 else LeadingCloses(t, text);
        var line := Indent(Clamp(q.depth - leading)) + text;
        assert out == [line];
        StripOfIndented(t, lines[0], Clamp(q.depth - leading));
        assert ([line] + rest)[1..] == rest;
      }
    }
  }

  predicate NoBreaks(s: string)
  {
    forall j | 0 <= j < |s| :: !IsBreak(s[j])
  }

  lemma {:induction false} SplitHasNoBreaks(s: string)
    ensures forall i | 0 <= i < |SplitLines(s)| :: NoBreaks(SplitLines(s)[i])
    decreases |s|
  {
    if s != "" {
      var n := BreakAt(s);
      if n < |s| { SplitHasNoBreaks(s[n + BreakLength(s, n)..]); }
    }
  }

  lemma {:induction false} IndentHasNoBreaks(n: nat)
    ensures NoBreaks(Indent(n))
  {
    if n > 0 { IndentHasNoBreaks(n - 1); }
  }

  lemma {:induction false} LayoutHasNoBreaks(t: Tables, lines: seq<string>, q: Layouter)
    requires forall i | 0 <= i < |lines| :: NoBreaks(lines[i])
    ensures forall i | 0 <= i < |Layout(t, lines, q)| :: NoBreaks(Layout(t, lines, q)[i])
  {
    if lines != [] {
      var (out, q1) := FormatLine(t, lines[0], q);
      LayoutHasNoBreaks(t, lines[1..], q1);
      var text := Strip(t, lines[0]);
      assert NoBreaks(text) by {
        StripLeftIs(t, lines[0]);
        StripRightIs(t, StripLeft(t, lines[0]));
      }
      if text != "" {
        var leading := if q.block > 0 then 0 else LeadingCloses(t, text);
        IndentHasNoBreaks(Clamp(q.depth - leading));
        assert NoBreaks(out[0]);
      }
      assert forall i | 0 <= i < |out| :: NoBreaks(out[i]);
    }
  }

  lemma {:induction false} SplitUnlines(lines: seq<string>)
    requires forall i | 0 <= i < |lines| :: NoBreaks(lines[i])
    ensures SplitLines(Unlines(lines)) == lines
  {
    hide NoBreaks, SplitLines;
    if lines == [] {
      NoLines();
    } else {
      var rest := Unlines(lines[1..]);
      SplitFirst(lines[0], rest);
      SplitUnlines(lines[1..]);
    }
  }

  lemma NoLines()
    ensures SplitLines("") == []
  {
  }

  lemma {:induction false} SplitFirst(line: string, rest: string)
    requires NoBreaks(line)
    ensures SplitLines(line + "\n" + rest) == [line] + SplitLines(rest)
  {
    hide NoBreaks, BreakAt, IsBreak;
    var s := line + "\n" + rest;
    BreakAfter(line, rest);
    assert s[|line|] == '\n' && s[..|line|] == line && s[|line| + 1..] == rest;
  }

  lemma {:induction false} BreakAfter(line: string, rest: string)
    requires NoBreaks(line)
    ensures BreakAt(line + "\n" + rest) == |line|
  {
    var s := line + "\n" + rest;
    assert s[|line|] == '\n';
    assert forall j | 0 <= j < |line| :: s[j] == line[j];
  }

  lemma {:induction false} DropBlankEndIs(lines: seq<string>)
    ensures |DropBlankEnd(lines)| <= |lines| && DropBlankEnd(lines) == lines[..|DropBlankEnd(lines)|]
    ensures DropBlankEnd(DropBlankEnd(lines)) == DropBlankEnd(lines)
  {
    if lines != [] && lines[|lines| - 1] == "" { DropBlankEndIs(lines[..|lines| - 1]); }
  }

  /** Formatting formatted text changes nothing, whatever the text. */
  lemma {:induction false} FormatIsIdempotent(t: Tables, source: string)
    requires t.space(' ')
    ensures Format(t, Format(t, source)) == Format(t, source)
  {
    var all := Layout(t, SplitLines(source), START);
    var lines := DropBlankEnd(all);
    DropBlankEndIs(all);
    if lines == [] {
      BreakAfter("", "");
      assert SplitLines("\n") == [""] by { assert "" + "\n" + "" == "\n"; assert "\n"[1..] == ""; }
      assert Strip(t, "") == "";
      assert [""][1..] == [];
      assert Layout(t, [""], START) == [];
    } else {
      LayoutIsStable(t, SplitLines(source), START);
      StablePrefix(t, all, |lines|, START);
      StableLayout(t, lines, START);
      SplitHasNoBreaks(source);
      LayoutHasNoBreaks(t, SplitLines(source), START);
      SplitUnlines(lines);
    }
  }
}
