/** The emitted lines determine the program: a reader of C lines gets back the code that the meaning
    theorem is about, up to a form of it that runs alike. */
module EmittedLines {
  import opened MortSyntax
  import opened MortSemantics
  import opened CleanupLowering
  import opened EvaluationFacts
  import opened CleanupTheorem
  import opened FunctionTheorem
  import opened CodeGenerator

  // ----- the same code with every ladder spelled as C reads it -----

  /** A ladder without rungs is nothing, one bare block a block, one rung without `else` an `if`. */
  function Plain(c: Code): Code
  {
    match c
    case Nop => Nop
    case Seq(s, rest) => if s == CLadder(NoRungs) then Plain(rest) else Seq(PlainStmt(s), Plain(rest))
  }

  function PlainStmt(s: CStmt): CStmt
  {
    match s
    case CIf(c, thn, els) => CIf(c, Plain(thn), Plain(els))
    case CIfOnly(c, thn) => CIfOnly(c, Plain(thn))
    case CWhile(c, body) => CWhile(c, Plain(body))
    case CFor(x, lo, hi, inclusive, body) => CFor(x, lo, hi, inclusive, Plain(body))
    case CBlock(body) => CBlock(Plain(body))
    case CLadder(Otherwise(body)) => CBlock(Plain(body))
    case CLadder(Rung(c, body, NoRungs)) => CIfOnly(c, Plain(body))
    case CLadder(rungs) => CLadder(PlainRungs(rungs))
    case _ => s
  }

  function PlainRungs(rungs: Rungs): Rungs
  {
    match rungs
    case NoRungs => NoRungs
    case Rung(c, body, rest) => Rung(c, Plain(body), PlainRungs(rest))
    case Otherwise(body) => Otherwise(Plain(body))
  }

  lemma {:induction false} PlainRunsAlike(c: Code, st: State, fuel: nat)
    ensures RunCode(Plain(c), st, fuel) == RunCode(c, st, fuel)
    decreases fuel, c, 0
  {
    hide Eval;
    match c
    case Nop =>
    case Seq(s, rest) =>
      if s == CLadder(NoRungs) {
        assert RunC(s, st, fuel) == (Normal, st);
        PlainRunsAlike(rest, st, fuel);
      } else {
        PlainStmtRunsAlike(s, st, fuel);
        PlainRunsAlike(rest, RunC(s, st, fuel).1, fuel);
      }
  }

  lemma {:induction false} PlainStmtRunsAlike(s: CStmt, st: State, fuel: nat)
    requires s != CLadder(NoRungs)
    ensures RunC(PlainStmt(s), st, fuel) == RunC(s, st, fuel)
    decreases fuel, s, 0
  {
    hide Eval;
    match s
    case CIf(c, thn, els) =>
      var st1 := Eval(c, st).1;
      PlainRunsAlike(thn, st1, fuel);
      PlainRunsAlike(els, st1, fuel);
    case CIfOnly(c, thn) => PlainRunsAlike(thn, Eval(c, st).1, fuel);
    case CWhile(c, body) => PlainWhile(c, body, st, fuel);
    case CFor(x, lo, hi, inclusive, body) =>
      var first := AsInt(ReadTemp(st, lo));
      PlainFor(x, hi, inclusive, ForStarts(first, AsInt(ReadTemp(st, hi)), inclusive), body, DeclareCell(st, x, Num(first), NoFlag), fuel);
    case CBlock(body) => PlainRunsAlike(body, st, fuel);
    case CLadder(rungs) => PlainLadder(rungs, st, fuel);
    case _ =>
  }

  lemma {:induction false} PlainLadder(rungs: Rungs, st: State, fuel: nat)
    requires rungs != NoRungs
    ensures RunC(PlainStmt(CLadder(rungs)), st, fuel) == RunRungs(rungs, st, fuel)
    decreases fuel, rungs, 1
  {
    hide Eval;
    match rungs
    case Otherwise(body) => PlainRunsAlike(body, st, fuel);
    case Rung(c, body, NoRungs) =>
      var st1 := Eval(c, st).1;
      PlainRunsAlike(body, st1, fuel);
      assert RunRungs(NoRungs, st1, fuel) == (Normal, st1);
    case Rung(_, _, _) => PlainRungsRunAlike(rungs, st, fuel);
  }

  lemma {:induction false} PlainRungsRunAlike(rungs: Rungs, st: State, fuel: nat)
    ensures RunRungs(PlainRungs(rungs), st, fuel) == RunRungs(rungs, st, fuel)
    decreases fuel, rungs, 0
  {
    hide Eval;
    match rungs
    case NoRungs =>
    case Rung(c, body, rest) =>
      PlainRunsAlike(body, Eval(c, st).1, fuel);
      PlainRungsRunAlike(rest, Eval(c, st).1, fuel);
    case Otherwise(body) => PlainRunsAlike(body, st, fuel);
  }

  lemma {:induction false} PlainWhile(c: Expr, body: Code, st: State, fuel: nat)
    ensures RunWhile(c, Plain(body), st, fuel) == RunWhile(c, body, st, fuel)
    decreases fuel, body, 1
  {
    hide Eval;
    if fuel > 0 {
      var st1 := Eval(c, st).1;
      PlainRunsAlike(body, st1, fuel - 1);
      PlainWhile(c, body, RunBlock(body, st1, fuel - 1).1, fuel - 1);
    }
  }

  lemma {:induction false} PlainFor(x: Name, hi: Temp, inclusive: bool, more: bool, body: Code, st: State, fuel: nat)
    ensures RunFor(x, hi, inclusive, more, Plain(body), st, fuel) == RunFor(x, hi, inclusive, more, body, st, fuel)
    decreases fuel, body, 1
  {
    if fuel > 0 {
      PlainRunsAlike(body, st, fuel - 1);
      var st1 := RunBlock(body, st, fuel - 1).1;
      var (again, st2) := ForStep(x, AsInt(ReadTemp(st1, hi)), inclusive, st1);
      PlainFor(x, hi, inclusive, again, body, st2, fuel - 1);
    }
  }

  // ----- reading the lines -----

  /** A line that does not start a statement. */
  predicate Ends(l: seq<Line>) { l == [] || l[0] == Close || l[0] == OpenElse }

  /** A line that goes on with a rung. */
  predicate GoesOn(l: seq<Line>) { l != [] && (l[0].OpenElseIf? || l[0] == OpenElseBlock) }

  type Read<T> = Option<(T, seq<Line>)>

  /** The lines behind a closing brace. */
  function Behind<T>(body: Read<T>): Option<seq<Line>>
  {
    if body.Some? && body.value.1 != [] && body.value.1[0] == Close then Some(body.value.1[1..]) else None
  }

  /** Statements up to the enclosing brace; None for lines that no C block consists of. */
  function ReadCode(l: seq<Line>): (r: Read<Code>)
    ensures r.Some? ==> |r.value.1| <= |l|
    decreases |l|, 1
  {
    if Ends(l) then Some((Nop, l))
    else
      var s := ReadStmt(l);
      if s.None? then None
      else
        var rest := ReadCode(s.value.1);
        if rest.None? then None else Some((Seq(s.value.0, rest.value.0), rest.value.1))
  }

  function ReadStmt(l: seq<Line>): (r: Read<CStmt>)
    requires l != []
    ensures r.Some? ==> |r.value.1| < |l|
    decreases |l|, 0
  {
    match l[0]
    case Statement(s) => Some((s, l[1..]))
    case OpenIf(c) =>
      var thn := ReadCode(l[1..]);
      if thn.Some? && thn.value.1 != [] && thn.value.1[0] == OpenElse then
        var els := ReadCode(thn.value.1[1..]);
        if Behind(els).None? then None else Some((CIf(c, thn.value.0, els.value.0), Behind(els).value))
      else if Behind(thn).None? then None
      else if GoesOn(Behind(thn).value) then
        var rungs := ReadRungs(Behind(thn).value);
        if rungs.None? then None else Some((CLadder(Rung(c, thn.value.0, rungs.value.0)), rungs.value.1))
      else Some((CIfOnly(c, thn.value.0), Behind(thn).value))
    case OpenWhile(c) =>
      var body := ReadCode(l[1..]);
      if Behind(body).None? then None else Some((CWhile(c, body.value.0), Behind(body).value))
    case OpenFor(x, lo, hi, inclusive) =>
      var body := ReadCode(l[1..]);
      if Behind(body).None? then None else Some((CFor(x, lo, hi, inclusive, body.value.0), Behind(body).value))
    case OpenBlock =>
      var body := ReadCode(l[1..]);
      if Behind(body).None? then None else Some((CBlock(body.value.0), Behind(body).value))
    case _ => None
  }

  function ReadRungs(l: seq<Line>): (r: Read<Rungs>)
    ensures r.Some? ==> |r.value.1| <= |l|
    decreases |l|, 0
  {
    if !GoesOn(l) then Some((NoRungs, l))
    else
      var body := ReadCode(l[1..]);
      if Behind(body).None? then None
      else if l[0] == OpenElseBlock then Some((Otherwise(body.value.0), Behind(body).value))
      else
        var rest := ReadRungs(Behind(body).value);
        if rest.None? then None else Some((Rung(l[0].cond, body.value.0, rest.value.0), rest.value.1))
  }

  // ----- what was emitted is read back -----

  lemma {:induction false} StmtStarts(s: CStmt)
    requires s != CLadder(NoRungs)
    ensures var l := FlattenStmt(s);
      l != [] && !Ends(l) && !GoesOn(l)
  {
  }

  lemma {:induction false} CodeStarts(c: Code, x: seq<Line>)
    requires !GoesOn(x)
    ensures !GoesOn(Flatten(c) + x)
  {
    match c
    case Nop => assert [] + x == x;
    case Seq(s, rest) =>
      if s == CLadder(NoRungs) {
        assert Flatten(c) + x == Flatten(rest) + x;
        CodeStarts(rest, x);
      } else {
        StmtStarts(s);
        assert (Flatten(c) + x)[0] == FlattenStmt(s)[0];
      }
  }

  /** The reader gets the code back from its lines, whatever follows behind the enclosing brace. */
  lemma {:induction false} ReadsBack(c: Code, x: seq<Line>)
    requires Ends(x)
    ensures ReadCode(Flatten(c) + x) == Some((Plain(c), x))
    decreases c, 0
  {
    hide FlattenStmt, ReadStmt, PlainStmt;
    match c
    case Nop => assert [] + x == x;
    case Seq(s, rest) =>
      var y := Flatten(rest) + x;
      assert Flatten(c) + x == FlattenStmt(s) + y;
      ReadsBack(rest, x);
      if s == CLadder(NoRungs) {
        NoLines();
        assert [] + y == y;
      } else {
        CodeStarts(rest, x);
        StmtStarts(s);
        assert (FlattenStmt(s) + y)[0] == FlattenStmt(s)[0];
        StmtReadsBack(s, y);
      }
  }

  lemma NoLines()
    ensures FlattenStmt(CLadder(NoRungs)) == []
  {
  }

  lemma {:induction false} StmtReadsBack(s: CStmt, y: seq<Line>)
    requires s != CLadder(NoRungs) && !GoesOn(y)
    ensures |FlattenStmt(s) + y| > 0 && ReadStmt(FlattenStmt(s) + y) == Some((PlainStmt(s), y))
    decreases s, 1
  {
    hide Flatten, Plain, ReadCode, ReadStmt;
    match s
    case CIf(c, thn, els) =>
      ReadsBack(thn, [OpenElse] + (Flatten(els) + ([Close] + y)));
      ReadsBack(els, [Close] + y);
      ReadElse(c, Plain(thn), Flatten(thn), Plain(els), Flatten(els), y);
    case CIfOnly(c, thn) =>
      ReadsBack(thn, [Close] + y);
      ReadIf(c, Plain(thn), Flatten(thn), y);
      Regroup([OpenIf(c)], Flatten(thn), y);
    case CWhile(c, body) =>
      ReadsBack(body, [Close] + y);
      ReadLoop(OpenWhile(c), Plain(body), Flatten(body), y);
    case CFor(v, lo, hi, inclusive, body) =>
      ReadsBack(body, [Close] + y);
      ReadLoop(OpenFor(v, lo, hi, inclusive), Plain(body), Flatten(body), y);
    case CBlock(body) =>
      ReadsBack(body, [Close] + y);
      ReadLoop(OpenBlock, Plain(body), Flatten(body), y);
    case CLadder(rungs) => LadderReadsBack(rungs, y);
    case _ => ReadStatement(s, y);
  }

  lemma {:induction false} Regroup(head: seq<Line>, a: seq<Line>, y: seq<Line>)
    ensures head + a + [Close] + y == head + (a + ([Close] + y))
  {
  }

  lemma {:induction false} LadderReadsBack(rungs: Rungs, y: seq<Line>)
    requires rungs != NoRungs && !GoesOn(y)
    ensures |FlattenRungs(rungs, true) + y| > 0 && ReadStmt(FlattenRungs(rungs, true) + y) == Some((PlainStmt(CLadder(rungs)), y))
    decreases rungs, 1
  {
    hide Flatten, Plain, ReadCode, ReadStmt;
    match rungs
    case Otherwise(body) =>
      ReadsBack(body, [Close] + y);
      ReadLoop(OpenBlock, Plain(body), Flatten(body), y);
    case Rung(c, body, rest) =>
      var z := FlattenRungs(rest, false) + y;
      assert FlattenRungs(rungs, true) + y == [OpenIf(c)] + (Flatten(body) + ([Close] + z));
      ReadsBack(body, [Close] + z);
      RungsReadBack(rest, y);
      ReadIf(c, Plain(body), Flatten(body), z);
      if rest == NoRungs {
        assert z == y;
      } else {
        assert GoesOn(z);
      }
  }

  lemma {:induction false} ReadStatement(s: CStmt, y: seq<Line>)
    ensures ReadStmt([Statement(s)] + y) == Some((s, y))
  {
    assert ([Statement(s)] + y)[1..] == y;
  }

  lemma {:induction false} ReadLoop(head: Line, body: Code, a: seq<Line>, y: seq<Line>)
    requires ReadCode(a + ([Close] + y)) == Some((body, [Close] + y))
    ensures var r := ReadStmt([head] + a + [Close] + y);
      match head
      case OpenBlock => r == Some((CBlock(body), y))
      case OpenWhile(c) => r == Some((CWhile(c, body), y))
      case OpenFor(x, lo, hi, inclusive) => r == Some((CFor(x, lo, hi, inclusive, body), y))
      case _ => true
  {
    hide ReadCode;
    Regroup([head], a, y);
    var l := [head] + (a + ([Close] + y));
    assert l[1..] == a + ([Close] + y);
    assert ([Close] + y)[1..] == y;
  }

  lemma {:induction false} ReadElse(c: Expr, thn: Code, a: seq<Line>, els: Code, b: seq<Line>, y: seq<Line>)
    requires ReadCode(a + ([OpenElse] + (b + ([Close] + y)))) == Some((thn, [OpenElse] + (b + ([Close] + y))))
    requires ReadCode(b + ([Close] + y)) == Some((els, [Close] + y))
    ensures ReadStmt([OpenIf(c)] + a + [OpenElse] + b + [Close] + y) == Some((CIf(c, thn, els), y))
  {
    hide ReadCode;
    var z := b + ([Close] + y);
    var l := [OpenIf(c)] + (a + ([OpenElse] + z));
    assert l == [OpenIf(c)] + a + [OpenElse] + b + [Close] + y;
    assert l[1..] == a + ([OpenElse] + z);
    assert ([OpenElse] + z)[1..] == z;
    assert ([Close] + y)[1..] == y;
  }

  lemma {:induction false} ReadIf(c: Expr, thn: Code, a: seq<Line>, z: seq<Line>)
    requires ReadCode(a + ([Close] + z)) == Some((thn, [Close] + z))
    ensures ReadStmt([OpenIf(c)] + (a + ([Close] + z))) ==
      if !GoesOn(z) then Some((CIfOnly(c, thn), z))
      else
        var rungs := ReadRungs(z);
        if rungs.None? then None else Some((CLadder(Rung(c, thn, rungs.value.0)), rungs.value.1))
  {
    hide ReadCode, ReadRungs;
    var l := [OpenIf(c)] + (a + ([Close] + z));
    assert l[1..] == a + ([Close] + z);
    assert ([Close] + z)[1..] == z;
  }

  lemma {:induction false} RungsReadBack(rungs: Rungs, y: seq<Line>)
    requires !GoesOn(y)
    ensures ReadRungs(FlattenRungs(rungs, false) + y) == Some((PlainRungs(rungs), y))
    decreases rungs, 0
  {
    hide Flatten, Plain, ReadCode;
    match rungs
    case NoRungs => assert [] + y == y;
    case Rung(c, body, rest) =>
      var z := FlattenRungs(rest, false) + y;
      assert FlattenRungs(rungs, false) + y == [OpenElseIf(c)] + (Flatten(body) + ([Close] + z));
      ReadsBack(body, [Close] + z);
      assert ([Close] + z)[1..] == z;
      RungsReadBack(rest, y);
    case Otherwise(body) =>
      assert FlattenRungs(rungs, false) + y == [OpenElseBlock] + (Flatten(body) + ([Close] + y));
      ReadsBack(body, [Close] + y);
      assert ([Close] + y)[1..] == y;
  }

  // ----- the lines and their meaning -----

  /** Two programs with the same lines do the same. */
  lemma {:induction false} LinesDetermineMeaning(a: Code, b: Code, st: State, fuel: nat)
    requires Flatten(a) == Flatten(b)
    ensures Plain(a) == Plain(b) && RunCode(a, st, fuel) == RunCode(b, st, fuel)
  {
    ReadsBack(a, []);
    ReadsBack(b, []);
    assert Flatten(a) + [] == Flatten(a) && Flatten(b) + [] == Flatten(b);
    PlainRunsAlike(a, st, fuel);
    PlainRunsAlike(b, st, fuel);
  }

  /** The lines emitted for a function can be read back, and run as C they do what the source does. */
  lemma {:induction false} GeneratedLinesMean(f: Function, args: seq<Value>, st: State, ids: Ids, fuel: nat)
    requires |args| == |f.params| && LowerableFunction(f)
    ensures var code := ReadCode(Flatten(LowerFunction(f, ids).code));
      && code.Some? && code.value.1 == []
      && var (o, t) := RunAndTruncate(code.value.0, |st.env|, BindPlain(f.params, args, st), fuel);
         var (out, s) := RunFunction(f, args, st, fuel);
         o == out && Same(s, t)
  {
    hide RunFunction, LowerFunction, LowerableFunction, RunCode, Plain, ReadCode;
    var code := LowerFunction(f, ids).code;
    ReadsBack(code, []);
    assert Flatten(code) + [] == Flatten(code);
    PlainRunsAlike(code, BindPlain(f.params, args, st), fuel);
    LoweringPreservesMeaning(f, args, st, ids, fuel);
  }
}
