/** The checker's conservative return analysis, and its soundness over every execution. */
module ReturnFlow {
  import opened MortSyntax
  import opened MortSemantics
  import opened CleanupLowering
  import opened CleanupProof

  predicate AlwaysReturns(ss: Stmts)
  {
    match ss
    case Done => false
    case Then(s, rest) => StmtReturns(s) || AlwaysReturns(rest)
  }

  predicate StmtReturns(s: Stmt)
  {
    match s
    case Return(_) => true
    case Block(body) => AlwaysReturns(body)
    case If(_, thn, els) => !els.NoElse? && AlwaysReturns(thn) && ElseReturns(els)
    case Match(_, variants, arms) => Exhaustive(variants, arms) && ArmsReturn(arms)
    case While(c, body) => c == BoolLit(true) && !BreaksLoop(body)
    case _ => false
  }

  predicate ElseReturns(els: Else)
  {
    match els
    case NoElse => false
    case ElseBlock(body) => AlwaysReturns(body)
    case ElseIf(chained) => chained.If? && StmtReturns(chained)
  }

  predicate ArmsReturn(arms: Arms)
  {
    match arms
    case NoArms => true
    case Arm(_, _, body, rest) => AlwaysReturns(body) && ArmsReturn(rest)
  }

  /** A break that belongs to the loop around ss; breaks of nested loops do not count. */
  predicate BreaksLoop(ss: Stmts)
  {
    match ss
    case Done => false
    case Then(s, rest) => StmtBreaks(s) || BreaksLoop(rest)
  }

  predicate StmtBreaks(s: Stmt)
  {
    match s
    case Break => true
    case Block(body) => BreaksLoop(body)
    case If(_, thn, els) => BreaksLoop(thn) || ElseBreaks(els)
    case Match(_, _, arms) => ArmsBreak(arms)
    case _ => false
  }

  predicate ElseBreaks(els: Else)
  {
    match els
    case NoElse => false
    case ElseBlock(body) => BreaksLoop(body)
    case ElseIf(chained) => StmtBreaks(chained)
  }

  predicate ArmsBreak(arms: Arms)
  {
    match arms
    case NoArms => false
    case Arm(_, _, body, rest) => BreaksLoop(body) || ArmsBreak(rest)
  }

  // ----- every match the checker accepts has an arm to run -----

  predicate MatchesCovered(ss: Stmts)
  {
    match ss
    case Done => true
    case Then(s, rest) => StmtCovered(s) && MatchesCovered(rest)
  }

  predicate StmtCovered(s: Stmt)
  {
    match s
    case Block(body) => MatchesCovered(body)
    case If(_, thn, els) => MatchesCovered(thn) && ElseCovered(els)
    case While(_, body) => MatchesCovered(body)
    case For(_, _, _, _, body) => MatchesCovered(body)
    case Match(_, variants, arms) => Covered(variants, arms) && ArmsCovered(arms)
    case _ => true
  }

  predicate ElseCovered(els: Else)
  {
    match els
    case NoElse => true
    case ElseBlock(body) => MatchesCovered(body)
    case ElseIf(chained) => StmtCovered(chained)
  }

  predicate ArmsCovered(arms: Arms)
  {
    match arms
    case NoArms => true
    case Arm(_, _, body, rest) => MatchesCovered(body) && ArmsCovered(rest)
  }

  // ----- soundness -----

  /** If the analysis says ss always returns, no execution of ss ends normally; if an execution
      ends in a break of the enclosing loop, the analysis has seen that break. */
  lemma {:induction false} FlowSound(ss: Stmts, st: State, pend: seq<Pending>, fuel: nat)
    requires MatchesCovered(ss)
    ensures AlwaysReturns(ss) ==> !ExecStmts(ss, st, pend, fuel).out.Normal?
    ensures ExecStmts(ss, st, pend, fuel).out.Broke? ==> BreaksLoop(ss)
    decreases fuel, ss, 0
  {
    match ss
    case Done =>
    case Then(s, rest) =>
      FlowSoundStmt(s, st, pend, fuel);
      var r := ExecStmt(s, st, pend, fuel);
      if r.out.Normal? { FlowSound(rest, r.st, r.pend, fuel); }
  }

  lemma {:induction false} FlowSoundStmt(s: Stmt, st: State, pend: seq<Pending>, fuel: nat)
    requires StmtCovered(s)
    ensures StmtReturns(s) ==> !ExecStmt(s, st, pend, fuel).out.Normal?
    ensures ExecStmt(s, st, pend, fuel).out.Broke? ==> StmtBreaks(s)
    decreases fuel, s, 0
  {
    hide Eval;
    match s
    case Block(body) =>
      FlowSound(body, st, [], fuel);
      assert ExecScope(body, st, fuel).0 == ExecStmts(body, st, [], fuel).out;
    case If(c, thn, els) =>
      var (r, st1) := Eval(c, st);
      if r.Got? {
        if Truthy(r.v) {
          FlowSound(thn, st1, [], fuel);
          assert ExecScope(thn, st1, fuel).0 == ExecStmts(thn, st1, [], fuel).out;
        } else { FlowSoundElse(els, st1, pend, fuel); }
      }
    case While(c, body) => FlowSoundWhile(c, body, st, fuel);
    case For(x, lo, hi, inclusive, body) =>
      var (a, st1) := Eval(lo, st);
      var (b, st2) := Eval(hi, st1);
      if a.Got? && b.Got? {
        var first, last := AsInt(a.v), AsInt(b.v);
        ForNeverBreaks(x, last, inclusive, ForStarts(first, last, inclusive), body, DeclareCell(st2, x, Num(first), NoFlag), fuel);
      }
    case Match(subject, variants, arms) =>
      var (r, st1) := Eval(subject, st);
      if r.Got? { FlowSoundArms(arms, variants, r.v, st1, fuel); }
    case _ =>
  }

  lemma {:induction false} FlowSoundElse(els: Else, st: State, pend: seq<Pending>, fuel: nat)
    requires ElseCovered(els)
    ensures ElseReturns(els) ==> !ExecElse(els, st, pend, fuel).out.Normal?
    ensures ExecElse(els, st, pend, fuel).out.Broke? ==> ElseBreaks(els)
    decreases fuel, els, 0
  {
    match els
    case NoElse =>
    case ElseBlock(body) =>
      FlowSound(body, st, [], fuel);
      assert ExecScope(body, st, fuel).0 == ExecStmts(body, st, [], fuel).out;
    case ElseIf(chained) => FlowSoundStmt(chained, st, pend, fuel);
  }

  lemma {:induction false} FlowSoundWhile(c: Expr, body: Stmts, st: State, fuel: nat)
    requires MatchesCovered(body)
    ensures !ExecWhile(c, body, st, fuel).0.Broke?
    ensures c == BoolLit(true) && !BreaksLoop(body) ==> !ExecWhile(c, body, st, fuel).0.Normal?
    decreases fuel, body, 1
  {
    if fuel > 0 {
      var (r, st1) := Eval(c, st);
      if r.Got? && Truthy(r.v) {
        FlowSound(body, st1, [], fuel - 1);
        var (o, st2) := ExecScope(body, st1, fuel - 1);
        if o.Normal? || o.Continued? { FlowSoundWhile(c, body, st2, fuel - 1); }
      }
    }
  }

  lemma {:induction false} ForNeverBreaks(x: Name, last: int, inclusive: bool, more: bool, body: Stmts, st: State, fuel: nat)
    ensures !ExecFor(x, last, inclusive, more, body, st, fuel).0.Broke?
    decreases fuel
  {
    if fuel > 0 && more {
      var (o, st1) := ExecScope(body, st, fuel - 1);
      var (again, st2) := ForStep(x, last, inclusive, st1);
      ForNeverBreaks(x, last, inclusive, again, body, st2, fuel - 1);
    }
  }

  lemma {:induction false} FlowSoundArms(arms: Arms, variants: nat, v: Value, st: State, fuel: nat)
    requires ArmsCovered(arms)
    ensures ArmsReturn(arms) && (HasWildcard(arms) || (TagOf(v, variants) >= 0 && TagOf(v, variants) in Patterns(arms))) ==>
      !ExecArms(arms, variants, v, st, fuel).0.Normal?
    ensures ExecArms(arms, variants, v, st, fuel).0.Broke? ==> ArmsBreak(arms)
    decreases fuel, arms, 0
  {
    match arms
    case NoArms =>
    case Arm(pattern, binder, body, rest) =>
      if pattern.None? || TagOf(v, variants) == pattern.value {
        var st1 := DeclareBinder(binder, v, st);
        FlowSound(body, st1, BinderPending(binder, |st1.env|), fuel);
      } else {
        FlowSoundArms(rest, variants, v, st, fuel);
      }
  }

  /** What the checker demands of a non-void function, and what it buys: no call falls off its end. */
  lemma NeverFallsOff(f: Function, args: seq<Value>, st: State, fuel: nat)
    requires |args| == |f.params| && MatchesCovered(f.body) && AlwaysReturns(f.body)
    ensures !RunFunction(f, args, st, fuel).0.Normal?
  {
    FlowSound(f.body, BindParams(f.params, args, st), ParamPending(f.params, |st.env|), fuel);
  }
}
