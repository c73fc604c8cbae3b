/** Lowering whole statements, by induction on fuel and syntax. */
module CleanupTheorem {
  import opened MortSyntax
  import opened MortSemantics
  import opened CleanupLowering
  import opened EvaluationFacts
  import opened UnwindingProof
  import opened TryProof
  import opened SourceFacts
  import opened CleanupProof

  ghost predicate StmtsSound(ss: Stmts, stack: seq<Open>, bases: seq<nat>, ids: Ids, s: State, t: State, fuel: nat)
    requires |stack| > 0
  {
    var r := ExecStmts(ss, s, TopPend(stack), fuel);
    var low := LowerStmts(ss, Static(stack), bases, ids);
    var (o, t1) := RunCode(low.code, t, fuel);
    && Simulates(r.out, r.st, r.pend, stack, LoopBase(bases), ids, t, o, t1)
    && (r.out.Normal? ==> Actions(r.pend) == low.top && StackOk(WithTop(stack, r.pend), r.st.env))
  }

  /** Running a list of statements and leaving their scope, down to `mark`. */
  function ExecAndExit(body: Stmts, pend: seq<Pending>, mark: nat, s: State, fuel: nat): (Outcome, State)
  {
    var r := ExecStmts(body, s, pend, fuel);
    (r.out, if r.out.Timeout? then r.st else ExitScope(r.pend, mark, r.st))
  }

  function RunAndTruncate(code: Code, mark: nat, t: State, fuel: nat): (Outcome, State)
  {
    var (o, t1) := RunCode(code, t, fuel);
    (o, if o.Timeout? then t1 else Truncate(t1, mark))
  }

  ghost predicate ScopeSound(body: Stmts, pend: seq<Pending>, stack: seq<Open>, mark: nat, bases: seq<nat>, ids: Ids,
                             s: State, t: State, fuel: nat)
  {
    var (out, s1) := ExecAndExit(body, pend, mark, s, fuel);
    var (o, t1) := RunAndTruncate(LowerScope(body, Static(stack), Actions(pend), bases, ids).code, mark, t, fuel);
    SimulatesScope(out, s1, stack, LoopBase(bases), ids, t, o, t1)
  }

  lemma {:induction false} ScopeFromStmts(body: Stmts, pend: seq<Pending>, stack: seq<Open>, mark: nat, bases: seq<nat>,
                                          ids: Ids, s: State, t: State, fuel: nat)
    requires StackOk(stack + [Open(pend, mark)], s.env) && LoopBase(bases) <= |stack| && Same(s, t)
    requires StmtsSound(body, stack + [Open(pend, mark)], bases, ids, s, t, fuel)
    ensures ScopeSound(body, pend, stack, mark, bases, ids, s, t, fuel)
  {
    hide LowerStmts, ExecStmts, RunCode, Static, PerformAll, Unwind, StackOk, EmitActions;
    var stack2 := stack + [Open(pend, mark)];
    StaticPush(stack, Open(pend, mark));
    var r := ExecStmts(body, s, pend, fuel);
    var low := LowerStmts(body, Static(stack2), bases, ids);
    var t1 := RunCode(low.code, t, fuel).1;
    RunAppend(low.code, EmitActions(low.top), t, fuel);
    assert WithTop(stack2, r.pend) == stack + [Open(r.pend, mark)];
    MarksBelow(stack2, s.env);
    forall k | 0 <= k < |stack| ensures stack[k].mark <= mark {
      assert stack2[k].mark <= stack2[|stack|].mark;
    }
    if r.out.Normal? {
      NormalExit(r.pend, stack, mark, r.st, t1, fuel);
      KeptSameTemps(t, t1, Truncate(RunCode(EmitActions(low.top), t1, fuel).1, mark), ids);
    } else if r.out.Broke? || r.out.Continued? {
      JumpExit(r.pend, stack, mark, LoopBase(bases), r.st, t1);
      KeptSameTemps(t, t1, Truncate(t1, mark), ids);
    } else if r.out.Returned? {
      JumpExit(r.pend, stack, mark, 0, r.st, t1);
    }
  }

  /** Falling out of a scope: its emitted cleanup is exactly its pending cleanup. */
  lemma {:induction false} NormalExit(pend: seq<Pending>, stack: seq<Open>, mark: nat, s: State, t: State, fuel: nat)
    requires Same(s, t) && StackOk(stack + [Open(pend, mark)], s.env)
    ensures var (o, t1) := RunCode(EmitActions(Actions(pend)), t, fuel);
      o == Normal && Same(ExitScope(pend, mark, s), Truncate(t1, mark)) && t1.temps == t.temps
  {
    hide RunCode, EmitActions, PerformAll;
    var stack2 := stack + [Open(pend, mark)];
    assert stack2[|stack|].pend == pend;
    assert AllUncaptured(pend, s.env);
    forall q | q in pend ensures q.depth <= |s.env| { assert Uncaptured(q, s.env); }
    assert s.env[..|s.env|] == s.env;
    ActionsInPlace(pend, s, t, fuel);
    var t1 := RunCode(EmitActions(Actions(pend)), t, fuel).1;
    var s1 := PerformAll(pend, s);
    assert t1.env[..|s1.env|] == t1.env;
  }

  /** Jumping out of a scope: truncating its bindings keeps what has been unwound below it. */
  lemma {:induction false} JumpExit(pend: seq<Pending>, stack: seq<Open>, mark: nat, k: nat, s: State, t: State)
    requires k <= |stack| && Left(stack + [Open(pend, mark)], k, s, t)
    requires k < |stack| ==> stack[k].mark <= mark
    ensures Exited(stack, k, ExitScope(pend, mark, s), Truncate(t, mark))
  {
    hide PerformAll;
    var stack2 := stack + [Open(pend, mark)];
    assert stack2[..|stack|] == stack;
    assert Unwind(stack2, k, s) == Unwind(stack, k, ExitScope(pend, mark, s));
    var u := Unwind(stack2, k, s);
    if k < |stack| {
      if mark <= |t.env| { assert t.env[..mark][..|u.env|] == t.env[..|u.env|]; }
    } else {
      assert stack2[k].mark == mark;
    }
  }

  // ----- compound statements, given their parts -----

  lemma {:induction false} ScopeToStmt(out: Outcome, s2: State, stack: seq<Open>, base: nat, early: Ids, late: Ids,
                                       t0: State, t1: State, o: Outcome, t2: State)
    requires |stack| > 0 && base < |stack| && AtMost(early, late)
    requires SimulatesScope(out, s2, stack, base, late, t1, o, t2) && Kept(t0, t1, early)
    ensures Simulates(out, s2, TopPend(stack), stack, base, early, t0, o, t2)
  {
    hide Unwind;
    assert WithTop(stack, TopPend(stack)) == stack;
    if Kept(t1, t2, late) { KeptTrans(t0, t1, t2, early, late); }
  }

  lemma {:induction false} SimulatesFrom(out: Outcome, s2: State, pend: seq<Pending>, stack: seq<Open>, base: nat,
                                         early: Ids, late: Ids, t0: State, t1: State, o: Outcome, t2: State)
    requires |stack| > 0 && AtMost(early, late)
    requires Simulates(out, s2, pend, stack, base, late, t1, o, t2) && Kept(t0, t1, early)
    ensures Simulates(out, s2, pend, stack, base, early, t0, o, t2)
  {
    hide Unwind;
    if Kept(t1, t2, late) { KeptTrans(t0, t1, t2, early, late); }
  }

  lemma {:induction false} StackOkInner(stack: seq<Open>, env: seq<Cell>)
    requires |stack| > 0 && StackOk(stack, env)
    ensures StackOk(stack + [Open([], |env|)], env)
  {
    var top := stack[|stack| - 1];
    assert AllUncaptured(top.pend, env);
    forall q | q in top.pend ensures q.depth <= |env| { assert Uncaptured(q, env); }
    StackOkPush(stack, env, |env|, []);
  }

  /** A C block around code is the code followed by truncation. */
  lemma {:induction false} BlockIsTruncation(code: Code, t: State, fuel: nat)
    ensures RunBlock(code, t, fuel) == RunAndTruncate(code, |t.env|, t, fuel)
  {
  }

  lemma {:induction false} BlockSound(body: Stmts, stack: seq<Open>, bases: seq<nat>, ids: Ids, s: State, t: State, fuel: nat)
    requires |stack| > 0 && LoopBase(bases) < |stack| && Same(s, t) && StackOk(stack, s.env)
    requires ScopeSound(body, [], stack, |s.env|, bases, ids, s, t, fuel)
    ensures StmtSound(Block(body), stack, bases, ids, s, t, fuel)
  {
    hide LowerStmts, ExecStmts, RunCode, Static, PerformAll, Unwind, StackOk, EmitActions, Kept;
    var low := LowerScope(body, Static(stack), [], bases, ids);
    BlockIsTruncation(low.code, t, fuel);
    RunOne(CBlock(low.code), t, fuel);
    StaticSetTop(stack, TopPend(stack));
    var (out, s1) := ExecScope(body, s, fuel);
    KeptSelf(t, ids);
    ScopeToStmt(out, s1, stack, LoopBase(bases), ids, ids, t, t, out, RunBlock(low.code, t, fuel).1);
    ExecScopeGrows(body, s, fuel);
    if out.Normal? { StackOkSameNames(stack, s.env, s1.env); }
  }

  lemma {:induction false} KeptSelf(t: State, ids: Ids)
    ensures Kept(t, t, ids)
  {
  }

  ghost predicate ElseSound(els: Else, stack: seq<Open>, bases: seq<nat>, ids: Ids, s: State, t: State, fuel: nat)
    requires |stack| > 0
  {
    var r := ExecElse(els, s, TopPend(stack), fuel);
    var (o, t1) := RunBlock(LowerElse(els, Static(stack), bases, ids).code, t, fuel);
    Simulates(r.out, r.st, TopPend(stack), stack, LoopBase(bases), ids, t, o, t1) && r.pend == TopPend(stack)
  }

  lemma {:induction false} NoElseIsNothing(scopes: Scopes, bases: seq<nat>, ids: Ids)
    requires |scopes| > 0
    ensures LowerElse(NoElse, scopes, bases, ids).code == Nop
  {
  }

  lemma {:induction false} IfSound(c: Expr, thn: Stmts, els: Else, stack: seq<Open>, bases: seq<nat>, ids: Ids,
                                   s: State, t: State, fuel: nat)
    requires |stack| > 0 && LoopBase(bases) < |stack| && Liftable(c) && Same(s, t) && StackOk(stack, s.env)
    requires var p := PrepareTry(c, Static(stack), ids);
      var (r, s1) := Eval(c, s);
      var t1 := Eval(p.residual, RunCode(p.code, t, fuel).1).1;
      r.Got? ==>
        if Truthy(r.v) then ScopeSound(thn, [], stack, |s1.env|, bases, p.ids, s1, t1, fuel)
        else ElseSound(els, stack, bases, LowerScope(thn, Static(stack), [], bases, p.ids).ids, s1, t1, fuel)
    ensures StmtSound(If(c, thn, els), stack, bases, ids, s, t, fuel)
  {
    hide Eval, PrepareTry, LowerStmts, LowerElse, RunCode, Static, StackOk, StmtSound, ScopeSound, ElseSound;
    if Eval(c, s).0.Failed? {
      IfFails(c, thn, els, stack, bases, ids, s, t, fuel);
    } else if Truthy(Eval(c, s).0.v) {
      IfTakes(c, thn, els, stack, bases, ids, s, t, fuel);
    } else {
      IfSkips(c, thn, els, stack, bases, ids, s, t, fuel);
    }
  }

  function IfCode(residual: Expr, thn: Stmts, els: Else, scopes: Scopes, bases: seq<nat>, ids: Ids): CStmt
    requires |scopes| > 0
  {
    var a := LowerScope(thn, scopes, [], bases, ids);
    if els.NoElse? then CIfOnly(residual, a.code) else CIf(residual, a.code, LowerElse(els, scopes, bases, a.ids).code)
  }

  lemma {:induction false} IfFails(c: Expr, thn: Stmts, els: Else, stack: seq<Open>, bases: seq<nat>, ids: Ids, s: State, t: State, fuel: nat)
    requires |stack| > 0 && LoopBase(bases) < |stack| && Liftable(c) && Same(s, t) && StackOk(stack, s.env) && Eval(c, s).0.Failed?
    ensures StmtSound(If(c, thn, els), stack, bases, ids, s, t, fuel)
  {
    hide Eval, PrepareTry, LowerStmts, LowerElse, RunCode, Static, Unwind, StackOk, Kept;
    StaticSetTop(stack, TopPend(stack));
    var p := PrepareTry(c, Static(stack), ids);
    FailedSimulates(c, One(IfCode(p.residual, thn, els, Static(stack), bases, p.ids)), stack, LoopBase(bases), ids, s, t, fuel);
  }

  /** The generated `if` runs the branch that the source takes. */
  lemma {:induction false} IfRuns(c: Expr, thn: Stmts, els: Else, stack: seq<Open>, bases: seq<nat>, ids: Ids, s: State, t: State, fuel: nat)
    requires |stack| > 0 && Liftable(c) && Same(s, t) && StackOk(stack, s.env) && Eval(c, s).0.Got?
    ensures var p := PrepareTry(c, Static(stack), ids);
      var branch := IfCode(p.residual, thn, els, Static(stack), bases, p.ids);
      var (r, s1) := Eval(c, s);
      var t1 := Eval(p.residual, RunCode(p.code, t, fuel).1).1;
      var a := LowerScope(thn, Static(stack), [], bases, p.ids);
      && RunCode(Append(p.code, One(branch)), t, fuel) ==
           RunBlock(if Truthy(r.v) then a.code else LowerElse(els, Static(stack), bases, a.ids).code, t1, fuel)
      && Kept(t, t1, ids) && Same(s1, t1) && |s1.env| == |t1.env| && SameNames(s.env, s1.env) && StackOk(stack, s1.env) && AtMost(ids, p.ids)
  {
    hide Eval, PrepareTry, LowerStmts, LowerElse, RunCode, Static, StackOk, Kept;
    var p := PrepareTry(c, Static(stack), ids);
    var branch := IfCode(p.residual, thn, els, Static(stack), bases, p.ids);
    PreparedState(c, One(branch), stack, ids, s, t, fuel);
    var t0 := RunCode(p.code, t, fuel).1;
    var t1 := Eval(p.residual, t0).1;
    RunOne(branch, t0, fuel);
    KeptSameTemps(t, t0, t1, ids);
    RunEmptyBlock(t1, fuel);
    NoElseIsNothing(Static(stack), bases, LowerScope(thn, Static(stack), [], bases, p.ids).ids);
  }

  lemma {:induction false} IfTakes(c: Expr, thn: Stmts, els: Else, stack: seq<Open>, bases: seq<nat>, ids: Ids, s: State, t: State, fuel: nat)
    requires |stack| > 0 && LoopBase(bases) < |stack| && Liftable(c) && Same(s, t) && StackOk(stack, s.env)
    requires Eval(c, s).0.Got? && Truthy(Eval(c, s).0.v)
    requires var p := PrepareTry(c, Static(stack), ids);
      var s1 := Eval(c, s).1;
      ScopeSound(thn, [], stack, |s1.env|, bases, p.ids, s1, Eval(p.residual, RunCode(p.code, t, fuel).1).1, fuel)
    ensures StmtSound(If(c, thn, els), stack, bases, ids, s, t, fuel)
  {
    hide Eval, PrepareTry, LowerStmts, LowerElse, ExecStmts, RunCode, Static, PerformAll, Unwind, StackOk, EmitActions, Kept,
         Simulates, SimulatesScope, Same, SameNames;
    StaticSetTop(stack, TopPend(stack));
    IfRuns(c, thn, els, stack, bases, ids, s, t, fuel);
    var p := PrepareTry(c, Static(stack), ids);
    var a := LowerScope(thn, Static(stack), [], bases, p.ids);
    var s1 := Eval(c, s).1;
    var t1 := Eval(p.residual, RunCode(p.code, t, fuel).1).1;
    BlockIsTruncation(a.code, t1, fuel);
    var (out, s2) := ExecScope(thn, s1, fuel);
    var (o, t2) := RunBlock(a.code, t1, fuel);
    ScopeToStmt(out, s2, stack, LoopBase(bases), ids, p.ids, t, t1, o, t2);
    ExecScopeGrows(thn, s1, fuel);
    if out.Normal? { StackOkSameNames(stack, s1.env, s2.env); }
  }

  lemma {:induction false} IfSkips(c: Expr, thn: Stmts, els: Else, stack: seq<Open>, bases: seq<nat>, ids: Ids, s: State, t: State, fuel: nat)
    requires |stack| > 0 && LoopBase(bases) < |stack| && Liftable(c) && Same(s, t) && StackOk(stack, s.env)
    requires Eval(c, s).0.Got? && !Truthy(Eval(c, s).0.v)
    requires var p := PrepareTry(c, Static(stack), ids);
      ElseSound(els, stack, bases, LowerScope(thn, Static(stack), [], bases, p.ids).ids, Eval(c, s).1,
                Eval(p.residual, RunCode(p.code, t, fuel).1).1, fuel)
    ensures StmtSound(If(c, thn, els), stack, bases, ids, s, t, fuel)
  {
    hide Eval, PrepareTry, LowerStmts, LowerElse, ExecElse, RunCode, Static, Unwind, StackOk, Kept, Simulates, Same, SameNames;
    StaticSetTop(stack, TopPend(stack));
    IfRuns(c, thn, els, stack, bases, ids, s, t, fuel);
    var p := PrepareTry(c, Static(stack), ids);
    var a := LowerScope(thn, Static(stack), [], bases, p.ids);
    LowerIdsScope(thn, Static(stack), [], bases, p.ids);
    var s1 := Eval(c, s).1;
    var t1 := Eval(p.residual, RunCode(p.code, t, fuel).1).1;
    var (o, t2) := RunBlock(LowerElse(els, Static(stack), bases, a.ids).code, t1, fuel);
    var e := ExecElse(els, s1, TopPend(stack), fuel);
    SimulatesFrom(e.out, e.st, TopPend(stack), stack, LoopBase(bases), ids, a.ids, t, t1, o, t2);
    ExecElseGrows(els, s1, TopPend(stack), fuel);
    if e.out.Normal? { StackOkSameNames(stack, s1.env, e.st.env); }
  }

  // ----- loops -----

  /** The condition and body of the `while` the generator emits. */
  function LoopCode(c: Expr, body: Stmts, scopes: Scopes, bases: seq<nat>, ids: Ids): (Expr, Code)
  {
    if HasTry(c) then
      var p := PrepareTry(c, Push(scopes, []), ids);
      (BoolLit(true), Append(p.code, Seq(CIfOnly(Not(p.residual), One(CBreak)),
                                         LowerScope(body, scopes, [], bases, p.ids).code)))
    else (c, LowerScope(body, scopes, [], bases, ids).code)
  }

  function LoopBodyIds(c: Expr, scopes: Scopes, ids: Ids): Ids
  {
    if HasTry(c) then PrepareTry(c, Push(scopes, []), ids).ids else ids
  }

  ghost predicate WhileSound(c: Expr, body: Stmts, stack: seq<Open>, bases: seq<nat>, ids: Ids, s: State, t: State, fuel: nat)
    requires |stack| > 0
  {
    var (out, s1) := ExecWhile(c, body, s, fuel);
    var code := LoopCode(c, body, Static(stack), bases + [|stack|], ids);
    var (o, t1) := RunWhile(code.0, code.1, t, fuel);
    Simulates(out, s1, TopPend(stack), stack, LoopBase(bases), ids, t, o, t1)
  }

  /** One round of a loop whose body's scope has index |stack|: afterwards source and target agree,
      or the body returned. */
  lemma {:induction false} RoundJoins(out: Outcome, s2: State, stack: seq<Open>, base: nat, early: Ids, late: Ids,
                                      t0: State, t1: State, o: Outcome, t2: State)
    requires |stack| > 0 && AtMost(early, late)
    requires SimulatesScope(out, s2, stack, |stack|, late, t1, o, t2) && Kept(t0, t1, early)
    ensures out == o
    ensures out.Normal? || out.Continued? || out.Broke? ==> Same(s2, t2) && Kept(t0, t2, early)
    ensures out.Timeout? ==> Same(s2, t2)
    ensures out.Returned? ==> Left(stack, 0, s2, t2)
  {
    hide Unwind;
    if Kept(t1, t2, late) { KeptTrans(t0, t1, t2, early, late); }
  }

  /** What one run of the emitted loop body does, cond included, against the source's round. */
  ghost predicate RoundSound(c: Expr, body: Stmts, stack: seq<Open>, bases: seq<nat>, ids: Ids, s: State, t: State, fuel: nat)
    requires |stack| > 0
  {
    var (r, s1) := Eval(c, s);
    var code := LoopCode(c, body, Static(stack), bases + [|stack|], ids);
    var (q, t1) := Eval(code.0, t);
    if r.Failed? then
      var (o, t2) := RunBlock(code.1, t1, fuel);
      Truthy(ValueOf(q)) && o == Failure(r.n) && Left(stack, 0, s1, t2)
    else if !Truthy(r.v) then
      if Truthy(ValueOf(q)) then
        var (o, t2) := RunBlock(code.1, t1, fuel);
        o == Broke && Same(s1, t2) && Kept(t, t2, ids)
      else Same(s1, t1) && Kept(t, t1, ids)
    else
      var (o, t2) := RunBlock(code.1, t1, fuel);
      var (out, s2) := ExecScope(body, s1, fuel);
      && Truthy(ValueOf(q))
      && o == out
      && (out.Normal? || out.Continued? || out.Broke? ==> Same(s2, t2) && Kept(t, t2, ids))
      && (out.Timeout? ==> Same(s2, t2))
      && (out.Returned? ==> Left(stack, 0, s2, t2))
  }

  lemma {:induction false} PlainRound(c: Expr, body: Stmts, stack: seq<Open>, bases: seq<nat>, ids: Ids, s: State, t: State, fuel: nat)
    requires |stack| > 0 && !HasTry(c) && IsSource(c) && Same(s, t) && StackOk(stack, s.env)
    requires Eval(c, s).0.Got? && Truthy(Eval(c, s).0.v) ==>
      ScopeSound(body, [], stack, |s.env|, bases + [|stack|], ids, Eval(c, s).1, Eval(c, t).1, fuel)
    ensures RoundSound(c, body, stack, bases, ids, s, t, fuel)
  {
    hide Eval, LowerStmts, ExecStmts, RunCode, Static, PerformAll, Unwind, StackOk, EmitActions, Kept;
    WithoutTryNeverFails(c, s);
    EvalCongruent(c, s, t);
    EvalKeepsTemps(c, t);
    EvalKeepsNames(c, s);
    var (r, s1) := Eval(c, s);
    var t1 := Eval(c, t).1;
    KeptSelf(t, ids);
    KeptSameTemps(t, t, t1, ids);
    if Truthy(r.v) {
      var low := LowerScope(body, Static(stack), [], bases + [|stack|], ids);
      BlockIsTruncation(low.code, t1, fuel);
      var (out, s2) := ExecScope(body, s1, fuel);
      RoundJoins(out, s2, stack, LoopBase(bases), ids, ids, t, t1, out, RunBlock(low.code, t1, fuel).1);
    }
  }

  /** The state in which the body of a `while` with a `try` in its condition starts. */
  function AfterCond(c: Expr, stack: seq<Open>, ids: Ids, t: State, fuel: nat): State
  {
    var p := PrepareTry(c, Push(Static(stack), []), ids);
    Eval(p.residual, RunCode(p.code, t, fuel).1).1
  }

  lemma {:induction false} TryRound(c: Expr, body: Stmts, stack: seq<Open>, bases: seq<nat>, ids: Ids, s: State, t: State, fuel: nat)
    requires |stack| > 0 && HasTry(c) && Liftable(c) && Same(s, t) && StackOk(stack, s.env)
    requires Eval(c, s).0.Got? && Truthy(Eval(c, s).0.v) ==>
      ScopeSound(body, [], stack, |s.env|, bases + [|stack|], LoopBodyIds(c, Static(stack), ids), Eval(c, s).1,
                 AfterCond(c, stack, ids, t, fuel), fuel)
    ensures RoundSound(c, body, stack, bases, ids, s, t, fuel)
  {
    hide Eval, PrepareTry, LowerStmts, RunCode, StackOk, RoundSound, Static, ScopeSound;
    if Eval(c, s).0.Failed? {
      TryRoundFails(c, body, stack, bases, ids, s, t, fuel);
    } else {
      TryRoundDelivers(c, body, stack, bases, ids, s, t, fuel);
    }
  }

  lemma {:induction false} TryRoundFails(c: Expr, body: Stmts, stack: seq<Open>, bases: seq<nat>, ids: Ids, s: State, t: State, fuel: nat)
    requires |stack| > 0 && HasTry(c) && Liftable(c) && Same(s, t) && StackOk(stack, s.env) && Eval(c, s).0.Failed?
    ensures RoundSound(c, body, stack, bases, ids, s, t, fuel)
  {
    hide Eval, PrepareTry, LowerStmts, RunCode, StackOk, EmitActions, Kept;
    var inner := stack + [Open([], |s.env|)];
    StaticPush(stack, Open([], |s.env|));
    StackOkInner(stack, s.env);
    hide Static;
    var p := PrepareTry(c, Push(Static(stack), []), ids);
    var low := LowerScope(body, Static(stack), [], bases + [|stack|], p.ids);
    var tail := Seq(CIfOnly(Not(p.residual), One(CBreak)), low.code);
    var s1 := Eval(c, s).1;
    BlockIsTruncation(Append(p.code, tail), t, fuel);
    TrueValue(t);
    FailedSimulates(c, tail, inner, 0, ids, s, t, fuel);
    assert WithTop(inner, TopPend(inner)) == inner;
    EvalKeepsNames(c, s);
    EmptyScopeExit(stack, s1);
    assert inner[0] == stack[0];
    TruncateNothing(RunCode(Append(p.code, tail), t, fuel).1);
  }

  lemma {:induction false} TryRoundDelivers(c: Expr, body: Stmts, stack: seq<Open>, bases: seq<nat>, ids: Ids, s: State, t: State, fuel: nat)
    requires |stack| > 0 && HasTry(c) && Liftable(c) && Same(s, t) && StackOk(stack, s.env) && Eval(c, s).0.Got?
    requires Truthy(Eval(c, s).0.v) ==>
      ScopeSound(body, [], stack, |s.env|, bases + [|stack|], LoopBodyIds(c, Static(stack), ids), Eval(c, s).1,
                 AfterCond(c, stack, ids, t, fuel), fuel)
    ensures RoundSound(c, body, stack, bases, ids, s, t, fuel)
  {
    hide Eval, PrepareTry, LowerStmts, ExecStmts, RunCode, PerformAll, StackOk, EmitActions, Kept, Unwind;
    var inner := stack + [Open([], |s.env|)];
    StaticPush(stack, Open([], |s.env|));
    StackOkInner(stack, s.env);
    hide Static;
    var p := PrepareTry(c, Push(Static(stack), []), ids);
    var low := LowerScope(body, Static(stack), [], bases + [|stack|], p.ids);
    var tail := Seq(CIfOnly(Not(p.residual), One(CBreak)), low.code);
    var (r, s1) := Eval(c, s);
    BlockIsTruncation(Append(p.code, tail), t, fuel);
    TrueValue(t);
    PreparedState(c, tail, inner, ids, s, t, fuel);
    var t0 := RunCode(p.code, t, fuel).1;
    var t1 := Eval(p.residual, t0).1;
    CheckRuns(p.residual, low.code, t0, fuel);
    KeptSameTemps(t, t0, t1, ids);
    if Truthy(r.v) {
      var (out, s2) := ExecScope(body, s1, fuel);
      RoundJoins(out, s2, stack, LoopBase(bases), ids, p.ids, t, t1, out, RunAndTruncate(low.code, |s1.env|, t1, fuel).1);
    } else {
      TruncateNothing(t1);
    }
  }

  lemma {:induction false} TrueValue(t: State)
    ensures Eval(BoolLit(true), t) == (Got(Num(1)), t)
  {
  }

  lemma {:induction false} EmptyScopeExit(stack: seq<Open>, s: State)
    ensures Unwind(stack + [Open([], |s.env|)], 0, s) == Unwind(stack, 0, s)
  {
    var inner := stack + [Open([], |s.env|)];
    assert inner[..|stack|] == stack;
    TruncateNothing(s);
    assert ExitScope([], |s.env|, s) == s;
  }

  /** `if (!(residual)) { break; }` and then the loop body. */
  lemma {:induction false} CheckRuns(residual: Expr, rest: Code, t0: State, fuel: nat)
    requires Eval(residual, t0).0.Got?
    ensures var (r, t1) := Eval(residual, t0);
      RunCode(Seq(CIfOnly(Not(residual), One(CBreak)), rest), t0, fuel) ==
        if Truthy(r.v) then RunCode(rest, t1, fuel) else (Broke, t1)
  {
    hide Eval, RunCode;
    var (r, t1) := Eval(residual, t0);
    EvalUnary(Not(residual), residual, t0);
    var check := CIfOnly(Not(residual), One(CBreak));
    RunOne(CBreak, t1, fuel);
    TruncateNothing(t1);
    assert RunC(check, t0, fuel) == (if Truthy(r.v) then (Normal, t1) else (Broke, t1));
    RunStepAny(check, rest, t0, fuel);
  }

  lemma {:induction false} RunStepAny(c: CStmt, rest: Code, t: State, fuel: nat)
    ensures RunCode(Seq(c, rest), t, fuel) ==
      (var (o, t1) := RunC(c, t, fuel); if o.Normal? then RunCode(rest, t1, fuel) else (o, t1))
  {
  }

  lemma {:induction false} WhileStmtSound(c: Expr, body: Stmts, stack: seq<Open>, bases: seq<nat>, ids: Ids, s: State, t: State, fuel: nat)
    requires |stack| > 0 && StackOk(stack, s.env) && WhileSound(c, body, stack, bases, ids, s, t, fuel)
    ensures StmtSound(While(c, body), stack, bases, ids, s, t, fuel)
  {
    hide PrepareTry, LowerStmts, RunCode, ExecWhile, RunWhile, Static, Unwind, StackOk, EmitActions, Kept;
    StaticSetTop(stack, TopPend(stack));
    var code := LoopCode(c, body, Static(stack), bases + [|stack|], ids);
    RunOne(CWhile(code.0, code.1), t, fuel);
    ExecWhileGrows(c, body, s, fuel);
    var (out, s1) := ExecWhile(c, body, s, fuel);
    if out.Normal? { StackOkSameNames(stack, s.env, s1.env); }
  }

  /** Joining one round to the rest of the loop. */
  lemma {:induction false} WhileStep(c: Expr, body: Stmts, stack: seq<Open>, bases: seq<nat>, ids: Ids, s: State, t: State, fuel: nat)
    requires |stack| > 0 && fuel > 0 && RoundSound(c, body, stack, bases, ids, s, t, fuel - 1)
    requires var (r, s1) := Eval(c, s);
      var code := LoopCode(c, body, Static(stack), bases + [|stack|], ids);
      r.Got? && Truthy(r.v) ==>
        var (out, s2) := ExecScope(body, s1, fuel - 1);
        out.Normal? || out.Continued? ==>
          WhileSound(c, body, stack, bases, ids, s2, RunBlock(code.1, Eval(code.0, t).1, fuel - 1).1, fuel - 1)
    ensures WhileSound(c, body, stack, bases, ids, s, t, fuel)
  {
    hide Eval, PrepareTry, LowerStmts, RunCode, Static, Unwind, StackOk, EmitActions, Kept, LoopCode;
    var (r, s1) := Eval(c, s);
    var code := LoopCode(c, body, Static(stack), bases + [|stack|], ids);
    var t1 := Eval(code.0, t).1;
    assert WithTop(stack, TopPend(stack)) == stack;
    if r.Got? && Truthy(r.v) {
      var (out, s2) := ExecScope(body, s1, fuel - 1);
      var (o, t2) := RunBlock(code.1, t1, fuel - 1);
      if out.Normal? || out.Continued? {
        var (out3, s3) := ExecWhile(c, body, s2, fuel - 1);
        var t3 := RunWhile(code.0, code.1, t2, fuel - 1).1;
        SimulatesFrom(out3, s3, TopPend(stack), stack, LoopBase(bases), ids, ids, t, t2, out3, t3);
      }
    }
  }

  // ----- range loops -----

  /** Both bounds prepared, then evaluated in order. */
  lemma {:induction false} BoundsSound(lo: Expr, hi: Expr, stack: seq<Open>, ids: Ids, s: State, t: State, fuel: nat)
    requires Liftable(lo) && Liftable(hi) && HoistablePair(lo, hi) && Same(s, t) && StackOk(stack, s.env)
    requires Eval(lo, s).0.Got? && Eval(hi, Eval(lo, s).1).0.Got?
    ensures var p := PrepareTry(lo, Static(stack), ids);
      var q := PrepareTry(hi, Static(stack), p.ids);
      var (o, t2) := RunCode(Append(p.code, q.code), t, fuel);
      && o == Normal && Kept(t, t2, ids) && SameNames(t.env, t2.env)
      && Eval(p.residual, t2).0 == Eval(lo, s).0
      && Eval(q.residual, Eval(p.residual, t2).1).0 == Eval(hi, Eval(lo, s).1).0
      && Same(Eval(hi, Eval(lo, s).1).1, Eval(q.residual, Eval(p.residual, t2).1).1)
  {
    hide Eval, PrepareTry, RunCode, Unwind, StackOk;
    var p := PrepareTry(lo, Static(stack), ids);
    var q := PrepareTry(hi, Static(stack), p.ids);
    var s1 := Eval(lo, s).1;
    PrepareSound(lo, stack, ids, s, t, fuel);
    PrepareIds(lo, Static(stack), ids);
    var t1 := RunCode(p.code, t, fuel).1;
    RunAppend(p.code, q.code, t, fuel);
    if HasTry(hi) {
      PrepareSecond(lo, hi, stack, ids, s, t, fuel);
      CalmResidual(lo, Static(stack), ids);
      ResidualTemps(lo, Static(stack), ids);
      DelayedLeft(lo, hi, p.residual, q, p.ids, stack, s1, t1, fuel);
      KeptTrans(t, t1, RunCode(q.code, t1, fuel).1, ids, p.ids);
    } else {
      PrepareWithoutTry(hi, Static(stack), p.ids);
      RunNop(t1, fuel);
      EvalCongruent(hi, s1, Eval(p.residual, t1).1);
    }
  }

  /** The state in which the emitted `for` starts: both bounds in their temporaries. */
  function RangeState(p: Prepared, q: Prepared, t2: State): State
  {
    var r := q.ids.rangeId;
    var (a, t3) := Eval(p.residual, t2);
    var t4 := t3.(temps := t3.temps[RangeStart(r) := ValueOf(a)]);
    var (b, t5) := Eval(q.residual, t4);
    t5.(temps := t5.temps[RangeEnd(r) := ValueOf(b)])
  }

  lemma {:induction false} RangeStored(lo: Expr, hi: Expr, stack: seq<Open>, ids: Ids, s: State, t: State, fuel: nat)
    requires Liftable(lo) && Liftable(hi) && HoistablePair(lo, hi) && Same(s, t) && StackOk(stack, s.env)
    requires Eval(lo, s).0.Got? && Eval(hi, Eval(lo, s).1).0.Got?
    ensures var p := PrepareTry(lo, Static(stack), ids);
      var q := PrepareTry(hi, Static(stack), p.ids);
      var t2 := RunCode(Append(p.code, q.code), t, fuel).1;
      var t6 := RangeState(p, q, t2);
      && Same(Eval(hi, Eval(lo, s).1).1, t6) && Kept(t, t6, ids) && SameNames(t2.env, t6.env) && |t2.env| == |t.env|
      && ReadTemp(t6, RangeStart(q.ids.rangeId)) == Eval(lo, s).0.v
      && ReadTemp(t6, RangeEnd(q.ids.rangeId)) == Eval(hi, Eval(lo, s).1).0.v
  {
    hide Eval, PrepareTry, RunCode, StackOk;
    BoundsSound(lo, hi, stack, ids, s, t, fuel);
    var p := PrepareTry(lo, Static(stack), ids);
    var q := PrepareTry(hi, Static(stack), p.ids);
    PrepareIds(lo, Static(stack), ids);
    PrepareIds(hi, Static(stack), p.ids);
    var t2 := RunCode(Append(p.code, q.code), t, fuel).1;
    var r := q.ids.rangeId;
    var (a, t3) := Eval(p.residual, t2);
    var t4 := t3.(temps := t3.temps[RangeStart(r) := ValueOf(a)]);
    EvalKeepsTemps(p.residual, t2);
    EvalKeepsTemps(q.residual, t4);
    EvalKeepsNames(p.residual, t2);
    EvalKeepsNames(q.residual, t4);
    ResidualTemps(hi, Static(stack), p.ids);
    assert AgreeTemps(q.residual, t3, t4);
    CongruentOnTemps(q.residual, t3, t4);
  }

  ghost predicate ForSound(x: Name, last: int, hi: Temp, inclusive: bool, more: bool, body: Stmts,
                           stack: seq<Open>, bases: seq<nat>, ids: Ids, s: State, t: State, fuel: nat)
    requires |stack| > 0
  {
    var (out, s1) := ExecFor(x, last, inclusive, more, body, s, fuel);
    var code := LowerScope(body, Static(stack), [], bases + [|stack|], ids).code;
    var (o, t1) := RunFor(x, hi, inclusive, more, code, t, fuel);
    Simulates(out, s1, TopPend(stack), stack, LoopBase(bases), ids, t, o, t1)
  }

  lemma {:induction false} StepCongruent(x: Name, last: int, inclusive: bool, s: State, t: State)
    requires Same(s, t)
    ensures ForStep(x, last, inclusive, s).0 == ForStep(x, last, inclusive, t).0
    ensures Same(ForStep(x, last, inclusive, s).1, ForStep(x, last, inclusive, t).1)
    ensures ForStep(x, last, inclusive, t).1.temps == t.temps
  {
  }

  lemma {:induction false} ForRound(x: Name, last: int, hi: Temp, inclusive: bool, body: Stmts,
                                    stack: seq<Open>, bases: seq<nat>, ids: Ids, s: State, t: State, fuel: nat)
    requires |stack| > 0 && fuel > 0 && Same(s, t) && Below(hi, ids) && AsInt(ReadTemp(t, hi)) == last
    requires ScopeSound(body, [], stack, |s.env|, bases + [|stack|], ids, s, t, fuel - 1)
    requires var code := LowerScope(body, Static(stack), [], bases + [|stack|], ids).code;
      var (out, s1) := ExecScope(body, s, fuel - 1);
      out.Normal? || out.Continued? ==>
        var (more, s2) := ForStep(x, last, inclusive, s1);
        var t2 := ForStep(x, last, inclusive, RunBlock(code, t, fuel - 1).1).1;
        ForSound(x, last, hi, inclusive, more, body, stack, bases, ids, s2, t2, fuel - 1)
    ensures ForSound(x, last, hi, inclusive, true, body, stack, bases, ids, s, t, fuel)
  {
    hide LowerStmts, ExecStmts, RunCode, Static, Unwind, StackOk, EmitActions, ForStep;
    var low := LowerScope(body, Static(stack), [], bases + [|stack|], ids);
    BlockIsTruncation(low.code, t, fuel - 1);
    var (out, s1) := ExecScope(body, s, fuel - 1);
    var t1 := RunBlock(low.code, t, fuel - 1).1;
    KeptSelf(t, ids);
    RoundJoins(out, s1, stack, LoopBase(bases), ids, ids, t, t, out, t1);
    assert WithTop(stack, TopPend(stack)) == stack;
    if out.Normal? || out.Continued? {
      StepCongruent(x, last, inclusive, s1, t1);
      var (more, s2) := ForStep(x, last, inclusive, s1);
      var t2 := ForStep(x, last, inclusive, t1).1;
      KeptSameTemps(t, t1, t2, ids);
      var (out3, s3) := ExecFor(x, last, inclusive, more, body, s2, fuel - 1);
      var t3 := RunFor(x, hi, inclusive, more, low.code, t2, fuel - 1).1;
      SimulatesFrom(out3, s3, TopPend(stack), stack, LoopBase(bases), ids, ids, t, t2, out3, t3);
    }
  }

  /** Cleanup of outer scopes does not see bindings above them. */
  lemma {:induction false} PerformAllTruncate(pend: seq<Pending>, s: State, m: nat)
    requires m <= |s.env| && forall q | q in pend :: q.depth <= m
    ensures |PerformAll(pend, s).env| == |s.env|
    ensures Truncate(PerformAll(pend, s), m) == PerformAll(pend, Truncate(s, m))
  {
    if pend != [] {
      var q := pend[|pend| - 1];
      assert q in pend;
      var inner := Perform(q.act, s.(env := s.env[..q.depth]));
      PerformKeepsNames(q.act, s.(env := s.env[..q.depth]));
      assert s.env[..m][..q.depth] == s.env[..q.depth];
      assert (inner.env + s.env[q.depth..])[..m] == inner.env + s.env[..m][q.depth..];
      PerformAllTruncate(pend[..|pend| - 1], PerformPending(q, s), m);
    }
  }

  lemma {:induction false} UnwindTruncate(stack: seq<Open>, s: State, m: nat)
    requires |stack| > 0 && m <= |s.env| && stack[|stack| - 1].mark <= m
    requires forall q | q in TopPend(stack) :: q.depth <= m
    ensures Unwind(stack, 0, Truncate(s, m)) == Unwind(stack, 0, s)
  {
    var n := |stack| - 1;
    PerformAllTruncate(TopPend(stack), s, m);
    var done := PerformAll(TopPend(stack), s);
    assert done.env[..m][..stack[n].mark] == done.env[..stack[n].mark];
  }

  lemma {:induction false} ForExit(out: Outcome, s4: State, stack: seq<Open>, base: nat, ids: Ids, env: seq<Cell>,
                                   t0: State, o: Outcome, t4: State)
    requires |stack| > 0 && StackOk(stack, env) && |env| <= |s4.env|
    requires out.Normal? || out.Timeout? || out.Returned?
    requires Simulates(out, s4, TopPend(stack), stack, base, ids, t0, o, t4)
    ensures Simulates(out, if out.Timeout? then s4 else Truncate(s4, |env|), TopPend(stack), stack, base, ids,
                      t0, o, if o.Timeout? then t4 else Truncate(t4, |env|))
  {
    var top := stack[|stack| - 1];
    assert AllUncaptured(top.pend, env);
    forall q | q in top.pend ensures q.depth <= |env| { assert Uncaptured(q, env); }
    assert WithTop(stack, TopPend(stack)) == stack;
    if out.Normal? {
      KeptSameTemps(t0, t4, Truncate(t4, |env|), ids);
    } else if out.Returned? {
      UnwindTruncate(stack, s4, |env|);
      MarksBelow(stack, env);
      var u := Unwind(stack, 0, s4);
      assert stack[0].mark <= |env|;
      if |env| <= |t4.env| { assert t4.env[..|env|][..|u.env|] == t4.env[..|u.env|]; }
    }
  }

  lemma {:induction false} AppendAssoc(a: Code, b: Code, c: Code)
    ensures Append(Append(a, b), c) == Append(a, Append(b, c))
  {
    match a
    case Nop =>
    case Seq(_, rest) => AppendAssoc(rest, b, c);
  }

  /** The emitted range block, once both bounds are in their temporaries. */
  lemma {:induction false} RangeBlockRuns(p: Prepared, q: Prepared, loop: CStmt, t2: State, fuel: nat)
    ensures var r := q.ids.rangeId;
      var t6 := RangeState(p, q, t2);
      RunCode(One(CBlock(Seq(SetTemp(RangeStart(r), p.residual), Seq(SetTemp(RangeEnd(r), q.residual), One(loop))))), t2, fuel) ==
        (var (o, t7) := RunC(loop, t6, fuel); (o, if o.Timeout? then t7 else Truncate(t7, |t2.env|)))
  {
    hide Eval;
    var r := q.ids.rangeId;
    var (a, t3) := Eval(p.residual, t2);
    var t4 := t3.(temps := t3.temps[RangeStart(r) := ValueOf(a)]);
    var t6 := RangeState(p, q, t2);
    SetTempRuns(RangeStart(r), p.residual, t2, fuel);
    SetTempRuns(RangeEnd(r), q.residual, t4, fuel);
    RunOne(loop, t6, fuel);
    var ranged := Seq(SetTemp(RangeStart(r), p.residual), Seq(SetTemp(RangeEnd(r), q.residual), One(loop)));
    RunStep(SetTemp(RangeEnd(r), q.residual), One(loop), t4, t6, fuel);
    RunStep(SetTemp(RangeStart(r), p.residual), Seq(SetTemp(RangeEnd(r), q.residual), One(loop)), t2, t4, fuel);
    assert RunCode(ranged, t2, fuel) == RunC(loop, t6, fuel);
    RunOne(CBlock(ranged), t2, fuel);
  }

  /** The states in which the source's and the target's range loops start. */
  function ForStart(x: Name, lo: Expr, hi: Expr, s: State): (bool, int, int, State)
  {
    var (a, s1) := Eval(lo, s);
    if a.Failed? then (false, 0, 0, s1) else
    var (b, s2) := Eval(hi, s1);
    if b.Failed? then (false, 0, 0, s2)
    else (true, AsInt(a.v), AsInt(b.v), DeclareCell(s2, x, Num(AsInt(a.v)), NoFlag))
  }

  lemma {:induction false} ForStmtSound(x: Name, lo: Expr, hi: Expr, inclusive: bool, body: Stmts,
                                        stack: seq<Open>, bases: seq<nat>, ids: Ids, s: State, t: State, fuel: nat)
    requires |stack| > 0 && Liftable(lo) && Liftable(hi) && HoistablePair(lo, hi)
    requires Same(s, t) && StackOk(stack, s.env)
    requires var p := PrepareTry(lo, Static(stack), ids);
      var q := PrepareTry(hi, Static(stack), p.ids);
      var r := q.ids.rangeId;
      var (started, first, last, s3) := ForStart(x, lo, hi, s);
      var t6 := RangeState(p, q, RunCode(Append(p.code, q.code), t, fuel).1);
      started ==>
        ForSound(x, last, RangeEnd(r), inclusive, ForStarts(first, last, inclusive), body, stack, bases,
                 q.ids.(rangeId := r + 1), s3, DeclareCell(t6, x, Num(first), NoFlag), fuel)
    ensures StmtSound(For(x, lo, hi, inclusive, body), stack, bases, ids, s, t, fuel)
  {
    hide Eval, PrepareTry, LowerStmts, RunCode, ExecFor, RunFor, Static, Unwind, StackOk, Kept, Hoistable, IsSource, Simulates, SameNames;
    StaticSetTop(stack, TopPend(stack));
    var p := PrepareTry(lo, Static(stack), ids);
    var q := PrepareTry(hi, Static(stack), p.ids);
    var r := q.ids.rangeId;
    var inner := q.ids.(rangeId := r + 1);
    var low := LowerScope(body, Static(stack), [], bases + [|stack|], inner);
    var loop := CFor(x, RangeStart(r), RangeEnd(r), inclusive, low.code);
    var ranged := Seq(SetTemp(RangeStart(r), p.residual), Seq(SetTemp(RangeEnd(r), q.residual), One(loop)));
    AppendAssoc(p.code, q.code, One(CBlock(ranged)));
    var (a, s1) := Eval(lo, s);
    var (b, s2) := Eval(hi, s1);
    if a.Failed? || b.Failed? {
      RangeFails(lo, hi, One(CBlock(ranged)), stack, LoopBase(bases), ids, s, t, fuel);
    } else {
      RangeStored(lo, hi, stack, ids, s, t, fuel);
      BoundsSound(lo, hi, stack, ids, s, t, fuel);
      var t2 := RunCode(Append(p.code, q.code), t, fuel).1;
      RunAppend(Append(p.code, q.code), One(CBlock(ranged)), t, fuel);
      RangeBlockRuns(p, q, loop, t2, fuel);
      EvalKeepsNames(lo, s);
      EvalKeepsNames(hi, s1);
      StackOkSameNames(stack, s.env, s1.env);
      StackOkSameNames(stack, s1.env, s2.env);
      PrepareIds(lo, Static(stack), ids);
      PrepareIds(hi, Static(stack), p.ids);
      ForRuns(x, AsInt(a.v), AsInt(b.v), RangeStart(r), RangeEnd(r), inclusive, body, stack, bases, ids, inner,
              s2, t, RangeState(p, q, t2), fuel);
      ExecStmtGrows(For(x, lo, hi, inclusive, body), s, TopPend(stack), fuel);
      var done := ExecStmt(For(x, lo, hi, inclusive, body), s, TopPend(stack), fuel);
      if done.out.Normal? { StackOkSameNames(stack, s.env, done.st.env); }
    }
  }

  lemma {:induction false} RangeFails(lo: Expr, hi: Expr, tail: Code, stack: seq<Open>, base: nat, ids: Ids,
                                      s: State, t: State, fuel: nat)
    requires |stack| > 0 && Liftable(lo) && Liftable(hi) && HoistablePair(lo, hi) && Same(s, t) && StackOk(stack, s.env)
    requires Eval(lo, s).0.Failed? || Eval(hi, Eval(lo, s).1).0.Failed?
    ensures var p := PrepareTry(lo, Static(stack), ids);
      var q := PrepareTry(hi, Static(stack), p.ids);
      var (a, s1) := Eval(lo, s);
      var (b, s2) := Eval(hi, s1);
      var (o, t1) := RunCode(Append(Append(p.code, q.code), tail), t, fuel);
      Simulates(if a.Failed? then Failure(a.n) else Failure(b.n), if a.Failed? then s1 else s2,
                TopPend(stack), stack, base, ids, t, o, t1)
  {
    hide Eval, RunCode, Unwind, Kept, StackOk, Static;
    EvalBinary(Add, lo, hi, s);
    FailedSimulates(Binary(Add, lo, hi), tail, stack, base, ids, s, t, fuel);
  }

  lemma {:induction false} ForRuns(x: Name, first: int, last: int, from: Temp, to: Temp, inclusive: bool, body: Stmts,
                                   stack: seq<Open>, bases: seq<nat>, ids: Ids, inner: Ids,
                                   s2: State, t: State, t6: State, fuel: nat)
    requires |stack| > 0 && StackOk(stack, s2.env) && Same(s2, t6) && Kept(t, t6, ids) && AtMost(ids, inner)
    requires AsInt(ReadTemp(t6, from)) == first && AsInt(ReadTemp(t6, to)) == last
    requires ForSound(x, last, to, inclusive, ForStarts(first, last, inclusive), body, stack, bases, inner,
                      DeclareCell(s2, x, Num(first), NoFlag), DeclareCell(t6, x, Num(first), NoFlag), fuel)
    ensures var s3 := DeclareCell(s2, x, Num(first), NoFlag);
      var (out, s4) := ExecFor(x, last, inclusive, ForStarts(first, last, inclusive), body, s3, fuel);
      var code := LowerScope(body, Static(stack), [], bases + [|stack|], inner).code;
      var (o, t7) := RunC(CFor(x, from, to, inclusive, code), t6, fuel);
      Simulates(out, if out.Timeout? then s4 else Truncate(s4, |s2.env|), TopPend(stack), stack, LoopBase(bases), ids,
                t, o, if o.Timeout? then t7 else Truncate(t7, |t6.env|))
  {
    hide LowerStmts, ExecFor, RunFor, Static, Unwind, StackOk, Kept;
    var s3 := DeclareCell(s2, x, Num(first), NoFlag);
    var t3 := DeclareCell(t6, x, Num(first), NoFlag);
    var more := ForStarts(first, last, inclusive);
    var code := LowerScope(body, Static(stack), [], bases + [|stack|], inner).code;
    var (out, s4) := ExecFor(x, last, inclusive, more, body, s3, fuel);
    var (o, t4) := RunFor(x, to, inclusive, more, code, t3, fuel);
    KeptSameTemps(t, t6, t3, ids);
    SimulatesFrom(out, s4, TopPend(stack), stack, LoopBase(bases), ids, inner, t, t3, o, t4);
    ExecForGrows(x, last, inclusive, more, body, s3, fuel);
    ExecForOutcome(x, last, inclusive, more, body, s3, fuel);
    ForExit(out, s4, stack, LoopBase(bases), ids, s2.env, t, o, t4);
    TruncateTwice(t4, |t6.env|);
  }

  lemma {:induction false} TruncateTwice(t: State, m: nat)
    ensures Truncate(Truncate(t, m), m) == Truncate(t, m)
  {
    if m <= |t.env| { assert t.env[..m][..m] == t.env[..m]; }
  }

  lemma {:induction false} ExecForOutcome(x: Name, last: int, inclusive: bool, more: bool, body: Stmts, s: State, fuel: nat)
    ensures var o := ExecFor(x, last, inclusive, more, body, s, fuel).0;
      o.Normal? || o.Timeout? || o.Returned?
    decreases fuel
  {
    if fuel > 0 && more {
      var (o, s1) := ExecScope(body, s, fuel - 1);
      var (again, s2) := ForStep(x, last, inclusive, s1);
      ExecForOutcome(x, last, inclusive, again, body, s2, fuel - 1);
    }
  }

  // ----- match -----

  /** Some arm will run: a wildcard, or the arm naming the value's variant. */
  predicate SomeArm(arms: Arms, tag: int)
  {
    HasWildcard(arms) || (tag >= 0 && tag in Patterns(arms))
  }

  ghost predicate ArmsSound(arms: Arms, variants: nat, v: Value, m: Temp, exhaustive: bool, stack: seq<Open>, bases: seq<nat>,
                            ids: Ids, s: State, t: State, fuel: nat)
    requires |stack| > 0
  {
    var (out, s1) := ExecArms(arms, variants, v, s, fuel);
    var (o, t1) := RunRungs(LowerArms(arms, variants, m, exhaustive, Static(stack), bases, ids).rungs, t, fuel);
    Simulates(out, s1, TopPend(stack), stack, LoopBase(bases), ids, t, o, t1)
  }

  lemma {:induction false} BinderActions(b: Option<Binder>, depth: nat)
    ensures Actions(BinderPending(b, depth)) == BinderTop(b)
  {
    if b.Some? && b.value.owner { ActionsPush([], Pending(depth, Drop(b.value.name))); assert [] + [Pending(depth, Drop(b.value.name))] == [Pending(depth, Drop(b.value.name))]; }
  }

  lemma {:induction false} StackOkBinder(b: Option<Binder>, v: Value, stack: seq<Open>, s: State)
    requires |stack| > 0 && StackOk(stack, s.env) && (b.Some? ==> Free(b.value.name, Static(stack)))
    ensures var s1 := DeclareBinder(b, v, s);
      StackOk(stack + [Open(BinderPending(b, |s1.env|), |s.env|)], s1.env)
  {
    var s1 := DeclareBinder(b, v, s);
    if b.Some? {
      StackOkDeclare(stack, s.env, s1.env[|s.env|]);
    }
    var top := stack[|stack| - 1];
    assert AllUncaptured(top.pend, s.env);
    forall q | q in top.pend ensures q.depth <= |s.env| { assert Uncaptured(q, s.env); }
    StackOkPush(stack, s1.env, |s.env|, BinderPending(b, |s1.env|));
  }

  /** The code of the arm that runs. */
  lemma {:induction false} ArmTaken(binder: Option<Binder>, body: Stmts, v: Value, m: Temp, stack: seq<Open>, bases: seq<nat>,
                                    ids: Ids, s: State, t: State, fuel: nat)
    requires |stack| > 0 && LoopBase(bases) < |stack| && Same(s, t) && ReadTemp(t, m) == v
    requires var s1 := DeclareBinder(binder, v, s);
      ScopeSound(body, BinderPending(binder, |s1.env|), stack, |s.env|, bases, ids, s1, DeclareBinder(binder, v, t), fuel)
    ensures var s1 := DeclareBinder(binder, v, s);
      var (out, s2) := ExecAndExit(body, BinderPending(binder, |s1.env|), |s.env|, s1, fuel);
      var low := LowerScope(body, Static(stack), BinderTop(binder), bases, ids);
      var (o, t2) := RunBlock(Append(BinderCode(binder, m), low.code), t, fuel);
      Simulates(out, s2, TopPend(stack), stack, LoopBase(bases), ids, t, o, t2)
  {
    hide LowerStmts, ExecStmts, RunCode, Static, Unwind, StackOk, EmitActions, PerformAll, Kept;
    var s1 := DeclareBinder(binder, v, s);
    var t1 := DeclareBinder(binder, v, t);
    var pend := BinderPending(binder, |s1.env|);
    BinderActions(binder, |s1.env|);
    var low := LowerScope(body, Static(stack), BinderTop(binder), bases, ids);
    RunAppend(BinderCode(binder, m), low.code, t, fuel);
    BinderRuns(binder, v, m, t, fuel);
    var (out, s2) := ExecAndExit(body, pend, |s.env|, s1, fuel);
    var (o, t2) := RunAndTruncate(low.code, |s.env|, t1, fuel);
    assert RunBlock(Append(BinderCode(binder, m), low.code), t, fuel) == (o, t2);
    KeptSelf(t, ids);
    KeptSameTemps(t, t, t1, ids);
    ScopeToStmt(out, s2, stack, LoopBase(bases), ids, ids, t, t1, o, t2);
  }

  lemma {:induction false} BinderRuns(binder: Option<Binder>, v: Value, m: Temp, t: State, fuel: nat)
    requires ReadTemp(t, m) == v
    ensures RunCode(BinderCode(binder, m), t, fuel) == (Normal, DeclareBinder(binder, v, t))
  {
    match binder
    case None => RunNop(t, fuel);
    case Some(Binder(x, owner)) => DeclareRuns(x, PayloadOf(m), owner, t, fuel);
  }

  lemma {:induction false} RungsSkip(m: Temp, variants: nat, tag: nat, code: Code, rest: Rungs, t: State, fuel: nat)
    ensures RunRungs(Rung(TagIs(m, variants, tag), code, rest), t, fuel) ==
      if TagOf(ReadTemp(t, m), variants) == tag then RunBlock(code, t, fuel) else RunRungs(rest, t, fuel)
  {
    assert Eval(TagIs(m, variants, tag), t) == (Got(FromBool(TagOf(ReadTemp(t, m), variants) == tag)), t);
  }

  lemma {:induction false} MatchSound(subject: Expr, variants: nat, arms: Arms, stack: seq<Open>, bases: seq<nat>, ids: Ids,
                                      s: State, t: State, fuel: nat)
    requires |stack| > 0 && Liftable(subject) && Same(s, t) && StackOk(stack, s.env)
    requires var p := PrepareTry(subject, Static(stack), ids);
      var m := MatchSubject(p.ids.matchId);
      var (r, s1) := Eval(subject, s);
      r.Got? ==>
        ArmsSound(arms, variants, r.v, m, Exhaustive(variants, arms), stack, bases, p.ids.(matchId := p.ids.matchId + 1),
                  s1, StoreResidual(p, m, t, fuel), fuel)
    ensures StmtSound(Match(subject, variants, arms), stack, bases, ids, s, t, fuel)
  {
    hide Eval, PrepareTry, LowerArms, ExecArms, RunCode, RunRungs, Static, Unwind, StackOk, Kept, Left, Hoistable, IsSource, UnchangedOutside, Delivers;
    StaticSetTop(stack, TopPend(stack));
    var p := PrepareTry(subject, Static(stack), ids);
    var m := MatchSubject(p.ids.matchId);
    var inner := p.ids.(matchId := p.ids.matchId + 1);
    var ladder := LowerArms(arms, variants, m, Exhaustive(variants, arms), Static(stack), bases, inner).rungs;
    var block := CBlock(Seq(SetTemp(m, p.residual), One(CLadder(ladder))));
    if Eval(subject, s).0.Failed? {
      FailedSimulates(subject, One(block), stack, LoopBase(bases), ids, s, t, fuel);
    } else {
      PreparedState(subject, One(block), stack, ids, s, t, fuel);
      PrepareIds(subject, Static(stack), ids);
      PrepareSound(subject, stack, ids, s, t, fuel);
      ResidualStored(subject, m, stack, ids, s, t, fuel);
      var t1 := RunCode(p.code, t, fuel).1;
      var t2 := StoreResidual(p, m, t, fuel);
      var (r, s1) := Eval(subject, s);
      var (out, s3) := ExecArms(arms, variants, r.v, s1, fuel);
      var (o, t3) := RunRungs(ladder, t2, fuel);
      RunStep(SetTemp(m, p.residual), One(CLadder(ladder)), t1, t2, fuel);
      RunOne(CLadder(ladder), t2, fuel);
      RunOne(block, t1, fuel);
      SimulatesFrom(out, s3, TopPend(stack), stack, LoopBase(bases), ids, inner, t, t2, o, t3);
      ExecArmsGrows(arms, variants, r.v, s1, fuel);
      MatchExit(out, s3, stack, LoopBase(bases), ids, s1.env, t, o, t3);
      if out.Normal? { StackOkSameNames(stack, s1.env, s3.env); TruncateNothing(t3); }
    }
  }

  /** The block around the ladder truncates nothing that matters. */
  lemma {:induction false} MatchExit(out: Outcome, s: State, stack: seq<Open>, base: nat, ids: Ids, env: seq<Cell>,
                                     t0: State, o: Outcome, t: State)
    requires |stack| > 0 && StackOk(stack, env)
    requires Simulates(out, s, TopPend(stack), stack, base, ids, t0, o, t)
    requires out.Normal? ==> |s.env| == |env|
    ensures Simulates(out, s, TopPend(stack), stack, base, ids, t0, o, if o.Timeout? then t else Truncate(t, |env|))
  {
    hide Unwind;
    MarksBelow(stack, env);
    assert WithTop(stack, TopPend(stack)) == stack;
    KeptTruncate(t0, t, |env|, ids);
    if out.Normal? {
      TruncateNothing(t);
    } else if out.Broke? || out.Continued? {
      LeftTruncate(stack, base, s, t, |env|);
    } else if out.Returned? {
      LeftTruncate(stack, 0, s, t, |env|);
    }
  }

  lemma {:induction false} KeptTruncate(a: State, b: State, m: nat, ids: Ids)
    ensures Kept(a, b, ids) ==> Kept(a, Truncate(b, m), ids)
  {
  }

  lemma {:induction false} LeftTruncate(stack: seq<Open>, k: nat, s: State, t: State, m: nat)
    requires Left(stack, k, s, t) && stack[k].mark <= m
    ensures Left(stack, k, s, Truncate(t, m))
  {
    hide Unwind;
    var u := Unwind(stack, k, s);
    if m <= |t.env| { assert t.env[..m][..|u.env|] == t.env[..|u.env|]; }
  }

  // ----- the induction -----

  lemma {:induction false} IfKeepsPend(st: Stmt, s: State, pend: seq<Pending>, fuel: nat)
    requires st.If?
    ensures ExecStmt(st, s, pend, fuel).pend == pend
    decreases st
  {
    var (r, s1) := Eval(st.cond, s);
    if r.Got? && st.els.ElseIf? && st.els.chained.If? { IfKeepsPend(st.els.chained, s1, pend, fuel); }
  }

  lemma {:induction false} StmtTheorem(st: Stmt, stack: seq<Open>, bases: seq<nat>, ids: Ids, s: State, t: State, fuel: nat)
    requires |stack| > 0 && LoopBase(bases) < |stack| && Lowerable(st, Static(stack), bases != [])
    requires Same(s, t) && StackOk(stack, s.env)
    ensures StmtSound(st, stack, bases, ids, s, t, fuel)
    decreases fuel, st, 0
  {
    hide StmtSound, Eval, PrepareTry, LowerStmts, LowerElse, LowerArms, ExecStmt, ExecStmts, RunCode, Unwind, StackOk,
         Same, Kept, Hoistable, IsSource;
    match st
    case Let(x, e, owner) => LetSound(x, e, owner, stack, bases, ids, s, t, fuel);
    case Assign(x, e) => AssignSound(x, e, stack, bases, ids, s, t, fuel);
    case ExprStmt(e) => ExprStmtSound(e, stack, bases, ids, s, t, fuel);
    case Return(result) => ReturnSound(result, stack, bases, ids, s, t, fuel);
    case If(c, thn, els) =>
      if Eval(c, s).0.Got? {
        var p := PrepareTry(c, Static(stack), ids);
        PreparedState(c, Nop, stack, ids, s, t, fuel);
        var (r, s1) := Eval(c, s);
        var t1 := Eval(p.residual, RunCode(p.code, t, fuel).1).1;
        if Truthy(r.v) {
          InnerScopeTheorem(thn, stack, bases, p.ids, s1, t1, fuel);
        } else {
          ElseTheorem(els, stack, bases, LowerScope(thn, Static(stack), [], bases, p.ids).ids, s1, t1, fuel);
        }
      }
      IfSound(c, thn, els, stack, bases, ids, s, t, fuel);
    case While(c, body) =>
      WhileTheorem(c, body, stack, bases, ids, s, t, fuel);
      WhileStmtSound(c, body, stack, bases, ids, s, t, fuel);
    case For(x, lo, hi, inclusive, body) =>
      ForStmtTheorem(x, lo, hi, inclusive, body, stack, bases, ids, s, t, fuel);
      ForStmtSound(x, lo, hi, inclusive, body, stack, bases, ids, s, t, fuel);
    case Block(body) =>
      InnerScopeTheorem(body, stack, bases, ids, s, t, fuel);
      BlockSound(body, stack, bases, ids, s, t, fuel);
    case Break => BreakSound(st, stack, bases, ids, s, t, fuel);
    case Continue => BreakSound(st, stack, bases, ids, s, t, fuel);
    case Defer(e) => DeferSound(e, stack, bases, ids, s, t, fuel);
    case Match(subject, variants, arms) =>
      var p := PrepareTry(subject, Static(stack), ids);
      var m := MatchSubject(p.ids.matchId);
      if Eval(subject, s).0.Got? {
        PreparedState(subject, Nop, stack, ids, s, t, fuel);
        PrepareIds(subject, Static(stack), ids);
        PrepareSound(subject, stack, ids, s, t, fuel);
        ResidualStored(subject, m, stack, ids, s, t, fuel);
        var (r, s1) := Eval(subject, s);
        CoveredHasArm(variants, arms, r.v);
        ArmsTheorem(arms, variants, r.v, m, Exhaustive(variants, arms), stack, bases, p.ids.(matchId := p.ids.matchId + 1),
                    s1, StoreResidual(p, m, t, fuel), fuel);
      }
      MatchSound(subject, variants, arms, stack, bases, ids, s, t, fuel);
  }

  lemma {:induction false} CoveredHasArm(variants: nat, arms: Arms, v: Value)
    requires Covered(variants, arms)
    ensures Exhaustive(variants, arms) ==> SomeArm(arms, TagOf(v, variants))
  {
  }

  lemma {:induction false} StmtsTheorem(ss: Stmts, stack: seq<Open>, bases: seq<nat>, ids: Ids, s: State, t: State, fuel: nat)
    requires |stack| > 0 && LoopBase(bases) < |stack| && LowerableStmts(ss, Static(stack), bases != [])
    requires Same(s, t) && StackOk(stack, s.env)
    ensures StmtsSound(ss, stack, bases, ids, s, t, fuel)
    decreases fuel, ss, 0
  {
    hide Unwind, StackOk, Kept, ExecStmt, LowerStmt, Lowerable;
    StaticSetTop(stack, TopPend(stack));
    match ss
    case Done => KeptSelf(t, ids); RunNop(t, fuel);
    case Then(st, rest) =>
      StmtTheorem(st, stack, bases, ids, s, t, fuel);
      var a := LowerStmt(st, Static(stack), bases, ids);
      LowerIdsStmt(st, Static(stack), bases, ids);
      var r := ExecStmt(st, s, TopPend(stack), fuel);
      var t1 := RunCode(a.code, t, fuel).1;
      var b := LowerStmts(rest, SetTop(Static(stack), a.top), bases, a.ids);
      RunAppend(a.code, b.code, t, fuel);
      if r.out.Normal? {
        var stack1 := WithTop(stack, r.pend);
        StaticSetTop(stack, r.pend);
        StmtsTheorem(rest, stack1, bases, a.ids, r.st, t1, fuel);
        var r2 := ExecStmts(rest, r.st, r.pend, fuel);
        var (o2, t2) := RunCode(b.code, t1, fuel);
        assert WithTop(stack1, r2.pend) == WithTop(stack, r2.pend);
        SimulatesFrom(r2.out, r2.st, r2.pend, stack1, LoopBase(bases), ids, a.ids, t, t1, o2, t2);
      }
  }

  lemma {:induction false} ScopeTheorem(body: Stmts, pend: seq<Pending>, stack: seq<Open>, mark: nat, bases: seq<nat>, ids: Ids,
                                        s: State, t: State, fuel: nat)
    requires StackOk(stack + [Open(pend, mark)], s.env) && Same(s, t) && LoopBase(bases) <= |stack|
    requires LowerableStmts(body, Push(Static(stack), Actions(pend)), bases != [])
    ensures ScopeSound(body, pend, stack, mark, bases, ids, s, t, fuel)
    decreases fuel, body, 1
  {
    var stack2 := stack + [Open(pend, mark)];
    StaticPush(stack, Open(pend, mark));
    assert TopPend(stack2) == pend;
    StmtsTheorem(body, stack2, bases, ids, s, t, fuel);
    ScopeFromStmts(body, pend, stack, mark, bases, ids, s, t, fuel);
  }

  lemma {:induction false} InnerScopeTheorem(body: Stmts, stack: seq<Open>, bases: seq<nat>, ids: Ids, s: State, t: State, fuel: nat)
    requires |stack| > 0 && StackOk(stack, s.env) && Same(s, t) && LoopBase(bases) <= |stack|
    requires LowerableStmts(body, Push(Static(stack), []), bases != [])
    ensures ScopeSound(body, [], stack, |s.env|, bases, ids, s, t, fuel)
    decreases fuel, body, 2
  {
    StackOkInner(stack, s.env);
    ScopeTheorem(body, [], stack, |s.env|, bases, ids, s, t, fuel);
  }

  lemma {:induction false} ElseTheorem(els: Else, stack: seq<Open>, bases: seq<nat>, ids: Ids, s: State, t: State, fuel: nat)
    requires |stack| > 0 && LoopBase(bases) < |stack| && LowerableElse(els, Static(stack), bases != [])
    requires Same(s, t) && StackOk(stack, s.env)
    ensures ElseSound(els, stack, bases, ids, s, t, fuel)
    decreases fuel, els, 0
  {
    hide Unwind, StackOk, Kept, ExecStmt, LowerStmt, Lowerable, LowerStmts, ExecStmts, RunCode, Static;
    assert WithTop(stack, TopPend(stack)) == stack;
    KeptSelf(t, ids);
    match els
    case NoElse => RunEmptyBlock(t, fuel);
    case ElseBlock(body) =>
      InnerScopeTheorem(body, stack, bases, ids, s, t, fuel);
      var low := LowerScope(body, Static(stack), [], bases, ids);
      BlockIsTruncation(low.code, t, fuel);
      var (o, s1) := ExecScope(body, s, fuel);
      ScopeToStmt(o, s1, stack, LoopBase(bases), ids, ids, t, t, o, RunBlock(low.code, t, fuel).1);
    case ElseIf(chained) =>
      StmtTheorem(chained, stack, bases, ids, s, t, fuel);
      IfKeepsPend(chained, s, TopPend(stack), fuel);
      ExecStmtGrows(chained, s, TopPend(stack), fuel);
      var r := ExecStmt(chained, s, TopPend(stack), fuel);
      var (o, t1) := RunCode(LowerStmt(chained, Static(stack), bases, ids).code, t, fuel);
      MatchExit(r.out, r.st, stack, LoopBase(bases), ids, s.env, t, o, t1);
  }

  lemma {:induction false} WhileTheorem(c: Expr, body: Stmts, stack: seq<Open>, bases: seq<nat>, ids: Ids, s: State, t: State, fuel: nat)
    requires |stack| > 0 && LoopBase(bases) < |stack| && Liftable(c)
    requires LowerableStmts(body, Push(Static(stack), []), true)
    requires Same(s, t) && StackOk(stack, s.env)
    ensures WhileSound(c, body, stack, bases, ids, s, t, fuel)
    decreases fuel, body, 4
  {
    hide Unwind, StackOk, Kept, LowerStmts, ExecStmts, RunCode, Static, LowerableStmts, Eval, PrepareTry, LoopCode;
    if fuel > 0 {
      var (r, s1) := Eval(c, s);
      RoundTheorem(c, body, stack, bases, ids, s, t, fuel - 1);
      if r.Got? && Truthy(r.v) {
        var (out, s2) := ExecScope(body, s1, fuel - 1);
        if out.Normal? || out.Continued? {
          EvalKeepsNames(c, s);
          StackOkSameNames(stack, s.env, s1.env);
          ExecScopeGrows(body, s1, fuel - 1);
          StackOkSameNames(stack, s1.env, s2.env);
          var code := LoopCode(c, body, Static(stack), bases + [|stack|], ids);
          var t2 := RunBlock(code.1, Eval(code.0, t).1, fuel - 1).1;
          WhileTheorem(c, body, stack, bases, ids, s2, t2, fuel - 1);
        }
      }
      WhileStep(c, body, stack, bases, ids, s, t, fuel);
    } else {
      assert WithTop(stack, TopPend(stack)) == stack;
    }
  }

  lemma {:induction false} RoundTheorem(c: Expr, body: Stmts, stack: seq<Open>, bases: seq<nat>, ids: Ids, s: State, t: State, fuel: nat)
    requires |stack| > 0 && Liftable(c) && LowerableStmts(body, Push(Static(stack), []), true)
    requires Same(s, t) && StackOk(stack, s.env)
    ensures RoundSound(c, body, stack, bases, ids, s, t, fuel)
    decreases fuel, body, 3
  {
    hide Unwind, StackOk, Kept, LowerStmts, ExecStmts, RunCode, Static, LowerableStmts, Eval, PrepareTry, LoopCode, RoundSound, ScopeSound;
    var (r, s1) := Eval(c, s);
    EvalKeepsNames(c, s);
    StackOkSameNames(stack, s.env, s1.env);
    if HasTry(c) {
      if r.Got? && Truthy(r.v) {
        StaticPush(stack, Open([], |s.env|));
        StackOkInner(stack, s.env);
        PreparedState(c, Nop, stack + [Open([], |s.env|)], ids, s, t, fuel);
        InnerScopeTheorem(body, stack, bases + [|stack|], LoopBodyIds(c, Static(stack), ids), s1, AfterCond(c, stack, ids, t, fuel), fuel);
      }
      TryRound(c, body, stack, bases, ids, s, t, fuel);
    } else {
      if r.Got? && Truthy(r.v) {
        EvalCongruent(c, s, t);
        InnerScopeTheorem(body, stack, bases + [|stack|], ids, s1, Eval(c, t).1, fuel);
      }
      PlainRound(c, body, stack, bases, ids, s, t, fuel);
    }
  }

  lemma {:induction false} ForStmtTheorem(x: Name, lo: Expr, hi: Expr, inclusive: bool, body: Stmts,
                                          stack: seq<Open>, bases: seq<nat>, ids: Ids, s: State, t: State, fuel: nat)
    requires |stack| > 0 && LoopBase(bases) < |stack| && Liftable(lo) && Liftable(hi) && HoistablePair(lo, hi)
    requires Free(x, Static(stack)) && LowerableStmts(body, Push(Static(stack), []), true)
    requires Same(s, t) && StackOk(stack, s.env)
    ensures var p := PrepareTry(lo, Static(stack), ids);
      var q := PrepareTry(hi, Static(stack), p.ids);
      var r := q.ids.rangeId;
      var (started, first, last, s3) := ForStart(x, lo, hi, s);
      var t6 := RangeState(p, q, RunCode(Append(p.code, q.code), t, fuel).1);
      started ==>
        ForSound(x, last, RangeEnd(r), inclusive, ForStarts(first, last, inclusive), body, stack, bases,
                 q.ids.(rangeId := r + 1), s3, DeclareCell(t6, x, Num(first), NoFlag), fuel)
    decreases fuel, body, 4
  {
    hide Unwind, StackOk, Kept, LowerStmts, ExecStmts, RunCode, Static, LowerableStmts, Eval, PrepareTry, ForSound, RangeState, SameNames;
    var (a, s1) := Eval(lo, s);
    var (b, s2) := Eval(hi, s1);
    if a.Got? && b.Got? {
      RangeStored(lo, hi, stack, ids, s, t, fuel);
      EvalKeepsNames(lo, s);
      EvalKeepsNames(hi, s1);
      StackOkSameNames(stack, s.env, s1.env);
      StackOkSameNames(stack, s1.env, s2.env);
      StackOkDeclare(stack, s2.env, Cell(x, Num(AsInt(a.v)), NoFlag));
      var p := PrepareTry(lo, Static(stack), ids);
      var q := PrepareTry(hi, Static(stack), p.ids);
      var r := q.ids.rangeId;
      var t6 := RangeState(p, q, RunCode(Append(p.code, q.code), t, fuel).1);
      ForTheorem(x, AsInt(b.v), RangeEnd(r), inclusive, ForStarts(AsInt(a.v), AsInt(b.v), inclusive), body, stack, bases,
                 q.ids.(rangeId := r + 1), DeclareCell(s2, x, Num(AsInt(a.v)), NoFlag),
                 DeclareCell(t6, x, Num(AsInt(a.v)), NoFlag), fuel);
    }
  }

  lemma {:induction false} ForTheorem(x: Name, last: int, hi: Temp, inclusive: bool, more: bool, body: Stmts,
                                      stack: seq<Open>, bases: seq<nat>, ids: Ids, s: State, t: State, fuel: nat)
    requires |stack| > 0 && LoopBase(bases) < |stack| && LowerableStmts(body, Push(Static(stack), []), true)
    requires Same(s, t) && StackOk(stack, s.env) && Below(hi, ids) && AsInt(ReadTemp(t, hi)) == last
    ensures ForSound(x, last, hi, inclusive, more, body, stack, bases, ids, s, t, fuel)
    decreases fuel, body, 3
  {
    hide Unwind, StackOk, LowerStmts, ExecStmts, RunCode, Static, LowerableStmts, SameNames, ForStep;
    assert WithTop(stack, TopPend(stack)) == stack;
    KeptSelf(t, ids);
    if fuel > 0 && more {
      InnerScopeTheorem(body, stack, bases + [|stack|], ids, s, t, fuel - 1);
      var (out, s1) := ExecScope(body, s, fuel - 1);
      if out.Normal? || out.Continued? {
        var code := LowerScope(body, Static(stack), [], bases + [|stack|], ids).code;
        BlockIsTruncation(code, t, fuel - 1);
        var t1 := RunBlock(code, t, fuel - 1).1;
        RoundJoins(out, s1, stack, LoopBase(bases), ids, ids, t, t, out, t1);
        StepCongruent(x, last, inclusive, s1, t1);
        var (again, s2) := ForStep(x, last, inclusive, s1);
        var t2 := ForStep(x, last, inclusive, t1).1;
        ExecScopeGrows(body, s, fuel - 1);
        StepKeepsNames(x, last, inclusive, s1);
        StackOkSameNames(stack, s.env, s1.env);
        StackOkSameNames(stack, s1.env, s2.env);
        ForTheorem(x, last, hi, inclusive, again, body, stack, bases, ids, s2, t2, fuel - 1);
      }
      ForRound(x, last, hi, inclusive, body, stack, bases, ids, s, t, fuel);
    }
  }

  lemma {:induction false} ArmsTheorem(arms: Arms, variants: nat, v: Value, m: Temp, exhaustive: bool, stack: seq<Open>,
                                       bases: seq<nat>, ids: Ids, s: State, t: State, fuel: nat)
    requires |stack| > 0 && LoopBase(bases) < |stack| && LowerableArms(arms, Static(stack), bases != [])
    requires exhaustive ==> SomeArm(arms, TagOf(v, variants))
    requires Same(s, t) && StackOk(stack, s.env) && ReadTemp(t, m) == v
    ensures ArmsSound(arms, variants, v, m, exhaustive, stack, bases, ids, s, t, fuel)
    decreases fuel, arms, 0
  {
    hide Unwind, StackOk, Kept, LowerScope, ExecStmts, RunCode, Static, LowerableStmts, ScopeSound, ArmsSound;
    match arms
    case NoArms => NoArmsSound(variants, v, m, exhaustive, stack, bases, ids, s, t, fuel);
    case Arm(pattern, binder, body, rest) =>
      if pattern.None? || TagOf(v, variants) == pattern.value {
        var s1 := DeclareBinder(binder, v, s);
        StackOkBinder(binder, v, stack, s);
        BinderActions(binder, |s1.env|);
        ScopeTheorem(body, BinderPending(binder, |s1.env|), stack, |s.env|, bases, ids, s1, DeclareBinder(binder, v, t), fuel);
        ArmChosen(arms, variants, v, m, exhaustive, stack, bases, ids, s, t, fuel);
      } else {
        var inner := LowerScope(body, Static(stack), BinderTop(binder), bases, ids).ids;
        ArmsTheorem(rest, variants, v, m, exhaustive, stack, bases, inner, s, t, fuel);
        ArmSkipped(arms, variants, v, m, exhaustive, stack, bases, ids, s, t, fuel);
      }
  }

  lemma {:induction false} NoArmsSound(variants: nat, v: Value, m: Temp, exhaustive: bool, stack: seq<Open>,
                                       bases: seq<nat>, ids: Ids, s: State, t: State, fuel: nat)
    requires |stack| > 0 && Same(s, t)
    ensures ArmsSound(NoArms, variants, v, m, exhaustive, stack, bases, ids, s, t, fuel)
  {
    hide Unwind, Static;
    KeptSelf(t, ids);
  }

  lemma {:induction false} ArmChosen(arms: Arms, variants: nat, v: Value, m: Temp, exhaustive: bool, stack: seq<Open>,
                                     bases: seq<nat>, ids: Ids, s: State, t: State, fuel: nat)
    requires |stack| > 0 && LoopBase(bases) < |stack| && Same(s, t) && ReadTemp(t, m) == v
    requires arms.Arm? && (arms.pattern.None? || TagOf(v, variants) == arms.pattern.value)
    requires var s1 := DeclareBinder(arms.binder, v, s);
      ScopeSound(arms.body, BinderPending(arms.binder, |s1.env|), stack, |s.env|, bases, ids, s1, DeclareBinder(arms.binder, v, t), fuel)
    ensures ArmsSound(arms, variants, v, m, exhaustive, stack, bases, ids, s, t, fuel)
  {
    hide Unwind, Kept, ScopeSound, LowerScope, ExecStmts, RunBlock, Static, TagOf;
    var Arm(pattern, binder, body, rest) := arms;
    ArmTaken(binder, body, v, m, stack, bases, ids, s, t, fuel);
    if pattern.Some? {
      var low := LowerScope(body, Static(stack), BinderTop(binder), bases, ids);
      RungsSkip(m, variants, pattern.value, Append(BinderCode(binder, m), low.code),
                LowerArms(rest, variants, m, exhaustive, Static(stack), bases, low.ids).rungs, t, fuel);
    }
  }

  lemma {:induction false} ArmSkipped(arms: Arms, variants: nat, v: Value, m: Temp, exhaustive: bool, stack: seq<Open>,
                                      bases: seq<nat>, ids: Ids, s: State, t: State, fuel: nat)
    requires |stack| > 0 && ReadTemp(t, m) == v
    requires arms.Arm? && arms.pattern.Some? && TagOf(v, variants) != arms.pattern.value
    requires exhaustive ==> SomeArm(arms, TagOf(v, variants))
    requires var inner := LowerScope(arms.body, Static(stack), BinderTop(arms.binder), bases, ids).ids;
      ArmsSound(arms.rest, variants, v, m, exhaustive, stack, bases, inner, s, t, fuel)
    ensures ArmsSound(arms, variants, v, m, exhaustive, stack, bases, ids, s, t, fuel)
  {
    hide Unwind, Kept, LowerScope, ExecStmts, RunBlock, Static, TagOf;
    var Arm(pattern, binder, body, rest) := arms;
    var low := LowerScope(body, Static(stack), BinderTop(binder), bases, ids);
    var rungs := LowerArms(rest, variants, m, exhaustive, Static(stack), bases, low.ids).rungs;
    RungsSkip(m, variants, pattern.value, Append(BinderCode(binder, m), low.code), rungs, t, fuel);
    LowerIdsScope(body, Static(stack), BinderTop(binder), bases, ids);
    KeptSelf(t, ids);
    var (out, s2) := ExecArms(rest, variants, v, s, fuel);
    var (o, t2) := RunRungs(rungs, t, fuel);
    SimulatesFrom(out, s2, TopPend(stack), stack, LoopBase(bases), ids, low.ids, t, t, o, t2);
    assert rest.NoArms? ==> HasWildcard(arms) == false && Patterns(arms) == {pattern.value};
    assert !(exhaustive && rest.NoArms?);
    assert ExecArms(arms, variants, v, s, fuel) == (out, s2);
    assert LowerArms(arms, variants, m, exhaustive, Static(stack), bases, ids).rungs ==
      Rung(TagIs(m, variants, pattern.value), Append(BinderCode(binder, m), low.code), rungs);
  }
}
