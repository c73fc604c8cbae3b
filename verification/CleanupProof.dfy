/** The main theorem of the lowering: generated code with its cleanup inlined behaves like the
    source semantics that unwinds scopes at run time. */
module CleanupProof {
  import opened MortSyntax
  import opened MortSemantics
  import opened CleanupLowering
  import opened EvaluationFacts
  import opened UnwindingProof
  import opened TryProof
  import opened SourceFacts

  // ----- the programs the theorem speaks about -----

  /** No cleanup registered in an open scope mentions x, so declaring x captures nothing. */
  predicate Free(x: Name, scopes: Scopes)
  {
    forall i | 0 <= i < |scopes| :: NoMention(x, scopes[i])
  }

  predicate NoMention(x: Name, acts: seq<Action>)
  {
    forall i | 0 <= i < |acts| :: x !in ActionMentions(acts[i])
  }

  predicate Liftable(e: Expr)
  {
    IsSource(e) && Hoistable(e)
  }

  function Patterns(arms: Arms): set<nat>
  {
    match arms
    case NoArms => {}
    case Arm(p, _, _, rest) => (if p.Some? then {p.value} else {}) + Patterns(rest)
  }

  /** The checker rejects an enum match that neither names every variant nor has a wildcard. */
  predicate Covered(variants: nat, arms: Arms)
  {
    variants > 0 ==> HasWildcard(arms) || forall t | 0 <= t < variants :: t in Patterns(arms)
  }

  /** The cleanup of the current scope after s, as the generator tracks it. */
  function TopAfter(s: Stmt, top: seq<Action>): seq<Action>
  {
    match s
    case Let(x, _, owner) => if owner then top + [Drop(x)] else top
    case Defer(e) => top + [Run(e)]
    case _ => top
  }

  /** No declaration captures a name that pending cleanup mentions, or is mentioned by what is left of
      its own initializer; tries can be hoisted; break and continue occur in loops; enum matches are exhaustive; deferred expressions hold no try. */
  predicate Lowerable(s: Stmt, scopes: Scopes, inLoop: bool)
    requires |scopes| > 0
    decreases s, 0
  {
    match s
    case Let(x, e, _) => Liftable(e) && Free(x, scopes) && x !in ResidualReads(e)
    case Assign(_, e) => Liftable(e)
    case ExprStmt(e) => Liftable(e)
    case Return(None) => true
    case Return(Some(e)) => Liftable(e)
    case If(c, thn, els) =>
      Liftable(c) && LowerableStmts(thn, Push(scopes, []), inLoop) && LowerableElse(els, scopes, inLoop)
    case While(c, body) => Liftable(c) && LowerableStmts(body, Push(scopes, []), true)
    case For(x, lo, hi, _, body) =>
      && Liftable(lo) && Liftable(hi) && HoistablePair(lo, hi)
      && Free(x, scopes) && LowerableStmts(body, Push(scopes, []), true)
    case Block(body) => LowerableStmts(body, Push(scopes, []), inLoop)
    case Break => inLoop
    case Continue => inLoop
    case Defer(e) => IsSource(e) && !HasTry(e)
    case Match(subject, variants, arms) =>
      Liftable(subject) && Covered(variants, arms) && LowerableArms(arms, scopes, inLoop)
  }

  predicate LowerableStmts(ss: Stmts, scopes: Scopes, inLoop: bool)
    requires |scopes| > 0
    decreases ss, 0
  {
    match ss
    case Done => true
    case Then(s, rest) =>
      Lowerable(s, scopes, inLoop) && LowerableStmts(rest, SetTop(scopes, TopAfter(s, Top(scopes))), inLoop)
  }

  predicate LowerableElse(els: Else, scopes: Scopes, inLoop: bool)
    requires |scopes| > 0
    decreases els, 0
  {
    match els
    case NoElse => true
    case ElseBlock(body) => LowerableStmts(body, Push(scopes, []), inLoop)
    case ElseIf(chained) => chained.If? && Lowerable(chained, scopes, inLoop)
  }

  predicate LowerableArms(arms: Arms, scopes: Scopes, inLoop: bool)
    requires |scopes| > 0
    decreases arms, 0
  {
    match arms
    case NoArms => true
    case Arm(_, binder, body, rest) =>
      && (binder.Some? ==> Free(binder.value.name, scopes))
      && LowerableStmts(body, Push(scopes, BinderTop(binder)), inLoop)
      && LowerableArms(rest, scopes, inLoop)
  }

  // ----- the simulation relation -----

  function WithTop(stack: seq<Open>, pend: seq<Pending>): seq<Open>
    requires |stack| > 0
  {
    stack[..|stack| - 1] + [stack[|stack| - 1].(pend := pend)]
  }

  function TopPend(stack: seq<Open>): seq<Pending>
    requires |stack| > 0
  {
    stack[|stack| - 1].pend
  }

  /** The generated code has already done what leaving the scopes from k on will do. */
  predicate Left(stack: seq<Open>, k: nat, s: State, t: State)
  {
    Above(Unwind(stack, k, s), t) && k < |stack| && |Unwind(stack, k, s).env| == stack[k].mark
  }

  ghost predicate Simulates(out: Outcome, s: State, pend: seq<Pending>, stack: seq<Open>, base: nat, ids: Ids,
                            t0: State, o: Outcome, t: State)
    requires |stack| > 0
  {
    o == out &&
    match out
    case Normal => Same(s, t) && Kept(t0, t, ids)
    case Timeout => Same(s, t)
    case Broke => Left(WithTop(stack, pend), base, s, t) && Kept(t0, t, ids)
    case Continued => Left(WithTop(stack, pend), base, s, t) && Kept(t0, t, ids)
    case Returned(_) => Left(WithTop(stack, pend), 0, s, t)
  }

  /** As Left, once the bindings of the scope above `stack` are gone. */
  predicate Exited(stack: seq<Open>, k: nat, s: State, t: State)
  {
    if k < |stack| then Above(Unwind(stack, k, s), t) && |Unwind(stack, k, s).env| == stack[k].mark
    else Same(s, t)
  }

  /** The same after leaving a scope opened above `stack`. */
  ghost predicate SimulatesScope(out: Outcome, s: State, stack: seq<Open>, base: nat, ids: Ids,
                                 t0: State, o: Outcome, t: State)
  {
    o == out &&
    match out
    case Normal => Same(s, t) && Kept(t0, t, ids)
    case Timeout => Same(s, t)
    case Broke => Exited(stack, base, s, t) && Kept(t0, t, ids)
    case Continued => Exited(stack, base, s, t) && Kept(t0, t, ids)
    case Returned(_) => Exited(stack, 0, s, t)
  }

  // ----- bookkeeping -----

  lemma ActionsAt(pend: seq<Pending>)
    ensures forall i | 0 <= i < |pend| :: Actions(pend)[i] == pend[i].act
  {
  }

  lemma {:induction false} StaticAt(stack: seq<Open>)
    ensures forall j | 0 <= j < |stack| :: Static(stack)[j] == Actions(stack[j].pend)
  {
    if stack != [] {
      var n := |stack| - 1;
      StaticAt(stack[..n]);
      forall j | 0 <= j < |stack| ensures Static(stack)[j] == Actions(stack[j].pend) {
        if j < n { assert stack[..n][j] == stack[j]; }
      }
    }
  }

  lemma ActionsPush(pend: seq<Pending>, q: Pending)
    ensures Actions(pend + [q]) == Actions(pend) + [q.act]
  {
    assert (pend + [q])[..|pend|] == pend;
  }

  lemma StaticPush(stack: seq<Open>, scope: Open)
    ensures Static(stack + [scope]) == Push(Static(stack), Actions(scope.pend))
  {
    assert (stack + [scope])[..|stack|] == stack;
  }

  lemma StaticSetTop(stack: seq<Open>, pend: seq<Pending>)
    requires |stack| > 0
    ensures Static(WithTop(stack, pend)) == SetTop(Static(stack), Actions(pend))
    ensures Static(stack) == SetTop(Static(stack), Actions(TopPend(stack)))
    ensures Top(Static(stack)) == Actions(TopPend(stack))
    ensures WithTop(stack, TopPend(stack)) == stack
  {
    StaticInit(stack);
    StaticPush(stack[..|stack| - 1], stack[|stack| - 1].(pend := pend));
  }

  lemma {:induction false} FreeOfPending(x: Name, stack: seq<Open>)
    requires Free(x, Static(stack))
    ensures forall j, q | 0 <= j < |stack| && q in stack[j].pend :: x !in ActionMentions(q.act)
  {
    StaticAt(stack);
    forall j, q | 0 <= j < |stack| && q in stack[j].pend ensures x !in ActionMentions(q.act) {
      ActionsAt(stack[j].pend);
      assert NoMention(x, Static(stack)[j]);
    }
  }

  lemma UncapturedGrows(q: Pending, env: seq<Cell>, c: Cell)
    requires Uncaptured(q, env) && c.name !in ActionMentions(q.act)
    ensures Uncaptured(q, env + [c])
  {
    assert (env + [c])[q.depth..] == env[q.depth..] + [c];
  }

  /** Declaring a free name keeps every pending cleanup uncaptured. */
  lemma StackOkDeclare(stack: seq<Open>, env: seq<Cell>, c: Cell)
    requires StackOk(stack, env) && Free(c.name, Static(stack))
    ensures StackOk(stack, env + [c])
  {
    FreeOfPending(c.name, stack);
    forall j, q | 0 <= j < |stack| && q in stack[j].pend ensures Uncaptured(q, env + [c]) {
      assert AllUncaptured(stack[j].pend, env);
      UncapturedGrows(q, env, c);
    }
  }

  lemma StackOkPush(stack: seq<Open>, env: seq<Cell>, mark: nat, pend: seq<Pending>)
    requires StackOk(stack, env) && mark <= |env| && AllUncaptured(pend, env)
    requires |stack| > 0 ==> stack[|stack| - 1].mark <= mark && forall q | q in TopPend(stack) :: q.depth <= mark
    ensures StackOk(stack + [Open(pend, mark)], env)
  {
  }

  lemma StackOkRegister(stack: seq<Open>, env: seq<Cell>, act: Action)
    requires |stack| > 0 && StackOk(stack, env)
    requires act.Run? ==> IsSource(act.e) && !HasTry(act.e)
    ensures StackOk(WithTop(stack, TopPend(stack) + [Pending(|env|, act)]), env)
    ensures Actions(TopPend(stack) + [Pending(|env|, act)]) == Actions(TopPend(stack)) + [act]
  {
    ActionsPush(TopPend(stack), Pending(|env|, act));
    var stack1 := WithTop(stack, TopPend(stack) + [Pending(|env|, act)]);
    assert Uncaptured(Pending(|env|, act), env);
    forall j | 0 <= j < |stack1| ensures stack1[j].mark <= |env| && AllUncaptured(stack1[j].pend, env) {
      assert AllUncaptured(stack[j].pend, env);
    }
  }

  lemma UnwindLength(stack: seq<Open>, k: nat, s: State)
    requires StackOk(stack, s.env)
    ensures k < |stack| ==> |Unwind(stack, k, s).env| == stack[k].mark
  {
    CleanupInPlace(stack, k, s, s, 0);
  }

  lemma {:induction false} LowerIdsStmt(s: Stmt, scopes: Scopes, bases: seq<nat>, ids: Ids)
    requires |scopes| > 0
    ensures AtMost(ids, LowerStmt(s, scopes, bases, ids).ids)
    ensures LowerStmt(s, scopes, bases, ids).top == TopAfter(s, Top(scopes))
    decreases s, 0
  {
    match s
    case Let(x, e, owner) => PrepareIds(e, scopes, ids);
    case Assign(x, e) => PrepareIds(e, scopes, ids);
    case ExprStmt(e) => PrepareIds(e, scopes, ids);
    case Return(None) =>
    case Return(Some(e)) => PrepareIds(e, scopes, ids);
    case If(c, thn, els) =>
      PrepareIds(c, scopes, ids);
      var p := PrepareTry(c, scopes, ids);
      LowerIdsScope(thn, scopes, [], bases, p.ids);
      LowerIdsElse(els, scopes, bases, LowerScope(thn, scopes, [], bases, p.ids).ids);
    case While(c, body) =>
      PrepareIds(c, Push(scopes, []), ids);
      LowerIdsScope(body, scopes, [], bases + [|scopes|], ids);
      LowerIdsScope(body, scopes, [], bases + [|scopes|], PrepareTry(c, Push(scopes, []), ids).ids);
    case For(x, lo, hi, inclusive, body) =>
      PrepareIds(lo, scopes, ids);
      var p := PrepareTry(lo, scopes, ids);
      PrepareIds(hi, scopes, p.ids);
      var q := PrepareTry(hi, scopes, p.ids);
      LowerIdsScope(body, scopes, [], bases + [|scopes|], q.ids.(rangeId := q.ids.rangeId + 1));
    case Block(body) => LowerIdsScope(body, scopes, [], bases, ids);
    case Break =>
    case Continue =>
    case Defer(e) =>
    case Match(subject, variants, arms) =>
      PrepareIds(subject, scopes, ids);
      var p := PrepareTry(subject, scopes, ids);
      LowerIdsArms(arms, variants, MatchSubject(p.ids.matchId), Exhaustive(variants, arms), scopes, bases,
                   p.ids.(matchId := p.ids.matchId + 1));
  }

  lemma {:induction false} LowerIdsStmts(ss: Stmts, scopes: Scopes, bases: seq<nat>, ids: Ids)
    requires |scopes| > 0
    ensures AtMost(ids, LowerStmts(ss, scopes, bases, ids).ids)
    decreases ss, 0
  {
    match ss
    case Done =>
    case Then(s, rest) =>
      LowerIdsStmt(s, scopes, bases, ids);
      var a := LowerStmt(s, scopes, bases, ids);
      LowerIdsStmts(rest, SetTop(scopes, a.top), bases, a.ids);
  }

  lemma {:induction false} LowerIdsScope(body: Stmts, scopes: Scopes, first: seq<Action>, bases: seq<nat>, ids: Ids)
    ensures AtMost(ids, LowerScope(body, scopes, first, bases, ids).ids)
    decreases body, 1
  {
    LowerIdsStmts(body, Push(scopes, first), bases, ids);
  }

  lemma {:induction false} LowerIdsElse(els: Else, scopes: Scopes, bases: seq<nat>, ids: Ids)
    requires |scopes| > 0
    ensures AtMost(ids, LowerElse(els, scopes, bases, ids).ids)
    decreases els, 0
  {
    match els
    case NoElse =>
    case ElseBlock(body) => LowerIdsScope(body, scopes, [], bases, ids);
    case ElseIf(chained) => LowerIdsStmt(chained, scopes, bases, ids);
  }

  lemma {:induction false} LowerIdsArms(arms: Arms, variants: nat, m: Temp, exhaustive: bool,
                                        scopes: Scopes, bases: seq<nat>, ids: Ids)
    ensures AtMost(ids, LowerArms(arms, variants, m, exhaustive, scopes, bases, ids).ids)
    decreases arms, 0
  {
    match arms
    case NoArms =>
    case Arm(pattern, binder, body, rest) =>
      LowerIdsScope(body, scopes, BinderTop(binder), bases, ids);
      LowerIdsArms(rest, variants, m, exhaustive, scopes, bases, LowerScope(body, scopes, BinderTop(binder), bases, ids).ids);
  }

  // ----- statements whose only work is an expression -----

  lemma {:induction false} KeptTrans(a: State, b: State, c: State, early: Ids, late: Ids)
    requires Kept(a, b, early) && Kept(b, c, late) && AtMost(early, late)
    ensures Kept(a, c, early)
  {
    forall x | Below(x, early) ensures ReadTemp(a, x) == ReadTemp(c, x) {
      assert Below(x, late);
    }
  }

  /** A statement's expression failed: the hoisted code has already unwound everything. */
  lemma {:induction false} FailedSimulates(e: Expr, tail: Code, stack: seq<Open>, base: nat, ids: Ids, s: State, t: State, fuel: nat)
    requires |stack| > 0 && Liftable(e) && Same(s, t) && StackOk(stack, s.env) && Eval(e, s).0.Failed?
    ensures var (r, s1) := Eval(e, s);
      var p := PrepareTry(e, Static(stack), ids);
      var (o, t1) := RunCode(Append(p.code, tail), t, fuel);
      && Simulates(Failure(r.n), s1, TopPend(stack), stack, base, ids, t, o, t1)
      && |t1.env| == |t.env|
  {
    hide Eval, PrepareTry, RunCode, Unwind;
    PrepareSound(e, stack, ids, s, t, fuel);
    RunAppend(PrepareTry(e, Static(stack), ids).code, tail, t, fuel);
    EvalKeepsNames(e, s);
    StackOkSameNames(stack, s.env, Eval(e, s).1.env);
    UnwindLength(stack, 0, Eval(e, s).1);
    StaticSetTop(stack, TopPend(stack));
  }

  /** The state before the statement's own C statement, when its expression delivered a value. */
  lemma {:induction false} PreparedState(e: Expr, tail: Code, stack: seq<Open>, ids: Ids, s: State, t: State, fuel: nat)
    requires Liftable(e) && Same(s, t) && StackOk(stack, s.env) && Eval(e, s).0.Got?
    ensures var (r, s1) := Eval(e, s);
      var p := PrepareTry(e, Static(stack), ids);
      var (o, t1) := RunCode(p.code, t, fuel);
      && o.Normal? && Kept(t, t1, ids) && SameNames(t.env, t1.env)
      && RunCode(Append(p.code, tail), t, fuel) == RunCode(tail, t1, fuel)
      && Eval(p.residual, t1).0 == r
      && Same(s1, Eval(p.residual, t1).1)
      && Eval(p.residual, t1).1.temps == t1.temps
      && SameNames(s.env, s1.env)
      && AtMost(ids, p.ids)
      && StackOk(stack, s1.env)
  {
    hide Eval, PrepareTry, RunCode, Unwind;
    var p := PrepareTry(e, Static(stack), ids);
    PrepareSound(e, stack, ids, s, t, fuel);
    RunAppend(p.code, tail, t, fuel);
    EvalKeepsTemps(p.residual, RunCode(p.code, t, fuel).1);
    EvalKeepsNames(e, s);
    PrepareIds(e, Static(stack), ids);
    StackOkSameNames(stack, s.env, Eval(e, s).1.env);
  }

  lemma {:induction false} ExprStmtSound(e: Expr, stack: seq<Open>, bases: seq<nat>, ids: Ids, s: State, t: State, fuel: nat)
    requires |stack| > 0 && Liftable(e) && Same(s, t) && StackOk(stack, s.env)
    ensures StmtSound(ExprStmt(e), stack, bases, ids, s, t, fuel)
  {
    hide Eval, PrepareTry, RunCode, Unwind, Kept, StackOk, SameNames, Left, Static, Hoistable, IsSource;
    var p := PrepareTry(e, Static(stack), ids);
    StaticSetTop(stack, TopPend(stack));
    var tail := One(Evaluate(p.residual));
    if Eval(e, s).0.Failed? {
      FailedSimulates(e, tail, stack, LoopBase(bases), ids, s, t, fuel);
    } else {
      PreparedState(e, tail, stack, ids, s, t, fuel);
      var t1 := RunCode(p.code, t, fuel).1;
      RunOne(Evaluate(p.residual), t1, fuel);
      KeptSameTemps(t, t1, Eval(p.residual, t1).1, ids);
    }
  }

  lemma {:induction false} KeptSameTemps(a: State, b: State, c: State, ids: Ids)
    requires Kept(a, b, ids) && c.temps == b.temps
    ensures Kept(a, c, ids)
  {
  }

  lemma {:induction false} WriteFacts(x: Name, v: Value, s: State, t: State)
    requires Same(s, t)
    ensures Same(WriteCell(s, x, v), WriteCell(t, x, v))
    ensures SameNames(s.env, WriteCell(s, x, v).env) && WriteCell(t, x, v).temps == t.temps
  {
  }

  lemma {:induction false} AssignSound(x: Name, e: Expr, stack: seq<Open>, bases: seq<nat>, ids: Ids, s: State, t: State, fuel: nat)
    requires |stack| > 0 && Liftable(e) && Same(s, t) && StackOk(stack, s.env)
    ensures StmtSound(Assign(x, e), stack, bases, ids, s, t, fuel)
  {
    hide Eval, PrepareTry, RunCode, Unwind, Kept, StackOk, Left, Static, Hoistable, IsSource, SameNames, WriteCell;
    var p := PrepareTry(e, Static(stack), ids);
    StaticSetTop(stack, TopPend(stack));
    var tail := One(SetVar(x, p.residual));
    if Eval(e, s).0.Failed? {
      FailedSimulates(e, tail, stack, LoopBase(bases), ids, s, t, fuel);
    } else {
      PreparedState(e, tail, stack, ids, s, t, fuel);
      var t1 := RunCode(p.code, t, fuel).1;
      RunOne(SetVar(x, p.residual), t1, fuel);
      var (r, s1) := Eval(e, s);
      var s2 := WriteCell(s1, x, r.v);
      WriteFacts(x, r.v, s1, Eval(p.residual, t1).1);
      StackOkSameNames(stack, s1.env, s2.env);
      KeptSameTemps(t, t1, WriteCell(Eval(p.residual, t1).1, x, r.v), ids);
    }
  }

  /** What has to be shown of each statement. */
  ghost predicate StmtSound(st: Stmt, stack: seq<Open>, bases: seq<nat>, ids: Ids, s: State, t: State, fuel: nat)
    requires |stack| > 0
  {
    var r := ExecStmt(st, s, TopPend(stack), fuel);
    var low := LowerStmt(st, Static(stack), bases, ids);
    var (o, t1) := RunCode(low.code, t, fuel);
    && Simulates(r.out, r.st, r.pend, stack, LoopBase(bases), ids, t, o, t1)
    && (r.out.Normal? ==> Actions(r.pend) == low.top && StackOk(WithTop(stack, r.pend), r.st.env))
  }

  lemma {:induction false} LetSound(x: Name, e: Expr, owner: bool, stack: seq<Open>, bases: seq<nat>, ids: Ids, s: State, t: State, fuel: nat)
    requires |stack| > 0 && Liftable(e) && Free(x, Static(stack)) && x !in ResidualReads(e) && Same(s, t) && StackOk(stack, s.env)
    ensures StmtSound(Let(x, e, owner), stack, bases, ids, s, t, fuel)
  {
    hide StmtSound, Eval, PrepareTry, RunCode, StackOk, Touches, ResidualReads, Mentions;
    var p := PrepareTry(e, Static(stack), ids);
    ResidualMentions(e, Static(stack), ids);
    UnmentionedIsUntouched(p.residual, x, DeclareCell(RunCode(p.code, t, fuel).1, x, Num(0), NoFlag));
    LetRuns(x, e, owner, stack, bases, ids, s, t, fuel);
  }

  /** What is left of the initializer comes to use the variable that it initializes. */
  predicate UsesItself(x: Name, e: Expr, scopes: Scopes, ids: Ids, t: State, fuel: nat)
  {
    var p := PrepareTry(e, scopes, ids);
    Touches(p.residual, x, DeclareCell(RunCode(p.code, t, fuel).1, x, Num(0), NoFlag))
  }

  lemma {:induction false} LetRuns(x: Name, e: Expr, owner: bool, stack: seq<Open>, bases: seq<nat>, ids: Ids, s: State, t: State, fuel: nat)
    requires |stack| > 0 && Liftable(e) && Free(x, Static(stack)) && Same(s, t) && StackOk(stack, s.env)
    requires Eval(e, s).0.Got? ==> !UsesItself(x, e, Static(stack), ids, t, fuel)
    ensures StmtSound(Let(x, e, owner), stack, bases, ids, s, t, fuel)
  {
    hide Eval, PrepareTry, RunCode, Unwind, Kept, StackOk;
    var p := PrepareTry(e, Static(stack), ids);
    StaticSetTop(stack, TopPend(stack));
    var tail := DeclareOwner(x, p.residual, owner);
    if Eval(e, s).0.Failed? {
      FailedSimulates(e, tail, stack, LoopBase(bases), ids, s, t, fuel);
    } else {
      PreparedState(e, tail, stack, ids, s, t, fuel);
      var t1 := RunCode(p.code, t, fuel).1;
      var (r, s1) := Eval(e, s);
      DeclareRuns(x, p.residual, owner, t1, fuel);
      var cell := Cell(x, r.v, if owner then Live else NoFlag);
      StackOkDeclare(stack, s1.env, cell);
      KeptSameTemps(t, t1, RunCode(tail, t1, fuel).1, ids);
      if owner {
        StackOkRegister(stack, s1.env + [cell], Drop(x));
      }
    }
  }

  lemma {:induction false} DeclareRuns(x: Name, e: Expr, owner: bool, t: State, fuel: nat)
    requires Eval(e, t).0.Got? && !Touches(e, x, DeclareCell(t, x, Num(0), NoFlag))
    ensures RunCode(DeclareOwner(x, e, owner), t, fuel) ==
      (Normal, DeclareCell(Eval(e, t).1, x, Eval(e, t).0.v, if owner then Live else NoFlag))
  {
    hide Eval, Touches, DeclareInit;
    DeclareInitIs(t, x, e);
    var (r, t1) := Eval(e, t);
    var t2 := DeclareCell(t1, x, r.v, NoFlag);
    if owner {
      RunOne(DeclareLive(x), t2, fuel);
      var n := |t1.env|;
      assert Find(t2.env, x) == n;
      assert t2.env[n := t2.env[n].(flag := Live)] == t1.env + [Cell(x, r.v, Live)];
    }
  }

  lemma {:induction false} DeferSound(e: Expr, stack: seq<Open>, bases: seq<nat>, ids: Ids, s: State, t: State, fuel: nat)
    requires |stack| > 0 && IsSource(e) && !HasTry(e) && Same(s, t) && StackOk(stack, s.env)
    ensures StmtSound(Defer(e), stack, bases, ids, s, t, fuel)
  {
    hide StackOk;
    StaticSetTop(stack, TopPend(stack));
    StackOkRegister(stack, s.env, Run(e));
  }

  // ----- leaving: return, break, continue -----

  /** Cleanup of scopes k.. emitted in place before a jump. */
  lemma {:induction false} JumpSound(k: nat, jump: CStmt, stack: seq<Open>, s: State, t: State, fuel: nat)
    requires k < |stack| && Same(s, t) && StackOk(stack, s.env)
    ensures var t1 := RunCode(EmitScopes(Static(stack), k), t, fuel).1;
      && RunCode(Append(EmitScopes(Static(stack), k), One(jump)), t, fuel) == RunC(jump, t1, fuel)
      && Left(stack, k, s, t1) && t1.temps == t.temps
  {
    hide RunCode, Unwind, StackOk, EmitScopes;
    CleanupInPlace(stack, k, s, t, fuel);
    RunAppend(EmitScopes(Static(stack), k), One(jump), t, fuel);
    RunOne(jump, RunCode(EmitScopes(Static(stack), k), t, fuel).1, fuel);
  }

  lemma {:induction false} BreakSound(st: Stmt, stack: seq<Open>, bases: seq<nat>, ids: Ids, s: State, t: State, fuel: nat)
    requires (st.Break? || st.Continue?) && |stack| > 0 && LoopBase(bases) < |stack|
    requires Same(s, t) && StackOk(stack, s.env)
    ensures StmtSound(st, stack, bases, ids, s, t, fuel)
  {
    hide Unwind, EmitScopes, RunCode;
    StaticSetTop(stack, TopPend(stack));
    JumpSound(LoopBase(bases), if st.Break? then CBreak else CContinue, stack, s, t, fuel);
  }

  lemma {:induction false} ReturnSound(result: Option<Expr>, stack: seq<Open>, bases: seq<nat>, ids: Ids, s: State, t: State, fuel: nat)
    requires |stack| > 0 && (result.Some? ==> Liftable(result.value)) && Same(s, t) && StackOk(stack, s.env)
    ensures StmtSound(Return(result), stack, bases, ids, s, t, fuel)
  {
    hide Eval, PrepareTry, RunCode, Unwind, EmitScopes;
    StaticSetTop(stack, TopPend(stack));
    match result
    case None => JumpSound(0, CReturn(None), stack, s, t, fuel);
    case Some(e) =>
      var p := PrepareTry(e, Static(stack), ids);
      var x := ReturnValue(p.ids.returnId);
      var jump := Append(EmitScopes(Static(stack), 0), One(CReturn(Some(x))));
      var tail := Seq(SetTemp(x, p.residual), jump);
      if Eval(e, s).0.Failed? {
        FailedSimulates(e, tail, stack, LoopBase(bases), ids, s, t, fuel);
      } else {
        PrepareIds(e, Static(stack), ids);
        PreparedState(e, tail, stack, ids, s, t, fuel);
        PrepareSound(e, stack, ids, s, t, fuel);
        ResidualStored(e, x, stack, ids, s, t, fuel);
        var t1 := RunCode(p.code, t, fuel).1;
        var t2 := StoreResidual(p, x, t, fuel);
        RunStep(SetTemp(x, p.residual), jump, t1, t2, fuel);
        JumpSound(0, CReturn(Some(x)), stack, Eval(e, s).1, t2, fuel);
      }
  }

  lemma {:induction false} RunStep(c: CStmt, rest: Code, t1: State, t2: State, fuel: nat)
    requires RunC(c, t1, fuel) == (Normal, t2)
    ensures RunCode(Seq(c, rest), t1, fuel) == RunCode(rest, t2, fuel)
  {
  }
}
