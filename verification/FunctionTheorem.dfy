/** Whole calls: the lowered function and the source function are indistinguishable. */
module FunctionTheorem {
  import opened MortSyntax
  import opened MortSemantics
  import opened CleanupLowering
  import opened EvaluationFacts
  import opened UnwindingProof
  import opened TryProof
  import opened SourceFacts
  import opened CleanupProof
  import opened CleanupTheorem
  import opened ReturnFlow

  /** C parameters arrive without flags; the generated prologue declares those. */
  function BindPlain(params: seq<Param>, args: seq<Value>, st: State): State
    requires |params| == |args|
  {
    if params == [] then st
    else
      var n := |params| - 1;
      DeclareCell(BindPlain(params[..n], args[..n], st), params[n].name, args[n], NoFlag)
  }

  /** One call of the generated function; its own bindings vanish when it returns. */
  function CallLowered(f: Function, args: seq<Value>, st: State, ids: Ids, fuel: nat): (Outcome, State)
    requires |args| == |f.params|
  {
    RunAndTruncate(LowerFunction(f, ids).code, |st.env|, BindPlain(f.params, args, st), fuel)
  }

  /** The checker rejects a second parameter of the same name. */
  predicate DistinctParams(params: seq<Param>)
  {
    forall i, j | 0 <= i < j < |params| :: params[i].name != params[j].name
  }

  predicate LowerableFunction(f: Function)
  {
    && DistinctParams(f.params)
    && LowerableStmts(f.body, [ParamTop(f.params)], false)
    && (!f.isVoid ==> AlwaysReturns(f.body))
  }

  // ----- the prologue -----

  lemma {:induction false} BindEnv(params: seq<Param>, args: seq<Value>, st: State)
    requires |params| == |args|
    ensures var b := BindParams(params, args, st);
      && b == st.(env := b.env)
      && |b.env| == |st.env| + |params|
      && b.env[..|st.env|] == st.env
      && forall i | 0 <= i < |params| :: b.env[|st.env| + i].name == params[i].name
    ensures BindPlain(params, args, st) == st.(env := BindPlain(params, args, st).env)
  {
    if params != [] {
      var n := |params| - 1;
      BindEnv(params[..n], args[..n], st);
    }
  }

  lemma {:induction false} ParamCodeRuns(params: seq<Param>, args: seq<Value>, st: State, suffix: seq<Cell>, fuel: nat)
    requires |params| == |args| && DistinctParams(params)
    requires forall i | 0 <= i < |params| :: Absent(params[i].name, suffix)
    ensures RunCode(ParamCode(params), Extend(BindPlain(params, args, st), suffix), fuel) ==
      (Normal, Extend(BindParams(params, args, st), suffix))
  {
    if params != [] {
      var n := |params| - 1;
      var p := params[n];
      var plain := BindPlain(params[..n], args[..n], st);
      var bound := BindParams(params[..n], args[..n], st);
      var cell := Cell(p.name, args[n], NoFlag);
      assert plain.env + [cell] + suffix == plain.env + ([cell] + suffix);
      assert bound.env + [cell] + suffix == bound.env + ([cell] + suffix);
      forall i | 0 <= i < n ensures Absent(params[..n][i].name, [cell] + suffix) {
        assert Absent(params[i].name, suffix);
      }
      ParamCodeRuns(params[..n], args[..n], st, [cell] + suffix, fuel);
      var last := if p.owner then One(DeclareLive(p.name)) else Nop;
      RunAppend(ParamCode(params[..n]), last, Extend(BindPlain(params, args, st), suffix), fuel);
      var mid := Extend(bound, [cell] + suffix);
      if p.owner {
        RunOne(DeclareLive(p.name), mid, fuel);
        MarkLastBefore(bound, cell, suffix);
        var live := cell.(flag := Live);
        assert bound.env + ([live] + suffix) == (bound.env + [live]) + suffix;
      }
    }
  }

  lemma {:induction false} MarkLastBefore(bound: State, cell: Cell, suffix: seq<Cell>)
    requires Absent(cell.name, suffix)
    ensures MarkLive(Extend(bound, [cell] + suffix), cell.name) == Extend(bound, [cell.(flag := Live)] + suffix)
  {
    var env := bound.env + ([cell] + suffix);
    var k := |bound.env|;
    assert env == (bound.env + [cell]) + suffix;
    FindInPrefix(bound.env + [cell], suffix, cell.name);
    assert Find(bound.env + [cell], cell.name) == k;
    assert env[k := cell.(flag := Live)] == bound.env + ([cell.(flag := Live)] + suffix);
  }

  lemma {:induction false} ParamActions(params: seq<Param>, base: nat)
    ensures Actions(ParamPending(params, base)) == ParamTop(params)
  {
    if params != [] {
      var n := |params| - 1;
      ParamActions(params[..n], base);
      var before := ParamPending(params[..n], base);
      if params[n].owner {
        ActionsPush(before, Pending(base + n + 1, Drop(params[n].name)));
      } else {
        assert ParamPending(params, base) == before;
        assert ParamTop(params) == ParamTop(params[..n]);
      }
    }
  }

  lemma {:induction false} ParamPendingIs(params: seq<Param>, base: nat, q: Pending)
    requires q in ParamPending(params, base)
    ensures exists i :: 0 <= i < |params| && q == Pending(base + i + 1, Drop(params[i].name))
  {
    var n := |params| - 1;
    if q in ParamPending(params[..n], base) {
      ParamPendingIs(params[..n], base, q);
      var i :| 0 <= i < n && q == Pending(base + i + 1, Drop(params[..n][i].name));
      assert params[..n][i] == params[i];
    } else {
      assert q == Pending(base + n + 1, Drop(params[n].name));
    }
  }

  lemma {:induction false} ParamStackOk(params: seq<Param>, args: seq<Value>, st: State)
    requires |params| == |args| && DistinctParams(params)
    ensures StackOk([Open(ParamPending(params, |st.env|), |st.env|)], BindParams(params, args, st).env)
  {
    BindEnv(params, args, st);
    var base := |st.env|;
    var env := BindParams(params, args, st).env;
    forall q | q in ParamPending(params, base) ensures Uncaptured(q, env) {
      ParamPendingIs(params, base, q);
      var i :| 0 <= i < |params| && q == Pending(base + i + 1, Drop(params[i].name));
      forall k | 0 <= k < |env[q.depth..]| ensures env[q.depth..][k].name !in ActionMentions(q.act) {
        var j := i + 1 + k;
        assert env[q.depth..][k] == env[base + j];
        assert env[base + j].name == params[j].name;
      }
    }
  }

  // ----- nested scopes inherit coverage -----

  lemma {:induction false} LowerableCovered(ss: Stmts, scopes: Scopes, inLoop: bool)
    requires |scopes| > 0 && LowerableStmts(ss, scopes, inLoop)
    ensures MatchesCovered(ss)
    decreases ss, 0
  {
    match ss
    case Done =>
    case Then(s, rest) =>
      LowerableStmtCovered(s, scopes, inLoop);
      LowerableCovered(rest, SetTop(scopes, TopAfter(s, Top(scopes))), inLoop);
  }

  lemma {:induction false} LowerableStmtCovered(s: Stmt, scopes: Scopes, inLoop: bool)
    requires |scopes| > 0 && Lowerable(s, scopes, inLoop)
    ensures StmtCovered(s)
    decreases s, 0
  {
    match s
    case If(_, thn, els) =>
      LowerableCovered(thn, Push(scopes, []), inLoop);
      LowerableElseCovered(els, scopes, inLoop);
    case While(_, body) => LowerableCovered(body, Push(scopes, []), true);
    case For(_, _, _, _, body) => LowerableCovered(body, Push(scopes, []), true);
    case Block(body) => LowerableCovered(body, Push(scopes, []), inLoop);
    case Match(_, _, arms) => LowerableArmsCovered(arms, scopes, inLoop);
    case _ =>
  }

  lemma {:induction false} LowerableElseCovered(els: Else, scopes: Scopes, inLoop: bool)
    requires |scopes| > 0 && LowerableElse(els, scopes, inLoop)
    ensures ElseCovered(els)
    decreases els, 0
  {
    match els
    case NoElse =>
    case ElseBlock(body) => LowerableCovered(body, Push(scopes, []), inLoop);
    case ElseIf(chained) => LowerableStmtCovered(chained, scopes, inLoop);
  }

  lemma {:induction false} LowerableArmsCovered(arms: Arms, scopes: Scopes, inLoop: bool)
    requires |scopes| > 0 && LowerableArms(arms, scopes, inLoop)
    ensures ArmsCovered(arms)
    decreases arms, 0
  {
    match arms
    case NoArms =>
    case Arm(_, binder, body, rest) =>
      LowerableCovered(body, Push(scopes, BinderTop(binder)), inLoop);
      LowerableArmsCovered(rest, scopes, inLoop);
  }

  // ----- the theorem -----

  /** For every lowerable function, every argument list, every starting state and any amount of
      fuel: the generated code has the outcome, return value, event trace, environment answers,
      global bindings and created resources of the source, where the source unwinds each exited
      scope at run time. */
  lemma {:induction false} LoweringPreservesMeaning(f: Function, args: seq<Value>, st: State, ids: Ids, fuel: nat)
    requires |args| == |f.params| && LowerableFunction(f)
    ensures var (out, s1) := RunFunction(f, args, st, fuel);
      var (o, t1) := CallLowered(f, args, st, ids, fuel);
      out == o && Same(s1, t1)
  {
    hide ExecStmts, LowerStmts, RunCode, Unwind, EmitActions, PerformAll, Simulates, StackOk, LowerableStmts, ParamCode, BindParams, BindPlain;
    var base := |st.env|;
    var pend := ParamPending(f.params, base);
    var s0 := BindParams(f.params, args, st);
    var stack := [Open(pend, base)];
    ParamActions(f.params, base);
    ParamStackOk(f.params, args, st);
    assert stack == [] + [Open(pend, base)];
    StaticPush([], Open(pend, base));
    assert Static(stack) == [ParamTop(f.params)];
    StmtsTheorem(f.body, stack, [], ids, s0, s0, fuel);
    var low := LowerStmts(f.body, [ParamTop(f.params)], [], ids);
    PrologueRuns(f.params, args, st, fuel);
    var epilogue := if f.isVoid then EmitActions(low.top) else Nop;
    RunAppend(ParamCode(f.params), Append(low.code, epilogue), BindPlain(f.params, args, st), fuel);
    RunAppend(low.code, epilogue, s0, fuel);
    if !f.isVoid {
      LowerableCovered(f.body, [ParamTop(f.params)], false);
      NeverFallsOff(f, args, st, fuel);
    }
    var r := ExecStmts(f.body, s0, pend, fuel);
    var (o, t1) := RunCode(low.code, s0, fuel);
    BodyExit(r, pend, base, ids, s0, o, t1, fuel);
  }

  /** Leaving the function's own scope, at the end of the body or by a jump out of it. */
  lemma {:induction false} BodyExit(r: Run, pend: seq<Pending>, base: nat, ids: Ids, s0: State, o: Outcome, t1: State, fuel: nat)
    requires Simulates(r.out, r.st, r.pend, [Open(pend, base)], 0, ids, s0, o, t1)
    requires r.out.Normal? ==> StackOk(WithTop([Open(pend, base)], r.pend), r.st.env)
    ensures o == r.out
    ensures r.out.Normal? ==>
      var (o2, t2) := RunCode(EmitActions(Actions(r.pend)), t1, fuel);
      o2 == Normal && Same(ExitScope(r.pend, base, r.st), Truncate(t2, base))
    ensures r.out.Timeout? ==> Same(r.st, t1)
    ensures !r.out.Normal? && !r.out.Timeout? ==> Same(ExitScope(r.pend, base, r.st), Truncate(t1, base))
  {
    hide RunCode, Unwind, EmitActions, PerformAll, StackOk;
    assert WithTop([Open(pend, base)], r.pend) == [] + [Open(r.pend, base)];
    if r.out.Normal? {
      NormalExit(r.pend, [], base, r.st, t1, fuel);
    } else if !r.out.Timeout? {
      JumpExit(r.pend, [], base, 0, r.st, t1);
    }
  }

  lemma {:induction false} PrologueRuns(params: seq<Param>, args: seq<Value>, st: State, fuel: nat)
    requires |params| == |args| && DistinctParams(params)
    ensures RunCode(ParamCode(params), BindPlain(params, args, st), fuel) == (Normal, BindParams(params, args, st))
  {
    ParamCodeRuns(params, args, st, [], fuel);
    ExtendNothing(BindPlain(params, args, st));
    ExtendNothing(BindParams(params, args, st));
  }

  lemma ExtendNothing(s: State)
    ensures Extend(s, []) == s
  {
    assert s.env + [] == s.env;
  }
}
