/** Inlined cleanup does what unwinding does: running the emitted cleanup of scopes k.. in one
    place, with every inner binding still in scope, leaves the same world and the same outer
    bindings as leaving those scopes one by one. */
module UnwindingProof {
  import opened MortSyntax
  import opened MortSemantics
  import opened CleanupLowering
  import opened EvaluationFacts

  /** A scope being executed: the cleanup it has registered and where its bindings start. */
  datatype Open = Open(pend: seq<Pending>, mark: nat)

  function Actions(pend: seq<Pending>): (acts: seq<Action>)
    ensures |acts| == |pend|
  {
    if pend == [] then [] else Actions(pend[..|pend| - 1]) + [pend[|pend| - 1].act]
  }

  /** The generator's static view of the open scopes. */
  function Static(stack: seq<Open>): (scopes: Scopes)
    ensures |scopes| == |stack|
  {
    if stack == [] then [] else Static(stack[..|stack| - 1]) + [Actions(stack[|stack| - 1].pend)]
  }

  /** Run-time unwinding of all scopes from k on, innermost first. */
  function Unwind(stack: seq<Open>, k: nat, st: State): State
  {
    if |stack| <= k then st
    else
      var n := |stack| - 1;
      Unwind(stack[..n], k, ExitScope(stack[n].pend, stack[n].mark, st))
  }

  /** Every binding declared after a cleanup was registered has a name it does not mention, and
      cleanup is free of `try`. */
  predicate Uncaptured(q: Pending, env: seq<Cell>)
  {
    && q.depth <= |env|
    && NoneOf(ActionMentions(q.act), env[q.depth..])
    && (q.act.Run? ==> IsSource(q.act.e) && !HasTry(q.act.e))
  }

  predicate AllUncaptured(pend: seq<Pending>, env: seq<Cell>)
  {
    forall q | q in pend :: Uncaptured(q, env)
  }

  predicate StackOk(stack: seq<Open>, env: seq<Cell>)
  {
    && (forall j | 0 <= j < |stack| :: stack[j].mark <= |env| && AllUncaptured(stack[j].pend, env))
    && (forall j | 0 <= j < |stack| - 1 :: stack[j].mark <= stack[j + 1].mark
          && forall q | q in stack[j].pend :: q.depth <= stack[j + 1].mark)
  }

  lemma {:induction false} RunAppend(a: Code, b: Code, st: State, fuel: nat)
    ensures RunCode(Append(a, b), st, fuel) ==
            (var (o, st1) := RunCode(a, st, fuel); if o.Normal? then RunCode(b, st1, fuel) else (o, st1))
  {
    match a
    case Nop =>
    case Seq(h, rest) =>
      var (o, st1) := RunC(h, st, fuel);
      if o.Normal? { RunAppend(rest, b, st1, fuel); }
  }

  lemma RunOne(c: CStmt, st: State, fuel: nat)
    ensures RunCode(One(c), st, fuel) == RunC(c, st, fuel)
  {
    var (o, st1) := RunC(c, st, fuel);
    assert RunCode(Nop, st1, fuel) == (Normal, st1);
  }

  lemma TruncateNothing(st: State)
    ensures Truncate(st, |st.env|) == st
  {
    assert st.env[..|st.env|] == st.env;
  }

  lemma RunNop(st: State, fuel: nat)
    ensures RunCode(Nop, st, fuel) == (Normal, st)
  {
  }

  lemma RunEmptyBlock(st: State, fuel: nat)
    ensures RunBlock(Nop, st, fuel) == (Normal, st)
  {
    TruncateNothing(st);
  }

  lemma StaticInit(stack: seq<Open>)
    requires stack != []
    ensures Static(stack)[..|stack| - 1] == Static(stack[..|stack| - 1])
    ensures Top(Static(stack)) == Actions(stack[|stack| - 1].pend)
  {
  }

  lemma ActionsInit(pend: seq<Pending>)
    requires pend != []
    ensures Actions(pend)[..|pend| - 1] == Actions(pend[..|pend| - 1])
    ensures Actions(pend)[|pend| - 1] == pend[|pend| - 1].act
  {
  }

  /** `t` sees everything `s` sees, and possibly more bindings on top. */
  predicate Above(s: State, t: State)
  {
    |s.env| <= |t.env| && t.env[..|s.env|] == s.env && SameWorld(s, t)
  }

  lemma UncapturedSameNames(pend: seq<Pending>, a: seq<Cell>, b: seq<Cell>)
    requires SameNames(a, b) && AllUncaptured(pend, a)
    ensures AllUncaptured(pend, b)
  {
    forall q | q in pend ensures Uncaptured(q, b) {
      assert Uncaptured(q, a);
      forall i | 0 <= i < |b[q.depth..]| ensures b[q.depth..][i].name !in ActionMentions(q.act) {
        assert a[q.depth..][i].name !in ActionMentions(q.act);
      }
    }
  }

  lemma StackOkSameNames(stack: seq<Open>, a: seq<Cell>, b: seq<Cell>)
    requires SameNames(a, b) && StackOk(stack, a)
    ensures StackOk(stack, b)
  {
    forall j | 0 <= j < |stack| ensures AllUncaptured(stack[j].pend, b) {
      UncapturedSameNames(stack[j].pend, a, b);
    }
  }

  /** An action on a prefix of the bindings and the same action on all of them. */
  lemma ActionAbove(a: Action, s: State, t: State)
    requires Above(s, t) && NoneOf(ActionMentions(a), t.env[|s.env|..]) && (a.Run? ==> IsSource(a.e))
    ensures SameNames(s.env, Perform(a, s).env)
    ensures SameWorld(Perform(a, s), Perform(a, t))
    ensures Perform(a, t).env == Perform(a, s).env + t.env[|s.env|..]
    ensures Perform(a, t).temps == t.temps
  {
    var suffix := t.env[|s.env|..];
    assert t.env == s.env + suffix;
    PerformInPrefix(a, s, suffix);
    PerformCongruent(a, Extend(s, suffix), t);
  }

  /** One cleanup emitted in place: the bindings above its scope stay as they are. */
  lemma ActionInPlace(q: Pending, s: State, t: State, fuel: nat)
    requires Above(s, t) && q.depth <= |s.env| && Uncaptured(q, t.env)
    ensures var (o, t1) := RunC(EmitAction(q.act), t, fuel);
      && o == Normal
      && Above(PerformPending(q, s), t1)
      && SameNames(s.env, PerformPending(q, s).env)
      && SameNames(t.env, t1.env)
      && t1.temps == t.temps
  {
    hide RunC, Perform, EmitAction;
    var inner := s.(env := s.env[..q.depth]);
    assert t.env[..q.depth] == t.env[..|s.env|][..q.depth];
    ActionAbove(q.act, inner, t);
    var done := Perform(q.act, inner);
    var t1 := Perform(q.act, t);
    EmittedAction(q.act, t, fuel);
    var s1 := PerformPending(q, s);
    assert s1.env == done.env + s.env[q.depth..];
    PrefixOfConcat(done.env, t.env, s.env, q.depth);
  }

  lemma EmittedAction(act: Action, t: State, fuel: nat)
    ensures RunC(EmitAction(act), t, fuel) == (Normal, Perform(act, t))
  {
  }

  lemma PrefixOfConcat(done: seq<Cell>, tEnv: seq<Cell>, sEnv: seq<Cell>, d: nat)
    requires d == |done| <= |sEnv| <= |tEnv| && tEnv[..|sEnv|] == sEnv
    ensures (done + tEnv[d..])[..|sEnv|] == done + sEnv[d..]
  {
    assert tEnv[d..|sEnv|] == sEnv[d..];
  }

  lemma {:induction false} ActionsInPlace(pend: seq<Pending>, s: State, t: State, fuel: nat)
    requires Above(s, t) && AllUncaptured(pend, t.env) && forall q | q in pend :: q.depth <= |s.env|
    ensures var (o, t1) := RunCode(EmitActions(Actions(pend)), t, fuel);
      && o == Normal
      && Above(PerformAll(pend, s), t1)
      && SameNames(s.env, PerformAll(pend, s).env)
      && SameNames(t.env, t1.env)
      && t1.temps == t.temps
  {
    if pend != [] {
      var n := |pend| - 1;
      ActionsInit(pend);
      ActionInPlace(pend[n], s, t, fuel);
      var t1 := RunC(EmitAction(pend[n].act), t, fuel).1;
      UncapturedSameNames(pend, t.env, t1.env);
      ActionsInPlace(pend[..n], PerformPending(pend[n], s), t1, fuel);
    }
  }

  /** The emitted cleanup of scopes k.. against unwinding them. */
  lemma {:induction false} CleanupInPlace(stack: seq<Open>, k: nat, s: State, t: State, fuel: nat)
    requires Above(s, t) && StackOk(stack, s.env) && StackOk(stack, t.env)
    ensures var (o, t1) := RunCode(EmitScopes(Static(stack), k), t, fuel);
      && o == Normal
      && Above(Unwind(stack, k, s), t1)
      && SameNames(t.env, t1.env)
      && t1.temps == t.temps
      && (k < |stack| ==> |Unwind(stack, k, s).env| == stack[k].mark)
      && (k >= |stack| ==> Unwind(stack, k, s) == s)
  {
    hide RunC, RunCode, StackOk, Above, ExitScope, EmitActions, Actions;
    if k < |stack| {
      var n := |stack| - 1;
      var scope := stack[n];
      StaticInit(stack);
      ScopeInPlace(stack, s, t, fuel);
      var t1 := RunCode(EmitActions(Actions(scope.pend)), t, fuel).1;
      var s2 := ExitScope(scope.pend, scope.mark, s);
      RunAppend(EmitActions(Actions(scope.pend)), EmitScopes(Static(stack[..n]), k), t, fuel);
      CleanupInPlace(stack[..n], k, s2, t1, fuel);
      if k == n { assert Unwind(stack[..n], k, s2) == s2; }
    } else {
      RunNop(t, fuel);
    }
  }

  /** The cleanup of the innermost scope, emitted in place, and leaving that scope. */
  lemma {:induction false} ScopeInPlace(stack: seq<Open>, s: State, t: State, fuel: nat)
    requires stack != [] && Above(s, t) && StackOk(stack, s.env) && StackOk(stack, t.env)
    ensures var n := |stack| - 1;
      var s2 := ExitScope(stack[n].pend, stack[n].mark, s);
      var (o, t1) := RunCode(EmitActions(Actions(stack[n].pend)), t, fuel);
      && o == Normal && Above(s2, t1) && SameNames(t.env, t1.env) && t1.temps == t.temps
      && |s2.env| == stack[n].mark && StackOk(stack[..n], s2.env) && StackOk(stack[..n], t1.env)
  {
    hide RunC, RunCode, EmitActions, PerformAll;
    var n := |stack| - 1;
    var scope := stack[n];
    ActionsInPlace(scope.pend, s, t, fuel);
    var t1 := RunCode(EmitActions(Actions(scope.pend)), t, fuel).1;
    var s2 := Truncate(PerformAll(scope.pend, s), scope.mark);
    assert s2.env == t1.env[..scope.mark];
    StackOkSameNames(stack[..n], t.env, t1.env);
    StackOkPrefix(stack, t1.env);
  }

  lemma StackOkPrefix(stack: seq<Open>, env: seq<Cell>)
    requires stack != []
    requires stack[|stack| - 1].mark <= |env|
    requires StackOk(stack[..|stack| - 1], env)
    requires |stack| > 1 ==>
      stack[|stack| - 2].mark <= stack[|stack| - 1].mark
      && forall q | q in stack[|stack| - 2].pend :: q.depth <= stack[|stack| - 1].mark
    ensures StackOk(stack[..|stack| - 1], env[..stack[|stack| - 1].mark])
  {
    var n := |stack| - 1;
    var m := stack[n].mark;
    var outer := stack[..n];
    MarksBelow(outer, env);
    forall j | 0 <= j < n
      ensures outer[j].mark <= m && AllUncaptured(outer[j].pend, env[..m])
    {
      forall q | q in outer[j].pend ensures Uncaptured(q, env[..m]) {
        assert Uncaptured(q, env);
        if j < n - 1 { assert q.depth <= outer[j + 1].mark; }
        forall i | 0 <= i < |env[..m][q.depth..]|
          ensures env[..m][q.depth..][i].name !in ActionMentions(q.act)
        {
          assert env[q.depth..][i].name !in ActionMentions(q.act);
        }
      }
    }
  }

  lemma MarksBelow(stack: seq<Open>, env: seq<Cell>)
    requires StackOk(stack, env)
    ensures forall i, j | 0 <= i <= j < |stack| :: stack[i].mark <= stack[j].mark
  {
    if stack != [] {
      var n := |stack| - 1;
      MarksBelow(stack[..n], env);
      if n > 0 {
        assert stack[n - 1].mark <= stack[n].mark;
        forall i | 0 <= i < n ensures stack[i].mark <= stack[n].mark {
          assert stack[..n][i].mark <= stack[..n][n - 1].mark;
        }
      }
    }
  }
}
