/** Every execution keeps the bindings that were in scope; scopes leave exactly those. */
module SourceFacts {
  import opened MortSyntax
  import opened MortSemantics
  import opened EvaluationFacts

  /** b starts with the bindings of a. */
  predicate Grown(a: seq<Cell>, b: seq<Cell>)
  {
    |a| <= |b| && SameNames(a, b[..|a|])
  }

  lemma GrownTrans(a: seq<Cell>, b: seq<Cell>, c: seq<Cell>)
    requires Grown(a, b) && Grown(b, c)
    ensures Grown(a, c)
    ensures SameNames(a, b) && SameNames(b, c) ==> SameNames(a, c)
  {
    forall i | 0 <= i < |a| ensures c[..|a|][i].name == a[i].name && (c[..|a|][i].flag == NoFlag <==> a[i].flag == NoFlag) {
      assert b[..|a|][i] == b[i] && c[..|b|][i] == c[i];
    }
  }

  lemma SameNamesRefl(a: seq<Cell>)
    ensures SameNames(a, a)
  {
  }

  lemma SameIsGrown(a: seq<Cell>, b: seq<Cell>)
    requires SameNames(a, b)
    ensures Grown(a, b)
  {
    assert b[..|a|] == b;
  }

  lemma PerformKeepsNames(a: Action, st: State)
    ensures SameNames(st.env, Perform(a, st).env)
  {
    match a
    case Drop(x) =>
    case Run(e) => EvalKeepsNames(e, st);
  }

  lemma PerformAllKeepsNames(pend: seq<Pending>, st: State)
    ensures SameNames(st.env, PerformAll(pend, st).env)
  {
    if pend != [] {
      var q := pend[|pend| - 1];
      if q.depth <= |st.env| {
        PerformKeepsNames(q.act, st.(env := st.env[..q.depth]));
      }
      PerformAllKeepsNames(pend[..|pend| - 1], PerformPending(q, st));
    }
  }

  lemma ExitScopeKeepsNames(pend: seq<Pending>, before: State, st: State)
    requires Grown(before.env, st.env)
    ensures SameNames(before.env, ExitScope(pend, |before.env|, st).env)
  {
    PerformAllKeepsNames(pend, st);
    var done := PerformAll(pend, st);
    forall i | 0 <= i < |before.env|
      ensures done.env[..|before.env|][i].name == before.env[i].name
      ensures done.env[..|before.env|][i].flag == NoFlag <==> before.env[i].flag == NoFlag
    {
      assert st.env[..|before.env|][i] == st.env[i];
    }
  }

  lemma StepKeepsNames(x: Name, last: int, inclusive: bool, st: State)
    ensures SameNames(st.env, ForStep(x, last, inclusive, st).1.env)
  {
  }

  lemma {:induction false} ExecStmtGrows(s: Stmt, st: State, pend: seq<Pending>, fuel: nat)
    ensures var r := ExecStmt(s, st, pend, fuel);
      && Grown(st.env, r.st.env)
      && (!s.Let? && !r.out.Timeout? ==> SameNames(st.env, r.st.env))
    decreases fuel, s, 0
  {
    hide Eval;
    match s
    case Let(x, e, owner) => EvalKeepsNames(e, st);
    case Assign(x, e) => EvalKeepsNames(e, st); SameIsGrown(st.env, ExecStmt(s, st, pend, fuel).st.env);
    case ExprStmt(e) => EvalKeepsNames(e, st); SameIsGrown(st.env, Eval(e, st).1.env);
    case Return(None) => SameIsGrown(st.env, st.env);
    case Return(Some(e)) => EvalKeepsNames(e, st); SameIsGrown(st.env, Eval(e, st).1.env);
    case If(c, thn, els) =>
      EvalKeepsNames(c, st);
      var (r, st1) := Eval(c, st);
      SameIsGrown(st.env, st1.env);
      if r.Got? {
        if Truthy(r.v) {
          ExecScopeGrows(thn, st1, fuel);
          GrownTrans(st.env, st1.env, ExecScope(thn, st1, fuel).1.env);
        } else {
          ExecElseGrows(els, st1, pend, fuel);
          GrownTrans(st.env, st1.env, ExecElse(els, st1, pend, fuel).st.env);
        }
      }
    case While(c, body) => ExecWhileGrows(c, body, st, fuel);
    case For(x, lo, hi, inclusive, body) =>
      EvalKeepsNames(lo, st);
      var (a, st1) := Eval(lo, st);
      EvalKeepsNames(hi, st1);
      var (b, st2) := Eval(hi, st1);
      SameIsGrown(st.env, st1.env);
      SameIsGrown(st1.env, st2.env);
      GrownTrans(st.env, st1.env, st2.env);
      if a.Got? && b.Got? {
        var first, last := AsInt(a.v), AsInt(b.v);
        var st3 := DeclareCell(st2, x, Num(first), NoFlag);
        assert Grown(st2.env, st3.env);
        ExecForGrows(x, last, inclusive, ForStarts(first, last, inclusive), body, st3, fuel);
        var (o, st4) := ExecFor(x, last, inclusive, ForStarts(first, last, inclusive), body, st3, fuel);
        GrownTrans(st2.env, st3.env, st4.env);
        GrownTrans(st.env, st2.env, st4.env);
        assert st4.env[..|st.env|] == st4.env[..|st2.env|];
      }
    case Block(body) => ExecScopeGrows(body, st, fuel);
    case Break => SameIsGrown(st.env, st.env);
    case Continue => SameIsGrown(st.env, st.env);
    case Defer(e) => SameIsGrown(st.env, st.env);
    case Match(subject, variants, arms) =>
      EvalKeepsNames(subject, st);
      var (r, st1) := Eval(subject, st);
      SameIsGrown(st.env, st1.env);
      if r.Got? {
        ExecArmsGrows(arms, variants, r.v, st1, fuel);
        GrownTrans(st.env, st1.env, ExecArms(arms, variants, r.v, st1, fuel).1.env);
      }
  }

  lemma {:induction false} ExecStmtsGrows(ss: Stmts, st: State, pend: seq<Pending>, fuel: nat)
    ensures Grown(st.env, ExecStmts(ss, st, pend, fuel).st.env)
    decreases fuel, ss, 0
  {
    match ss
    case Done => SameIsGrown(st.env, st.env);
    case Then(s, rest) =>
      ExecStmtGrows(s, st, pend, fuel);
      var r := ExecStmt(s, st, pend, fuel);
      if r.out.Normal? {
        ExecStmtsGrows(rest, r.st, r.pend, fuel);
        GrownTrans(st.env, r.st.env, ExecStmts(rest, r.st, r.pend, fuel).st.env);
      }
  }

  lemma {:induction false} ExecElseGrows(els: Else, st: State, pend: seq<Pending>, fuel: nat)
    ensures var r := ExecElse(els, st, pend, fuel);
      && Grown(st.env, r.st.env)
      && (!r.out.Timeout? ==> SameNames(st.env, r.st.env))
    decreases fuel, els, 0
  {
    match els
    case NoElse => SameIsGrown(st.env, st.env);
    case ElseBlock(body) => ExecScopeGrows(body, st, fuel);
    case ElseIf(chained) =>
      SameIsGrown(st.env, st.env);
      ExecStmtGrows(chained, st, pend, fuel);
  }

  lemma {:induction false} ExecScopeGrows(body: Stmts, st: State, fuel: nat)
    ensures var (o, st1) := ExecScope(body, st, fuel);
      && Grown(st.env, st1.env)
      && (!o.Timeout? ==> SameNames(st.env, st1.env))
    decreases fuel, body, 1
  {
    ExecStmtsGrows(body, st, [], fuel);
    var r := ExecStmts(body, st, [], fuel);
    if !r.out.Timeout? {
      ExitScopeKeepsNames(r.pend, st, r.st);
      SameIsGrown(st.env, ExitScope(r.pend, |st.env|, r.st).env);
    }
  }

  lemma {:induction false} ExecWhileGrows(c: Expr, body: Stmts, st: State, fuel: nat)
    ensures var (o, st1) := ExecWhile(c, body, st, fuel);
      && Grown(st.env, st1.env)
      && (!o.Timeout? ==> SameNames(st.env, st1.env))
    decreases fuel, body, 2
  {
    hide Eval;
    SameIsGrown(st.env, st.env);
    if fuel > 0 {
      EvalKeepsNames(c, st);
      var (r, st1) := Eval(c, st);
      SameIsGrown(st.env, st1.env);
      if r.Got? && Truthy(r.v) {
        ExecScopeGrows(body, st1, fuel - 1);
        var (o, st2) := ExecScope(body, st1, fuel - 1);
        GrownTrans(st.env, st1.env, st2.env);
        if o.Normal? || o.Continued? {
          ExecWhileGrows(c, body, st2, fuel - 1);
          GrownTrans(st.env, st2.env, ExecWhile(c, body, st2, fuel - 1).1.env);
        }
      }
    }
  }

  lemma {:induction false} ExecForGrows(x: Name, last: int, inclusive: bool, more: bool, body: Stmts, st: State, fuel: nat)
    ensures var (o, st1) := ExecFor(x, last, inclusive, more, body, st, fuel);
      && Grown(st.env, st1.env)
      && (!o.Timeout? ==> SameNames(st.env, st1.env))
    decreases fuel, body, 2
  {
    hide SameNames;
    SameNamesRefl(st.env);
    SameIsGrown(st.env, st.env);
    if fuel > 0 && more {
      ExecScopeGrows(body, st, fuel - 1);
      var (o, st1) := ExecScope(body, st, fuel - 1);
      if o.Normal? || o.Continued? {
        var (again, st2) := ForStep(x, last, inclusive, st1);
        StepKeepsNames(x, last, inclusive, st1);
        SameIsGrown(st1.env, st2.env);
        GrownTrans(st.env, st1.env, st2.env);
        ExecForGrows(x, last, inclusive, again, body, st2, fuel - 1);
        GrownTrans(st.env, st2.env, ExecFor(x, last, inclusive, again, body, st2, fuel - 1).1.env);
      }
    }
  }

  lemma {:induction false} ExecArmsGrows(arms: Arms, variants: nat, v: Value, st: State, fuel: nat)
    ensures var (o, st1) := ExecArms(arms, variants, v, st, fuel);
      && Grown(st.env, st1.env)
      && (!o.Timeout? ==> SameNames(st.env, st1.env))
    decreases fuel, arms, 0
  {
    match arms
    case NoArms => SameIsGrown(st.env, st.env);
    case Arm(pattern, binder, body, rest) =>
      if pattern.None? || TagOf(v, variants) == pattern.value {
        var st1 := DeclareBinder(binder, v, st);
        assert Grown(st.env, st1.env);
        ExecStmtsGrows(body, st1, BinderPending(binder, |st1.env|), fuel);
        var r := ExecStmts(body, st1, BinderPending(binder, |st1.env|), fuel);
        GrownTrans(st.env, st1.env, r.st.env);
        if !r.out.Timeout? {
          ExitScopeKeepsNames(r.pend, st, r.st);
          SameIsGrown(st.env, ExitScope(r.pend, |st.env|, r.st).env);
        }
      } else {
        ExecArmsGrows(rest, variants, v, st, fuel);
      }
  }
}
