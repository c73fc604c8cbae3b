/** Hoisting `try` out of an expression preserves its meaning: same calls in the same order, same
    value, or the same first error after the same cleanup. */
module TryProof {
  import opened MortSyntax
  import opened MortSemantics
  import opened CleanupLowering
  import opened EvaluationFacts
  import opened UnwindingProof

  // ----- what stays behind when the tries of an expression are hoisted -----

  /** What is left after hoisting has no effects. */
  predicate Calm(e: Expr)
  {
    match e
    case Try(_) => true
    case Binary(_, l, r) => Calm(l) && Calm(r)
    case AndAlso(l, r) => HasTry(r) || (Calm(l) && Calm(r))
    case OrElse(l, r) => HasTry(r) || (Calm(l) && Calm(r))
    case Not(o) => Calm(o)
    case Move(_) => false
    case New(_, _) => false
    case Call(_, _) => false
    case StoreTo(_, _) => false
    case _ => true
  }

  /** The locals read by what is left after hoisting. */
  function ResidualReads(e: Expr): set<Name>
  {
    match e
    case Try(_) => {}
    case Binary(_, l, r) => ResidualReads(l) + ResidualReads(r)
    case AndAlso(l, r) => if HasTry(r) then {} else ResidualReads(l) + ResidualReads(r)
    case OrElse(l, r) => if HasTry(r) then {} else ResidualReads(l) + ResidualReads(r)
    case Not(o) => ResidualReads(o)
    case Call(_, a) => ResidualReads(a)
    case StoreTo(x, a) => {x} + ResidualReads(a)
    case _ => Mentions(e)
  }

  /** The locals the hoisted part may write or move away. */
  function HoistedWrites(e: Expr): set<Name>
  {
    match e
    case Try(o) => Writes(o)
    case Binary(_, l, r) => HoistedWrites(l) + HoistedWrites(r)
    case AndAlso(l, r) => if HasTry(r) then Writes(e) else HoistedWrites(l)
    case OrElse(l, r) => if HasTry(r) then Writes(e) else HoistedWrites(l)
    case Not(o) => HoistedWrites(o)
    case Call(_, a) => HoistedWrites(a)
    case StoreTo(_, a) => HoistedWrites(a)
    case _ => {}
  }

  /** Two operands may be hoisted one after the other: if the second contains a `try`, what is left
      of the first must have no effects and read nothing the second's hoisted part writes. */
  predicate HoistablePair(l: Expr, r: Expr)
  {
    HasTry(r) ==> Calm(l) && ResidualReads(l) !! HoistedWrites(r)
  }

  predicate Hoistable(e: Expr)
  {
    match e
    case Binary(_, l, r) => Hoistable(l) && Hoistable(r) && HoistablePair(l, r)
    case AndAlso(l, r) => Hoistable(l) && Hoistable(r)
    case OrElse(l, r) => Hoistable(l) && Hoistable(r)
    case Not(o) => Hoistable(o)
    case Call(_, a) => Hoistable(a)
    case StoreTo(_, a) => Hoistable(a)
    case Try(o) => Hoistable(o)
    case _ => true
  }

  // ----- generated temporaries are fresh -----

  predicate Below(t: Temp, ids: Ids)
  {
    match t
    case TryResult(i) => i < ids.tryId
    case TryValue(i) => i < ids.tryId
    case Short(i) => i < ids.tryId
    case ReturnValue(i) => i < ids.returnId
    case MatchSubject(i) => i < ids.matchId
    case RangeStart(i) => i < ids.rangeId
    case RangeEnd(i) => i < ids.rangeId
  }

  predicate AtMost(a: Ids, b: Ids)
  {
    a.tryId <= b.tryId && a.returnId <= b.returnId && a.matchId <= b.matchId && a.rangeId <= b.rangeId
  }

  /** Temporaries issued before `ids` keep their values. */
  ghost predicate Kept(s: State, t: State, ids: Ids)
  {
    forall x | Below(x, ids) :: ReadTemp(s, x) == ReadTemp(t, x)
  }

  lemma PrepareIds(e: Expr, scopes: Scopes, ids: Ids)
    ensures AtMost(ids, PrepareTry(e, scopes, ids).ids)
    ensures PrepareTry(e, scopes, ids).ids == ids.(tryId := PrepareTry(e, scopes, ids).ids.tryId)
  {
  }

  ghost predicate TempsBelow(e: Expr, ids: Ids)
  {
    forall x | x in TempsOf(e) :: Below(x, ids)
  }

  lemma TempsBelowLater(e: Expr, a: Ids, b: Ids)
    requires TempsBelow(e, a) && AtMost(a, b)
    ensures TempsBelow(e, b)
  {
  }

  lemma {:induction false} ResidualTemps(e: Expr, scopes: Scopes, ids: Ids)
    requires IsSource(e)
    ensures TempsBelow(PrepareTry(e, scopes, ids).residual, PrepareTry(e, scopes, ids).ids)
  {
    match e
    case Binary(_, l, r) =>
      var p := PrepareTry(l, scopes, ids);
      var q := PrepareTry(r, scopes, p.ids);
      ResidualTemps(l, scopes, ids);
      ResidualTemps(r, scopes, p.ids);
      PrepareIds(r, scopes, p.ids);
      TempsBelowLater(p.residual, p.ids, q.ids);
    case AndAlso(l, r) => ResidualTemps(l, scopes, ids); SourceHasNoTemps(r); ShortIsBelow(l, r, scopes, ids);
    case OrElse(l, r) => ResidualTemps(l, scopes, ids); SourceHasNoTemps(r); ShortIsBelow(l, r, scopes, ids);
    case Not(o) => ResidualTemps(o, scopes, ids);
    case Call(_, a) => ResidualTemps(a, scopes, ids);
    case StoreTo(_, a) => ResidualTemps(a, scopes, ids);
    case _ => SourceHasNoTemps(e);
  }

  lemma ShortIsBelow(l: Expr, r: Expr, scopes: Scopes, ids: Ids)
    ensures var p := PrepareTry(l, scopes, ids).ids;
      p.tryId < PrepareTry(r, scopes, p.(tryId := p.tryId + 1)).ids.tryId
  {
    var p := PrepareTry(l, scopes, ids).ids;
    PrepareIds(r, scopes, p.(tryId := p.tryId + 1));
  }

  lemma PrepareWithoutTry(e: Expr, scopes: Scopes, ids: Ids)
    requires !HasTry(e)
    ensures PrepareTry(e, scopes, ids) == Prepared(Nop, e, ids)
  {
  }

  lemma CalmResidual(e: Expr, scopes: Scopes, ids: Ids)
    requires IsSource(e) && Calm(e)
    ensures Pure(PrepareTry(e, scopes, ids).residual)
    ensures Mentions(PrepareTry(e, scopes, ids).residual) <= ResidualReads(e)
  {
    CalmWithoutTry(e);
    if !HasTry(e) { PrepareWithoutTry(e, scopes, ids); }
    match e
    case AndAlso(l, r) => if HasTry(e) && !HasTry(r) { CalmWithoutTry(r); CalmResidual(l, scopes, ids); }
    case OrElse(l, r) => if HasTry(e) && !HasTry(r) { CalmWithoutTry(r); CalmResidual(l, scopes, ids); }
    case _ =>
  }

  lemma CalmWithoutTry(e: Expr)
    ensures Calm(e) && !HasTry(e) ==> Pure(e)
    ensures !HasTry(e) ==> ResidualReads(e) == Mentions(e)
  {
  }

  /** What is left of an expression mentions exactly what the syntax says. */
  lemma {:induction false} ResidualMentions(e: Expr, scopes: Scopes, ids: Ids)
    requires IsSource(e)
    ensures Mentions(PrepareTry(e, scopes, ids).residual) == ResidualReads(e)
  {
    match e
    case Try(_) =>
    case Binary(_, l, r) => ResidualMentions(l, scopes, ids); ResidualMentions(r, scopes, PrepareTry(l, scopes, ids).ids);
    case AndAlso(l, r) => ResidualMentions(l, scopes, ids); CalmWithoutTry(r);
    case OrElse(l, r) => ResidualMentions(l, scopes, ids); CalmWithoutTry(r);
    case Not(o) => ResidualMentions(o, scopes, ids);
    case Call(_, a) => ResidualMentions(a, scopes, ids);
    case StoreTo(_, a) => ResidualMentions(a, scopes, ids);
    case _ =>
  }

  lemma HoistedAreWrites(e: Expr)
    ensures HoistedWrites(e) <= Writes(e)
  {
    match e
    case Binary(_, l, r) => HoistedAreWrites(l); HoistedAreWrites(r);
    case AndAlso(l, r) => HoistedAreWrites(l);
    case OrElse(l, r) => HoistedAreWrites(l);
    case _ =>
  }

  lemma WritesSplit(e: Expr, scopes: Scopes, ids: Ids)
    requires IsSource(e)
    ensures HoistedWrites(e) <= Writes(e)
    ensures Writes(PrepareTry(e, scopes, ids).residual) <= Writes(e)
  {
    HoistedAreWrites(e);
    ResidualWrites(e, scopes, ids);
  }

  lemma ResidualWrites(e: Expr, scopes: Scopes, ids: Ids)
    requires IsSource(e)
    ensures Writes(PrepareTry(e, scopes, ids).residual) <= Writes(e)
  {
  }

  // ----- the theorem -----

  /** Running the hoisted code from `t` and then evaluating the residual gives result r and the
      world of s1; or the code ends in the error exit, with all open scopes unwound. */
  ghost predicate Delivers(p: Prepared, r: Evald, s1: State, written: set<Name>, ids: Ids,
                           stack: seq<Open>, t: State, fuel: nat)
  {
    var (o, t1) := RunCode(p.code, t, fuel);
    if r.Failed? then
      && o == Failure(r.n)
      && Above(Unwind(stack, 0, s1), t1)
      && SameNames(t.env, t1.env)
    else
      && o == Normal
      && UnchangedOutside(written, t.env, t1.env)
      && Kept(t, t1, ids)
      && Eval(p.residual, t1).0 == r
      && Same(s1, Eval(p.residual, t1).1)
  }

  /** Hoisting `p` out of `e` means the same as evaluating `e`. */
  ghost predicate Prepares(e: Expr, p: Prepared, ids: Ids, stack: seq<Open>, s: State, t: State, fuel: nat)
  {
    Delivers(p, Eval(e, s).0, Eval(e, s).1, HoistedWrites(e), ids, stack, t, fuel)
  }

  lemma NamesTrans(a: seq<Cell>, b: seq<Cell>, c: seq<Cell>, w1: set<Name>, w2: set<Name>)
    requires UnchangedOutside(w1, a, b) && UnchangedOutside(w2, b, c)
    ensures UnchangedOutside(w1 + w2, a, c)
  {
  }

  lemma LazySound(e: Expr, l: Expr, r: Expr, stack: seq<Open>, ids: Ids, s: State, t: State, fuel: nat)
    requires (e == AndAlso(l, r) || e == OrElse(l, r)) && IsSource(e) && !HasTry(r)
    requires Prepares(l, PrepareTry(l, Static(stack), ids), ids, stack, s, t, fuel)
    ensures Prepares(e, PrepareTry(e, Static(stack), ids), ids, stack, s, t, fuel)
  {
    hide Eval, PrepareTry, RunCode, Unwind, Above, Kept, UnchangedOutside;
    var p := PrepareTry(l, Static(stack), ids);
    var (a, s1) := Eval(l, s);
    PrepareEager(e.AndAlso?, l, r, Static(stack), ids);
    EvalLazy(e.AndAlso?, l, r, s);
    var t1 := RunCode(p.code, t, fuel).1;
    EvalLazy(e.AndAlso?, p.residual, r, t1);
    if a.Got? {
      EvalCongruent(r, s1, Eval(p.residual, t1).1);
      WithoutTryNeverFails(r, s1);
    }
  }

  lemma PrepareEager(conjunction: bool, l: Expr, r: Expr, scopes: Scopes, ids: Ids)
    requires !HasTry(r)
    ensures var p := PrepareTry(l, scopes, ids);
      PrepareTry(Lazy(conjunction, l, r), scopes, ids) == p.(residual := Lazy(conjunction, p.residual, r))
    ensures HoistedWrites(Lazy(conjunction, l, r)) == HoistedWrites(l)
  {
  }

  /** Evaluating the second operand's hoisted code before the first operand's residual. */
  lemma DelayedLeft(l: Expr, r: Expr, residual: Expr, q: Prepared, ids: Ids, stack: seq<Open>,
                    s1: State, t1: State, fuel: nat)
    requires HasTry(r) && HoistablePair(l, r)
    requires Pure(residual) && Mentions(residual) <= ResidualReads(l) && Same(s1, Eval(residual, t1).1)
    requires TempsBelow(residual, ids)
    requires Prepares(r, q, ids, stack, s1, t1, fuel) && Eval(r, s1).0.Got?
    ensures var t2 := RunCode(q.code, t1, fuel).1;
      && Eval(residual, t2).0 == Eval(residual, t1).0
      && Eval(q.residual, Eval(residual, t2).1).0 == Eval(r, s1).0
      && Same(Eval(r, s1).1, Eval(q.residual, Eval(residual, t2).1).1)
  {
    hide Eval, RunCode, Unwind, Above;
    var t2 := RunCode(q.code, t1, fuel).1;
    PureReads(residual, t1, t2);
    PureHasNoEffect(residual, t2);
    FaultStays(r, s1);
    EvalCongruent(q.residual, Eval(residual, t2).1, t2);
    if Eval(residual, t2).1.fault == t2.fault { assert Eval(residual, t2).1 == t2; }
  }

  lemma BinarySound(op: BinOp, l: Expr, r: Expr, stack: seq<Open>, ids: Ids, s: State, t: State, fuel: nat)
    requires IsSource(l) && IsSource(r) && HoistablePair(l, r) && Same(s, t)
    requires var p := PrepareTry(l, Static(stack), ids);
      && Prepares(l, p, ids, stack, s, t, fuel)
      && (Eval(l, s).0.Got? && HasTry(r) ==>
            Prepares(r, PrepareTry(r, Static(stack), p.ids), p.ids, stack, Eval(l, s).1, RunCode(p.code, t, fuel).1, fuel))
    ensures Prepares(Binary(op, l, r), PrepareTry(Binary(op, l, r), Static(stack), ids), ids, stack, s, t, fuel)
  {
    hide Eval, RunCode, Unwind, Above;
    EvalBinary(op, l, r, s);
    var p := PrepareTry(l, Static(stack), ids);
    var q := PrepareTry(r, Static(stack), p.ids);
    var (a, s1) := Eval(l, s);
    var t1 := RunCode(p.code, t, fuel).1;
    RunAppend(p.code, q.code, t, fuel);
    PrepareIds(l, Static(stack), ids);
    if a.Got? {
      if HasTry(r) {
        var t2 := RunCode(q.code, t1, fuel).1;
        if Eval(r, s1).0.Got? {
          CalmResidual(l, Static(stack), ids);
          ResidualTemps(l, Static(stack), ids);
          DelayedLeft(l, r, p.residual, q, p.ids, stack, s1, t1, fuel);
          EvalBinary(op, p.residual, q.residual, t2);
          NamesTrans(t.env, t1.env, t2.env, HoistedWrites(l), HoistedWrites(r));
        }
      } else {
        PrepareWithoutTry(r, Static(stack), p.ids);
        WithoutTryNeverFails(r, s1);
        RunNop(t1, fuel);
        EvalBinary(op, p.residual, r, t1);
        EvalCongruent(r, s1, Eval(p.residual, t1).1);
      }
    }
  }

  /** The state in which the right operand of a lowered `&&` or `||` is prepared. */
  function AfterLeft(l: Expr, scopes: Scopes, ids: Ids, t: State, fuel: nat): State
  {
    var p := PrepareTry(l, scopes, ids);
    StoreResidual(p, Short(p.ids.tryId), t, fuel)
  }

  function AfterLeftIds(l: Expr, scopes: Scopes, ids: Ids): Ids
  {
    var p := PrepareTry(l, scopes, ids);
    p.ids.(tryId := p.ids.tryId + 1)
  }

  /** Running the hoisted code and storing the residual in a fresh temporary. */
  function StoreResidual(p: Prepared, x: Temp, t: State, fuel: nat): State
  {
    RunC(SetTemp(x, p.residual), RunCode(p.code, t, fuel).1, fuel).1
  }

  lemma SetTempRuns(x: Temp, e: Expr, st: State, fuel: nat)
    ensures RunC(SetTemp(x, e), st, fuel) ==
      (Normal, Eval(e, st).1.(temps := Eval(e, st).1.temps[x := ValueOf(Eval(e, st).0)]))
  {
  }

  lemma ResidualStored(e: Expr, x: Temp, stack: seq<Open>, ids: Ids, s: State, t: State, fuel: nat)
    requires IsSource(e) && Same(s, t) && Eval(e, s).0.Got? && !Below(x, ids)
    requires Prepares(e, PrepareTry(e, Static(stack), ids), ids, stack, s, t, fuel)
    ensures var p := PrepareTry(e, Static(stack), ids);
      var t2 := StoreResidual(p, x, t, fuel);
      && RunC(SetTemp(x, p.residual), RunCode(p.code, t, fuel).1, fuel) == (Normal, t2)
      && Same(Eval(e, s).1, t2)
      && UnchangedOutside(Writes(e), t.env, t2.env)
      && Kept(t, t2, ids)
      && ReadTemp(t2, x) == Eval(e, s).0.v
  {
    hide Eval, PrepareTry, RunCode, RunC;
    var p := PrepareTry(e, Static(stack), ids);
    var t1 := RunCode(p.code, t, fuel).1;
    var t2 := StoreResidual(p, x, t, fuel);
    SetTempRuns(x, p.residual, t1, fuel);
    PrepareIds(e, Static(stack), ids);
    EvalWrites(p.residual, t1);
    EvalKeepsTemps(p.residual, t1);
    WritesSplit(e, Static(stack), ids);
    UnchangedWider(HoistedWrites(e), Writes(e), t.env, t1.env);
    UnchangedWider(Writes(p.residual), Writes(e), t1.env, t2.env);
    NamesTrans(t.env, t1.env, t2.env, Writes(e), Writes(e));
    assert Writes(e) + Writes(e) == Writes(e);
  }

  lemma PrepareLazy(conjunction: bool, l: Expr, r: Expr, scopes: Scopes, ids: Ids)
    requires HasTry(r)
    ensures var e := Lazy(conjunction, l, r);
      var p := PrepareTry(l, scopes, ids);
      var n := p.ids.tryId;
      var q := PrepareTry(r, scopes, AfterLeftIds(l, scopes, ids));
      var goOn := if conjunction then TempVar(Short(n)) else Not(TempVar(Short(n)));
      && PrepareTry(e, scopes, ids) ==
           Prepared(Append(p.code, ShortCircuit(n, p.residual, goOn, q.code, q.residual)), TempVar(Short(n)), q.ids)
      && HoistedWrites(e) == Writes(l) + Writes(r)
  {
  }

  lemma GoOnValue(conjunction: bool, n: nat, st: State)
    ensures var goOn := if conjunction then TempVar(Short(n)) else Not(TempVar(Short(n)));
      Eval(goOn, st).0.Got? && Truthy(Eval(goOn, st).0.v) == (Truthy(ReadTemp(st, Short(n))) == conjunction)
  {
  }

  lemma ShortCircuitSound(conjunction: bool, l: Expr, r: Expr, stack: seq<Open>, ids: Ids, s: State, t: State, fuel: nat)
    requires IsSource(l) && IsSource(r) && HasTry(r) && Same(s, t)
    requires Prepares(l, PrepareTry(l, Static(stack), ids), ids, stack, s, t, fuel)
    requires var inner := AfterLeftIds(l, Static(stack), ids);
      Eval(l, s).0.Got? ==>
        Prepares(r, PrepareTry(r, Static(stack), inner), inner, stack, Eval(l, s).1, AfterLeft(l, Static(stack), ids, t, fuel), fuel)
    ensures var e := Lazy(conjunction, l, r);
      Prepares(e, PrepareTry(e, Static(stack), ids), ids, stack, s, t, fuel)
  {
    hide Eval, PrepareTry;
    EvalLazy(conjunction, l, r, s);
    PrepareLazy(conjunction, l, r, Static(stack), ids);
    var e := Lazy(conjunction, l, r);
    var p := PrepareTry(l, Static(stack), ids);
    var n := p.ids.tryId;
    var q := PrepareTry(r, Static(stack), AfterLeftIds(l, Static(stack), ids));
    var goOn := if conjunction then TempVar(Short(n)) else Not(TempVar(Short(n)));
    var tail := ShortCircuit(n, p.residual, goOn, q.code, q.residual);
    assert PrepareTry(e, Static(stack), ids) == Prepared(Append(p.code, tail), TempVar(Short(n)), q.ids);
    var (a, s1) := Eval(l, s);
    RunAppend(p.code, tail, t, fuel);
    if a.Got? {
      var t1 := RunCode(p.code, t, fuel).1;
      PrepareIds(l, Static(stack), ids);
      ResidualStored(l, Short(n), stack, ids, s, t, fuel);
      var done := Prepared(Append(p.code, tail), TempVar(Short(n)), q.ids);
      var t2 := AfterLeft(l, Static(stack), ids, t, fuel);
      ShortStep(n, p.residual, goOn, q.code, q.residual, t1, t2, fuel);
      GoOnValue(conjunction, n, t2);
      if Truthy(a.v) == conjunction {
        RightDelivers(l, r, q, done, n, ids, AfterLeftIds(l, Static(stack), ids), stack, s1, t, t2, fuel);
      } else {
        UnchangedWider(Writes(l), Writes(l) + Writes(r), t.env, t2.env);
        TempVarValue(Short(n), t2);
        assert Delivers(done, a, s1, Writes(l) + Writes(r), ids, stack, t, fuel);
      }
    }
  }

  lemma RightDelivers(l: Expr, r: Expr, q: Prepared, done: Prepared, n: nat, ids: Ids, inner: Ids, stack: seq<Open>,
                      s1: State, t: State, t2: State, fuel: nat)
    requires IsSource(r) && n < inner.tryId && AtMost(ids, inner) && ids.tryId <= n && Same(s1, t2)
    requires UnchangedOutside(Writes(l), t.env, t2.env) && Kept(t, t2, ids)
    requires q == PrepareTry(r, Static(stack), inner) && Prepares(r, q, inner, stack, s1, t2, fuel)
    requires done.residual == TempVar(Short(n))
    requires RunCode(done.code, t, fuel) == RunBlock(Append(q.code, One(SetTemp(Short(n), q.residual))), t2, fuel)
    ensures Delivers(done, Eval(r, s1).0, Eval(r, s1).1, Writes(l) + Writes(r), ids, stack, t, fuel)
  {
    hide Eval, PrepareTry, RunCode, Unwind, Above, Writes, Prepares, UnchangedOutside, Kept, SameNames;
    UnchangedWider(Writes(l), Writes(l) + Writes(r), t.env, t2.env);
    RightTaken(r, q, inner, n, stack, s1, t2, fuel);
    TempVarValue(Short(n), RunCode(done.code, t, fuel).1);
    RightJoined(r, Writes(l) + Writes(r), ids, n, inner, t, t2, RunCode(done.code, t, fuel).1);
  }

  lemma RightJoined(r: Expr, written: set<Name>, ids: Ids, n: nat, inner: Ids, t: State, t2: State, t3: State)
    requires Writes(r) <= written && AtMost(ids, inner) && ids.tryId <= n
    requires UnchangedOutside(written, t.env, t2.env) && Kept(t, t2, ids)
    ensures SameNames(t2.env, t3.env) ==> SameNames(t.env, t3.env)
    ensures UnchangedOutside(Writes(r), t2.env, t3.env) ==> UnchangedOutside(written, t.env, t3.env)
    ensures (forall x | Below(x, inner) && x != Short(n) :: ReadTemp(t2, x) == ReadTemp(t3, x)) ==> Kept(t, t3, ids)
  {
    if UnchangedOutside(Writes(r), t2.env, t3.env) {
      UnchangedWider(Writes(r), written, t2.env, t3.env);
      NamesTrans(t.env, t2.env, t3.env, written, written);
      assert written + written == written;
    }
  }

  lemma ShortStep(n: nat, left: Expr, goOn: Expr, rightCode: Code, right: Expr, t1: State, t2: State, fuel: nat)
    requires goOn == TempVar(Short(n)) || goOn == Not(TempVar(Short(n)))
    requires RunC(SetTemp(Short(n), left), t1, fuel) == (Normal, t2)
    ensures RunCode(ShortCircuit(n, left, goOn, rightCode, right), t1, fuel) ==
      if Truthy(ValueOf(Eval(goOn, t2).0)) then RunBlock(Append(rightCode, One(SetTemp(Short(n), right))), t2, fuel)
      else (Normal, t2)
  {
    var guarded := CIfOnly(goOn, Append(rightCode, One(SetTemp(Short(n), right))));
    RunOne(guarded, t2, fuel);
  }

  lemma UnchangedWider(small: set<Name>, big: set<Name>, a: seq<Cell>, b: seq<Cell>)
    requires small <= big && UnchangedOutside(small, a, b)
    ensures UnchangedOutside(big, a, b)
  {
  }

  /** The guarded block `{ hoisted right; short = right; }`. */
  lemma RightTaken(r: Expr, q: Prepared, inner: Ids, n: nat, stack: seq<Open>, s1: State, t2: State, fuel: nat)
    requires IsSource(r) && n < inner.tryId && Same(s1, t2)
    requires q == PrepareTry(r, Static(stack), inner)
    requires Prepares(r, q, inner, stack, s1, t2, fuel)
    ensures var (b, s2) := Eval(r, s1);
      var (o, t3) := RunBlock(Append(q.code, One(SetTemp(Short(n), q.residual))), t2, fuel);
      if b.Failed? then o == Failure(b.n) && Above(Unwind(stack, 0, s2), t3) && SameNames(t2.env, t3.env)
      else
        && o == Normal && Same(s2, t3) && ReadTemp(t3, Short(n)) == b.v
        && UnchangedOutside(Writes(r), t2.env, t3.env)
        && (forall x | Below(x, inner) && x != Short(n) :: ReadTemp(t2, x) == ReadTemp(t3, x))
  {
    var assign := One(SetTemp(Short(n), q.residual));
    RunAppend(q.code, assign, t2, fuel);
    var (b, s2) := Eval(r, s1);
    if b.Got? {
      var tq := RunCode(q.code, t2, fuel).1;
      EvalWrites(q.residual, tq);
      EvalKeepsTemps(q.residual, tq);
      WritesSplit(r, Static(stack), inner);
      var te := Eval(q.residual, tq).1;
      UnchangedWider(HoistedWrites(r), Writes(r), t2.env, tq.env);
      UnchangedWider(Writes(q.residual), Writes(r), tq.env, te.env);
      NamesTrans(t2.env, tq.env, te.env, Writes(r), Writes(r));
      assert Writes(r) + Writes(r) == Writes(r);
    }
  }

  lemma PrepareTryNode(o: Expr, scopes: Scopes, ids: Ids)
    ensures var p := PrepareTry(o, scopes, ids);
      var n := p.ids.tryId;
      PrepareTry(Try(o), scopes, ids) ==
        Prepared(Append(p.code, UnwrapTry(n, p.residual, scopes)), TempVar(TryValue(n)), p.ids.(tryId := n + 1))
    ensures HoistedWrites(Try(o)) == Writes(o)
  {
  }

  lemma TempVarValue(x: Temp, st: State)
    ensures Eval(TempVar(x), st) == (Got(ReadTemp(st, x)), st)
  {
  }

  lemma IsErrValue(x: Temp, st: State)
    ensures Eval(IsErr(x), st) == (Got(FromBool(ReadTemp(st, x).ResultErr?)), st)
  {
  }

  lemma UnwrapSound(o: Expr, stack: seq<Open>, ids: Ids, s: State, t: State, fuel: nat)
    requires IsSource(o) && Same(s, t) && StackOk(stack, s.env)
    requires Prepares(o, PrepareTry(o, Static(stack), ids), ids, stack, s, t, fuel)
    ensures Prepares(Try(o), PrepareTry(Try(o), Static(stack), ids), ids, stack, s, t, fuel)
  {
    hide Eval, PrepareTry, RunCode, RunC;
    EvalUnary(Try(o), o, s);
    PrepareTryNode(o, Static(stack), ids);
    var p := PrepareTry(o, Static(stack), ids);
    var n := p.ids.tryId;
    var tail := UnwrapTry(n, p.residual, Static(stack));
    var (a, s1) := Eval(o, s);
    var t1 := RunCode(p.code, t, fuel).1;
    PrepareIds(o, Static(stack), ids);
    RunAppend(p.code, tail, t, fuel);
    if a.Got? {
      ResidualStored(o, TryResult(n), stack, ids, s, t, fuel);
      var t2 := StoreResidual(p, TryResult(n), t, fuel);
      if a.v.ResultErr? {
        EvalKeepsNames(o, s);
        ErrorExit(n, stack, s, s1, t2, a.v, tail, t1, p.residual, fuel);
      } else {
        UnwrapStep(n, p.residual, Static(stack), t1, t2, fuel);
        TempVarValue(TryValue(n), RunCode(tail, t1, fuel).1);
      }
    }
  }

  function WithOperand(e: Expr, o: Expr): Expr
  {
    match e
    case Not(_) => Not(o)
    case Call(f, _) => Call(f, o)
    case StoreTo(x, _) => StoreTo(x, o)
    case _ => e
  }

  lemma PrepareUnary(e: Expr, o: Expr, scopes: Scopes, ids: Ids)
    requires OperandIs(e, o) && !e.Try?
    ensures var p := PrepareTry(o, scopes, ids);
      PrepareTry(e, scopes, ids) == Prepared(p.code, WithOperand(e, p.residual), p.ids)
    ensures HoistedWrites(e) == HoistedWrites(o)
  {
  }

  lemma UnarySound(e: Expr, o: Expr, stack: seq<Open>, ids: Ids, s: State, t: State, fuel: nat)
    requires OperandIs(e, o) && !e.Try?
    requires Prepares(o, PrepareTry(o, Static(stack), ids), ids, stack, s, t, fuel)
    ensures Prepares(e, PrepareTry(e, Static(stack), ids), ids, stack, s, t, fuel)
  {
    hide Eval, PrepareTry, RunCode;
    var p := PrepareTry(o, Static(stack), ids);
    PrepareUnary(e, o, Static(stack), ids);
    EvalUnary(e, o, s);
    if Eval(o, s).0.Got? {
      var t1 := RunCode(p.code, t, fuel).1;
      EvalUnary(WithOperand(e, p.residual), p.residual, t1);
      FinishCongruent(e, Eval(o, s).0, Eval(o, s).1, Eval(p.residual, t1).1);
    }
  }

  lemma UnwrapStep(n: nat, operand: Expr, scopes: Scopes, t1: State, t2: State, fuel: nat)
    requires RunC(SetTemp(TryResult(n), operand), t1, fuel) == (Normal, t2)
    requires !ReadTemp(t2, TryResult(n)).ResultErr?
    ensures RunCode(UnwrapTry(n, operand, scopes), t1, fuel) ==
      (Normal, t2.(temps := t2.temps[TryValue(n) := OkPayload(ReadTemp(t2, TryResult(n)))]))
  {
    var bind := SetTemp(TryValue(n), OkOf(TryResult(n)));
    var check := CIfOnly(IsErr(TryResult(n)), Append(EmitScopes(scopes, 0), One(CReturnErr(TryResult(n)))));
    RunOne(bind, t2, fuel);
    assert RunC(check, t2, fuel) == (Normal, t2);
    assert RunCode(Seq(check, One(bind)), t2, fuel) == RunC(bind, t2, fuel);
  }

  /** The error exit of a `try`: all open scopes are cleaned up, then the error is returned. */
  lemma ErrorExit(n: nat, stack: seq<Open>, s: State, s1: State, t2: State, v: Value, tail: Code, t1: State,
                  operand: Expr, fuel: nat)
    requires v.ResultErr? && Same(s1, t2) && StackOk(stack, s.env) && SameNames(s.env, t2.env)
    requires ReadTemp(t2, TryResult(n)) == v
    requires tail == UnwrapTry(n, operand, Static(stack))
    requires RunC(SetTemp(TryResult(n), operand), t1, fuel) == (Normal, t2)
    ensures var (o, t3) := RunCode(tail, t1, fuel);
      o == Failure(v.n) && Above(Unwind(stack, 0, s1), t3) && SameNames(t2.env, t3.env)
  {
    hide Eval, Unwind, StackOk, EmitScopes;
    var exit := One(CReturnErr(TryResult(n)));
    StackOkSameNames(stack, s.env, t2.env);
    CleanupInPlace(stack, 0, s1, t2, fuel);
    RunAppend(EmitScopes(Static(stack), 0), exit, t2, fuel);
    var body := Append(EmitScopes(Static(stack), 0), exit);
    RunOne(CReturnErr(TryResult(n)), RunCode(EmitScopes(Static(stack), 0), t2, fuel).1, fuel);
    IsErrValue(TryResult(n), t2);
    var (o, t3) := RunBlock(body, t2, fuel);
    assert RunC(CIfOnly(IsErr(TryResult(n)), body), t2, fuel) == (o, t3);
  }

  lemma {:induction false} PrepareSound(e: Expr, stack: seq<Open>, ids: Ids, s: State, t: State, fuel: nat)
    requires IsSource(e) && Hoistable(e)
    requires Same(s, t) && StackOk(stack, s.env)
    ensures Prepares(e, PrepareTry(e, Static(stack), ids), ids, stack, s, t, fuel)
    decreases e, 0
  {
    if !HasTry(e) {
      PrepareWithoutTry(e, Static(stack), ids);
      WithoutTryNeverFails(e, s);
      EvalCongruent(e, s, t);
    } else {
      match e
      case Binary(op, l, r) =>
        PrepareSound(l, stack, ids, s, t, fuel);
        PrepareSecond(l, r, stack, ids, s, t, fuel);
        BinarySound(op, l, r, stack, ids, s, t, fuel);
      case AndAlso(l, r) =>
        PrepareSound(l, stack, ids, s, t, fuel);
        if HasTry(r) {
          PrepareRight(l, r, stack, ids, s, t, fuel);
          ShortCircuitSound(true, l, r, stack, ids, s, t, fuel);
        } else { LazySound(e, l, r, stack, ids, s, t, fuel); }
      case OrElse(l, r) =>
        PrepareSound(l, stack, ids, s, t, fuel);
        if HasTry(r) {
          PrepareRight(l, r, stack, ids, s, t, fuel);
          ShortCircuitSound(false, l, r, stack, ids, s, t, fuel);
        } else { LazySound(e, l, r, stack, ids, s, t, fuel); }
      case Not(o) => PrepareSound(o, stack, ids, s, t, fuel); UnarySound(e, o, stack, ids, s, t, fuel);
      case Call(_, a) => PrepareSound(a, stack, ids, s, t, fuel); UnarySound(e, a, stack, ids, s, t, fuel);
      case StoreTo(_, a) => PrepareSound(a, stack, ids, s, t, fuel); UnarySound(e, a, stack, ids, s, t, fuel);
      case Try(o) =>
        PrepareSound(o, stack, ids, s, t, fuel);
        UnwrapSound(o, stack, ids, s, t, fuel);
    }
  }

  lemma {:induction false} PrepareRight(l: Expr, r: Expr, stack: seq<Open>, ids: Ids, s: State, t: State, fuel: nat)
    requires IsSource(r) && Hoistable(r) && Same(s, t) && StackOk(stack, s.env)
    requires Prepares(l, PrepareTry(l, Static(stack), ids), ids, stack, s, t, fuel)
    ensures var inner := AfterLeftIds(l, Static(stack), ids);
      Eval(l, s).0.Got? ==>
        Prepares(r, PrepareTry(r, Static(stack), inner), inner, stack, Eval(l, s).1, AfterLeft(l, Static(stack), ids, t, fuel), fuel)
    decreases r, 1
  {
    var (a, s1) := Eval(l, s);
    if a.Got? {
      EvalKeepsNames(l, s);
      StackOkSameNames(stack, s.env, s1.env);
      PrepareSound(r, stack, AfterLeftIds(l, Static(stack), ids), s1, AfterLeft(l, Static(stack), ids, t, fuel), fuel);
    }
  }

  lemma {:induction false} PrepareSecond(l: Expr, r: Expr, stack: seq<Open>, ids: Ids, s: State, t: State, fuel: nat)
    requires IsSource(l) && IsSource(r) && Hoistable(r) && HoistablePair(l, r)
    requires Same(s, t) && StackOk(stack, s.env)
    requires Prepares(l, PrepareTry(l, Static(stack), ids), ids, stack, s, t, fuel)
    ensures var p := PrepareTry(l, Static(stack), ids);
      Eval(l, s).0.Got? && HasTry(r) ==>
        Prepares(r, PrepareTry(r, Static(stack), p.ids), p.ids, stack, Eval(l, s).1, RunCode(p.code, t, fuel).1, fuel)
    decreases r, 1
  {
    var p := PrepareTry(l, Static(stack), ids);
    var (a, s1) := Eval(l, s);
    var t1 := RunCode(p.code, t, fuel).1;
    if a.Got? && HasTry(r) {
      CalmResidual(l, Static(stack), ids);
      PureHasNoEffect(p.residual, t1);
      EvalKeepsNames(l, s);
      StackOkSameNames(stack, s.env, s1.env);
      PrepareSound(r, stack, p.ids, s1, t1, fuel);
    }
  }
}
