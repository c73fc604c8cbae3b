/** Where the lowering stops being faithful: exactly when emitted cleanup resolves to the bindings it
    was registered for, and two programs outside the theorem's conditions that do go wrong. */
module LoweringLimits {
  import opened MortSyntax
  import opened MortSemantics
  import opened CleanupLowering
  import opened EvaluationFacts
  import opened UnwindingProof
  import opened TryProof
  import opened CleanupProof
  import opened CleanupTheorem
  import opened FunctionTheorem
  import opened MoveAnalysis

  /** The names in a cleanup denote, where it is emitted, the bindings they denoted where it was
      registered. */
  predicate ResolvesAlike(a: Action, env: seq<Cell>, depth: nat)
    requires depth <= |env|
  {
    forall x | x in ActionMentions(a) :: Find(env, x) == Find(env[..depth], x)
  }

  /** Name resolution survives exactly when no later binding reuses a mentioned name. */
  lemma {:induction false} CaptureIsExact(a: Action, env: seq<Cell>, depth: nat)
    requires depth <= |env|
    ensures ResolvesAlike(a, env, depth) <==> NoneOf(ActionMentions(a), env[depth..])
  {
    var suffix := env[depth..];
    assert env == env[..depth] + suffix;
    if NoneOf(ActionMentions(a), suffix) {
      forall x | x in ActionMentions(a) ensures Find(env, x) == Find(env[..depth], x) {
        FindInPrefix(env[..depth], suffix, x);
      }
    } else {
      var i :| 0 <= i < |suffix| && suffix[i].name in ActionMentions(a);
      var x := suffix[i].name;
      assert env[depth + i].name == x;
      assert Find(env, x) >= depth + i;
      assert Find(env[..depth], x) < depth;
    }
  }

  // ----- a shadowed owner is destroyed twice and the outer one never -----

  /** let x = first; */
  function Owner(x: Name, init: Expr): Stmt { Let(x, init, true) }

  /** { let x = second; return; } */
  function Inner(x: Name, second: Expr): Stmts { Then(Owner(x, second), Then(Return(None), Done)) }

  /** fn f() { let x = first; { let x = second; return; } } */
  function Shadowed(x: Name, first: Expr, second: Expr): Function
  {
    Function([], true, Then(Owner(x, first), Then(Block(Inner(x, second)), Done)))
  }

  lemma {:induction false} DeclaredOwner(x: Name, e: Expr, s: State, pend: seq<Pending>, fuel: nat)
    requires Eval(e, s).0.Got?
    ensures var s1 := DeclareCell(Eval(e, s).1, x, Eval(e, s).0.v, Live);
      ExecStmt(Owner(x, e), s, pend, fuel) == RunResult(Normal, s1, pend + [Pending(|s1.env|, Drop(x))])
  {
  }

  lemma {:induction false} LastOwnerDropped(x: Name, s: State)
    requires s.env != [] && s.env[|s.env| - 1].name == x && s.env[|s.env| - 1].flag == Live
    ensures DropCell(s, x) == s.(trace := s.trace + [Dropped(s.env[|s.env| - 1].value)])
  {
  }

  lemma {:induction false} OnePendingDrop(x: Name, s: State)
    requires s.env != [] && s.env[|s.env| - 1].name == x && s.env[|s.env| - 1].flag == Live
    ensures var n := |s.env| - 1;
      ExitScope([Pending(n + 1, Drop(x))], n, s) ==
        s.(env := s.env[..n], trace := s.trace + [Dropped(s.env[n].value)])
  {
    var n := |s.env| - 1;
    var q := Pending(n + 1, Drop(x));
    assert s.env[..n + 1] == s.env && s.env + s.env[n + 1..] == s.env;
    LastOwnerDropped(x, s);
    assert [q][..0] == [];
    var s1 := s.(trace := s.trace + [Dropped(s.env[n].value)]);
    assert PerformPending(q, s) == s1;
    assert PerformAll([q], s) == PerformAll([], s1);
  }

  /** The two values bound one after the other, and the state in which both are in scope. */
  function BothBound(x: Name, first: Expr, second: Expr, s: State): (State, State)
  {
    var s1 := DeclareCell(Eval(first, s).1, x, ValueOf(Eval(first, s).0), Live);
    (s1, DeclareCell(Eval(second, s1).1, x, ValueOf(Eval(second, s1).0), Live))
  }

  /** Initialisers that deliver a value without touching the bindings, as creating a resource does, and
      do not mention the variable they initialise. */
  predicate Delivers(x: Name, first: Expr, second: Expr, s: State)
  {
    var (s1, s2) := BothBound(x, first, second, s);
    && IsSource(first) && IsSource(second) && !HasTry(first) && !HasTry(second)
    && Eval(first, s).1.env == s.env && Eval(second, s1).1.env == s1.env
    && x !in Mentions(first) && x !in Mentions(second)
  }

  lemma {:induction false} InnerRuns(x: Name, second: Expr, s1: State, s2: State, p2: seq<Pending>, fuel: nat)
    requires ExecStmt(Owner(x, second), s1, [], fuel) == RunResult(Normal, s2, p2)
    ensures ExecStmts(Inner(x, second), s1, [], fuel) == RunResult(Returned(None), s2, p2)
  {
    hide Eval;
    assert ExecStmts(Then(Return(None), Done), s2, p2, fuel) == RunResult(Returned(None), s2, p2);
  }

  /** The source drops the inner owner, then the outer one. */
  lemma {:induction false} ShadowedSource(x: Name, first: Expr, second: Expr, s: State, fuel: nat)
    requires Delivers(x, first, second, s)
    ensures var (s1, s2) := BothBound(x, first, second, s);
      var n := |s.env|;
      RunFunction(Shadowed(x, first, second), [], s, fuel).1.trace ==
        s2.trace + [Dropped(s2.env[n + 1].value), Dropped(s2.env[n].value)]
  {
    hide Eval, PerformAll;
    var (s1, s2) := BothBound(x, first, second, s);
    var n := |s.env|;
    WithoutTryNeverFails(first, s);
    WithoutTryNeverFails(second, s1);
    DeclaredOwner(x, first, s, [], fuel);
    DeclaredOwner(x, second, s1, [], fuel);
    var p1, p2 := [Pending(n + 1, Drop(x))], [Pending(n + 2, Drop(x))];
    assert [] + p1 == p1 && [] + p2 == p2;
    InnerRuns(x, second, s1, s2, p2, fuel);
    OnePendingDrop(x, s2);
    var s3 := s2.(env := s2.env[..n + 1], trace := s2.trace + [Dropped(s2.env[n + 1].value)]);
    assert ExecScope(Inner(x, second), s1, fuel) == (Returned(None), s3);
    assert ExecStmts(Then(Block(Inner(x, second)), Done), s1, p1, fuel) == RunResult(Returned(None), s3, p1);
    assert ExecStmts(Shadowed(x, first, second).body, s, [], fuel) == RunResult(Returned(None), s3, p1);
    OnePendingDrop(x, s3);
    assert ParamPending([], n) == [] && BindParams([], [], s) == s;
  }

  lemma {:induction false} EmittedDrops(x: Name)
    ensures EmitScopes([[Drop(x)], [Drop(x)]], 0) == Seq(DropIfLive(x), One(DropIfLive(x)))
    ensures EmitActions([Drop(x)]) == One(DropIfLive(x))
  {
    var acts := [Drop(x)];
    assert acts[..0] == [];
    assert EmitActions(acts) == Seq(DropIfLive(x), EmitActions([]));
    var two: Scopes := [acts, acts];
    var one: Scopes := [acts];
    var none: Scopes := [];
    assert two[..1] == one && one[..0] == none;
    var d := DropIfLive(x);
    assert EmitScopes(one, 0) == Append(EmitActions(acts), EmitScopes(none, 0));
    assert Append(Nop, Nop) == Nop && Append(One(d), Nop) == One(d);
    assert EmitScopes(two, 0) == Append(EmitActions(acts), EmitScopes(one, 0));
    assert Append(Nop, One(d)) == One(d) && Append(One(d), One(d)) == Seq(d, One(d));
  }

  /** What the generator emits for the inner scope: both drops name the same variable. */
  function InnerCode(x: Name, second: Expr): Code
  {
    Append(DeclareOwner(x, second, true), Seq(DropIfLive(x), Seq(DropIfLive(x), One(CReturn(None)))))
  }

  lemma {:induction false} InnerLowered(x: Name, second: Expr, ids: Ids)
    requires !HasTry(second)
    ensures LowerStmts(Inner(x, second), [[Drop(x)], []], [], ids) == Lowered(Append(InnerCode(x, second), Nop), [Drop(x)], ids)
  {
    hide PrepareTry;
    var scopes: Scopes := [[Drop(x)], []];
    var both: Scopes := [[Drop(x)], [Drop(x)]];
    PrepareWithoutTry(second, scopes, ids);
    EmittedDrops(x);
    assert [] + [Drop(x)] == [Drop(x)];
    assert SetTop(scopes, [Drop(x)]) == both;
    var leave := Append(EmitScopes(both, 0), One(CReturn(None)));
    var d, r := DropIfLive(x), One(CReturn(None));
    assert Append(Nop, r) == r && Append(One(d), r) == Seq(d, r);
    assert leave == Seq(d, Seq(d, r));
    assert LowerStmts(Then(Return(None), Done), both, [], ids) == Lowered(Append(leave, Nop), [Drop(x)], ids);
    AppendAssoc(Append(Nop, DeclareOwner(x, second, true)), leave, Nop);
  }

  /** The block with the inner owner: its drop, emitted twice by name. */
  function InnerBlock(x: Name, second: Expr): Code
  {
    Append(Append(InnerCode(x, second), Nop), One(DropIfLive(x)))
  }

  lemma {:induction false} ShadowedLowered(x: Name, first: Expr, second: Expr, ids: Ids)
    requires !HasTry(first) && !HasTry(second)
    ensures var block := CBlock(InnerBlock(x, second));
      var low := LowerStmts(Shadowed(x, first, second).body, [[]], [], ids);
      low.code == Append(DeclareOwner(x, first, true), Append(One(block), Nop))
  {
    hide PrepareTry;
    PrepareWithoutTry(first, [[]], ids);
    InnerLowered(x, second, ids);
    EmittedDrops(x);
    assert [] + [Drop(x)] == [Drop(x)];
    assert SetTop([[]], [Drop(x)]) == [[Drop(x)]];
    assert Push([[Drop(x)]], []) == [[Drop(x)], []];
    var block := CBlock(InnerBlock(x, second));
    assert LowerStmt(Block(Inner(x, second)), [[Drop(x)]], [], ids) == Lowered(One(block), [Drop(x)], ids);
    assert LowerStmts(Then(Block(Inner(x, second)), Done), [[Drop(x)]], [], ids).code == Append(One(block), Nop);
  }

  lemma {:induction false} InnerBlockRuns(x: Name, second: Expr, s1: State, s2: State, fuel: nat)
    requires !HasTry(second) && RunCode(DeclareOwner(x, second, true), s1, fuel) == (Normal, s2)
    requires s2.env != [] && s2.env[|s2.env| - 1].name == x && s2.env[|s2.env| - 1].flag == Live
    ensures var v := s2.env[|s2.env| - 1].value;
      RunCode(InnerBlock(x, second), s1, fuel) == (Returned(None), s2.(trace := s2.trace + [Dropped(v), Dropped(v)]))
  {
    hide Eval, RunCode, DropCell;
    var v := s2.env[|s2.env| - 1].value;
    var t3 := s2.(trace := s2.trace + [Dropped(v)]);
    var t4 := s2.(trace := s2.trace + [Dropped(v)] + [Dropped(v)]);
    assert t4 == s2.(trace := s2.trace + [Dropped(v), Dropped(v)]);
    LastOwnerDropped(x, s2);
    LastOwnerDropped(x, t3);
    RunOne(CReturn(None), t4, fuel);
    RunStep(DropIfLive(x), One(CReturn(None)), t3, t4, fuel);
    RunStep(DropIfLive(x), Seq(DropIfLive(x), One(CReturn(None))), s2, t3, fuel);
    RunAppend(DeclareOwner(x, second, true), Seq(DropIfLive(x), Seq(DropIfLive(x), One(CReturn(None)))), s1, fuel);
    RunAppend(InnerCode(x, second), Nop, s1, fuel);
    RunAppend(Append(InnerCode(x, second), Nop), One(DropIfLive(x)), s1, fuel);
  }

  /** The generated code drops the inner owner twice; the outer one leaks. */
  lemma {:induction false} ShadowedTarget(x: Name, first: Expr, second: Expr, s: State, ids: Ids, fuel: nat)
    requires Delivers(x, first, second, s)
    ensures var (s1, s2) := BothBound(x, first, second, s);
      var n := |s.env|;
      CallLowered(Shadowed(x, first, second), [], s, ids, fuel).1.trace ==
        s2.trace + [Dropped(s2.env[n + 1].value), Dropped(s2.env[n + 1].value)]
  {
    hide Eval, PrepareTry, LowerStmts, RunCode, DropCell, InnerBlock;
    var f := Shadowed(x, first, second);
    var (s1, s2) := BothBound(x, first, second, s);
    ShadowedLowered(x, first, second, ids);
    WithoutTryNeverFails(first, s);
    WithoutTryNeverFails(second, s1);
    UnmentionedIsUntouched(first, x, DeclareCell(s, x, Num(0), NoFlag));
    UnmentionedIsUntouched(second, x, DeclareCell(s1, x, Num(0), NoFlag));
    DeclareRuns(x, first, true, s, fuel);
    DeclareRuns(x, second, true, s1, fuel);
    InnerBlockRuns(x, second, s1, s2, fuel);
    var inner := InnerBlock(x, second);
    RunOne(CBlock(inner), s1, fuel);
    RunAppend(One(CBlock(inner)), Nop, s1, fuel);
    var low := LowerStmts(f.body, [[]], [], ids);
    RunAppend(DeclareOwner(x, first, true), Append(One(CBlock(inner)), Nop), s, fuel);
    RunAppend(low.code, EmitActions(low.top), s, fuel);
    assert ParamTop([]) == [] && BindPlain([], [], s) == s;
    assert LowerFunction(f, ids).code == Append(Nop, Append(low.code, EmitActions(low.top)));
  }

  /** Whenever an inner owner shadows an outer one of a different value, the generated code does
      not do what the source says. */
  lemma {:induction false} ShadowingBreaksCleanup(x: Name, first: Expr, second: Expr, s: State, ids: Ids, fuel: nat)
    requires Delivers(x, first, second, s)
    requires var (s1, s2) := BothBound(x, first, second, s);
      s2.env[|s.env|].value != s2.env[|s.env| + 1].value
    ensures !LowerableFunction(Shadowed(x, first, second))
    ensures !Same(RunFunction(Shadowed(x, first, second), [], s, fuel).1,
                  CallLowered(Shadowed(x, first, second), [], s, ids, fuel).1)
  {
    hide RunFunction, CallLowered, LowerableFunction, Eval;
    ShadowedSource(x, first, second, s, fuel);
    ShadowedTarget(x, first, second, s, ids, fuel);
    var f := Shadowed(x, first, second);
    var a := RunFunction(f, [], s, fuel).1.trace;
    var b := CallLowered(f, [], s, ids, fuel).1.trace;
    assert a[|a| - 1] != b[|b| - 1];
    if LowerableFunction(f) { LoweringPreservesMeaning(f, [], s, ids, fuel); }
  }

  // ----- hoisting a try past an effect -----

  /** f(a) op try g(b) */
  function Reordered(op: BinOp, f: Name, a: Expr, g: Name, b: Expr): Expr
  {
    Binary(op, Call(f, a), Try(Call(g, b)))
  }

  /** The first event a run adds to the trace. */
  predicate StartsWith(before: State, event: Event, after: State)
  {
    before.trace + [event] <= after.trace
  }

  lemma {:induction false} EvalGrows(e: Expr, s: State)
    ensures s.trace <= Eval(e, s).1.trace
  {
    match e
    case Binary(_, l, r) => EvalGrows(l, s); EvalGrows(r, Eval(l, s).1);
    case AndAlso(l, r) => EvalGrows(l, s); EvalGrows(r, Eval(l, s).1);
    case OrElse(l, r) => EvalGrows(l, s); EvalGrows(r, Eval(l, s).1);
    case Not(o) => EvalGrows(o, s);
    case Call(_, o) => EvalGrows(o, s);
    case StoreTo(_, o) => EvalGrows(o, s);
    case Try(o) => EvalGrows(o, s);
    case _ =>
  }

  lemma {:induction false} ActionsGrow(acts: seq<Action>, s: State, fuel: nat)
    ensures s.trace <= RunCode(EmitActions(acts), s, fuel).1.trace
  {
    if acts != [] {
      var act := acts[|acts| - 1];
      if act.Run? { EvalGrows(act.e, s); }
      ActionsGrow(acts[..|acts| - 1], RunC(EmitAction(act), s, fuel).1, fuel);
    }
  }

  lemma {:induction false} ScopesGrow(scopes: Scopes, s: State, fuel: nat)
    ensures s.trace <= RunCode(EmitScopes(scopes, 0), s, fuel).1.trace
    decreases |scopes|
  {
    if |scopes| > 0 {
      var n := |scopes| - 1;
      ActionsGrow(scopes[n], s, fuel);
      ScopesGrow(scopes[..n], RunCode(EmitActions(scopes[n]), s, fuel).1, fuel);
      RunAppend(EmitActions(scopes[n]), EmitScopes(scopes[..n], 0), s, fuel);
    }
  }

  /** After the operand of a `try`, whatever its tag, the emitted code only adds to the trace. */
  lemma {:induction false} UnwrapGrows(n: nat, operand: Expr, scopes: Scopes, s: State, fuel: nat)
    ensures Eval(operand, s).1.trace <= RunCode(UnwrapTry(n, operand, scopes), s, fuel).1.trace
  {
    hide Eval, EmitScopes;
    SetTempRuns(TryResult(n), operand, s, fuel);
    var t1 := RunC(SetTemp(TryResult(n), operand), s, fuel).1;
    if ReadTemp(t1, TryResult(n)).ResultErr? {
      var exit := Append(EmitScopes(scopes, 0), One(CReturnErr(TryResult(n))));
      RunAppend(EmitScopes(scopes, 0), One(CReturnErr(TryResult(n))), t1, fuel);
      RunOne(CReturnErr(TryResult(n)), RunCode(EmitScopes(scopes, 0), t1, fuel).1, fuel);
      ScopesGrow(scopes, t1, fuel);
      IsErrValue(TryResult(n), t1);
      ErrStops(n, operand, scopes, s, t1, fuel);
    } else {
      UnwrapStep(n, operand, scopes, s, t1, fuel);
    }
  }

  lemma {:induction false} ErrStops(n: nat, operand: Expr, scopes: Scopes, s: State, t1: State, fuel: nat)
    requires RunC(SetTemp(TryResult(n), operand), s, fuel) == (Normal, t1)
    requires Eval(IsErr(TryResult(n)), t1) == (Got(FromBool(true)), t1)
    ensures var exit := Append(EmitScopes(scopes, 0), One(CReturnErr(TryResult(n))));
      var (o, t2) := RunCode(exit, t1, fuel);
      !o.Normal? ==> RunCode(UnwrapTry(n, operand, scopes), s, fuel).1.trace == t2.trace
  {
    hide Eval, EmitScopes;
    var exit := Append(EmitScopes(scopes, 0), One(CReturnErr(TryResult(n))));
    var check := CIfOnly(IsErr(TryResult(n)), exit);
    var (o, t2) := RunCode(exit, t1, fuel);
    assert RunC(check, t1, fuel) == RunBlock(exit, t1, fuel);
    assert RunBlock(exit, t1, fuel).0 == o && RunBlock(exit, t1, fuel).1.trace == t2.trace;
    var bind := One(SetTemp(TryValue(n), OkOf(TryResult(n))));
    if !o.Normal? { assert RunCode(Seq(check, bind), t1, fuel) == RunC(check, t1, fuel); }
  }

  /** A call is the next event, after an argument without effects. */
  lemma {:induction false} CallLogged(f: Name, arg: Expr, s: State)
    requires Pure(arg)
    ensures Eval(arg, s).0.Got? && Eval(Call(f, arg), s).0.Got?
    ensures StartsWith(s, Called(f, Eval(arg, s).0.v), Eval(Call(f, arg), s).1)
  {
    PureHasNoEffect(arg, s);
  }

  /** Whatever the operator, the arguments and the replies: direct evaluation calls f first, the
      generated code calls g first. So unless it is the same call, the two have different traces. */
  lemma {:induction false} HoistingReordersCalls(op: BinOp, f: Name, a: Expr, g: Name, b: Expr, scopes: Scopes, ids: Ids, s: State, fuel: nat)
    requires Pure(a) && Pure(b) && !HasTry(a) && !HasTry(b)
    ensures Eval(a, s).0.Got? && Eval(b, s).0.Got?
    ensures !Hoistable(Reordered(op, f, a, g, b))
    ensures var p := PrepareTry(Reordered(op, f, a, g, b), scopes, ids);
      var (o, t1) := RunCode(p.code, s, fuel);
      && StartsWith(s, Called(f, Eval(a, s).0.v), Eval(Reordered(op, f, a, g, b), s).1)
      && StartsWith(s, Called(g, Eval(b, s).0.v), t1)
      && StartsWith(s, Called(g, Eval(b, s).0.v), Eval(p.residual, t1).1)
  {
    hide Eval, PrepareTry, RunCode;
    var l, r := Call(f, a), Call(g, b);
    CallLogged(f, a, s);
    CallLogged(g, b, s);
    PureHasNoEffect(a, s);
    PureHasNoEffect(b, s);
    EvalBinary(op, l, Try(r), s);
    EvalGrows(Try(r), Eval(l, s).1);
    ReorderedPrepared(op, f, a, g, b, scopes, ids);
    var p := PrepareTry(Reordered(op, f, a, g, b), scopes, ids);
    UnwrapGrows(ids.tryId, r, scopes, s, fuel);
    EvalGrows(p.residual, RunCode(p.code, s, fuel).1);
  }

  // ----- hoisting a move past a read -----

  /** r.field op try g(move r) */
  function ReadThenMoved(op: BinOp, g: Name, r: Name): Expr
  {
    Binary(op, Borrow(r), Try(Call(g, Move(r))))
  }

  predicate LiveOwner(s: State, r: Name)
  {
    s.env != [] && s.env[|s.env| - 1].name == r && s.env[|s.env| - 1].flag == Live
  }

  /** The checker accepts the read and then the move, from left to right. */
  lemma {:induction false} ReadThenMovedAccepted(op: BinOp, g: Name, r: Name, ty: OwnType)
    ensures CheckExpr(ReadThenMoved(op, g, r), [Info(r, Some(ty), false, 0)], 0).Accepted?
  {
    var c := [Info(r, Some(ty), false, 0)];
    assert Lookup(c, r) == 0;
    assert CheckExpr(Call(g, Move(r)), c, 0) == Accepted(Typed(Copyable, c[0 := c[0].(moved := true)]));
  }

  /** The source reads a live resource and then gives it away. The generated code gives it away first,
      and reads it if and only if the call succeeds. */
  lemma {:induction false} HoistedMoveFaultsIff(op: BinOp, g: Name, r: Name, scopes: Scopes, ids: Ids, s: State, fuel: nat)
    requires LiveOwner(s, r) && !s.fault
    ensures !Hoistable(ReadThenMoved(op, g, r))
    ensures !Eval(ReadThenMoved(op, g, r), s).1.fault
    ensures var p := PrepareTry(ReadThenMoved(op, g, r), scopes, ids);
      var (o, t1) := RunCode(p.code, s, fuel);
      (Eval(ReadThenMoved(op, g, r), s).0.Got? ==> o.Normal? && Eval(p.residual, t1).1.fault)
      && (Eval(ReadThenMoved(op, g, r), s).0.Failed? ==> !o.Normal?)
  {
    var call := Call(g, Move(r));
    OwnerGivenAway(op, g, r, s);
    ReadThenMovedPrepared(op, g, r, scopes, ids);
    ReadThenMovedNotHoistable(op, g, r);
    hide RunCode, RunC, EmitScopes, PrepareTry, Eval, Hoistable;
    var (v, st1) := Eval(call, s);
    var id := ids.tryId;
    SetTempRuns(TryResult(id), call, s, fuel);
    var t1 := RunC(SetTemp(TryResult(id), call), s, fuel).1;
    if v.v.ResultErr? {
      IsErrValue(TryResult(id), t1);
      UnwrapStops(id, call, scopes, s, t1, fuel);
    } else {
      UnwrapStep(id, call, scopes, s, t1, fuel);
      var t2 := RunCode(UnwrapTry(id, call, scopes), s, fuel).1;
      DeadReadFaults(op, r, TempVar(TryValue(id)), t2);
    }
  }

  /** Direct evaluation: the read, then the move, then the call. */
  lemma {:induction false} OwnerGivenAway(op: BinOp, g: Name, r: Name, s: State)
    requires LiveOwner(s, r) && !s.fault
    ensures var (v, st1) := Eval(Call(g, Move(r)), s);
      && v.Got? && st1.env == s.env[|s.env| - 1 := s.env[|s.env| - 1].(flag := Dead)] && !st1.fault
      && Eval(ReadThenMoved(op, g, r), s).1 == st1
      && (Eval(ReadThenMoved(op, g, r), s).0.Failed? <==> v.v.ResultErr?)
  {
    var n := |s.env| - 1;
    assert Find(s.env, r) == n && FindFlag(s.env, r) == n;
    assert Eval(Move(r), s) == (Got(s.env[n].value), s.(env := s.env[n := s.env[n].(flag := Dead)]));
    assert Eval(Borrow(r), s).1 == s && Eval(Borrow(r), s).0.Got?;
    EvalBinary(op, Borrow(r), Try(Call(g, Move(r))), s);
    EvalUnary(Try(Call(g, Move(r))), Call(g, Move(r)), s);
  }

  lemma {:induction false} ReadThenMovedNotHoistable(op: BinOp, g: Name, r: Name)
    ensures !Hoistable(ReadThenMoved(op, g, r))
  {
    assert r in Writes(Move(r)) && r in Writes(Call(g, Move(r)));
    assert r in ResidualReads(Borrow(r)) && r in HoistedWrites(Try(Call(g, Move(r))));
  }

  lemma {:induction false} DeadReadFaults(op: BinOp, r: Name, e: Expr, t: State)
    requires t.env != [] && t.env[|t.env| - 1].name == r && t.env[|t.env| - 1].flag == Dead
    ensures Eval(Binary(op, Borrow(r), e), t).1.fault
  {
    assert Find(t.env, r) == |t.env| - 1;
    var t1 := Eval(Borrow(r), t).1;
    assert t1.fault;
    FaultStays(e, t1);
    EvalBinary(op, Borrow(r), e, t);
  }

  lemma {:induction false} UnwrapStops(n: nat, operand: Expr, scopes: Scopes, s: State, t1: State, fuel: nat)
    requires RunC(SetTemp(TryResult(n), operand), s, fuel) == (Normal, t1)
    requires Eval(IsErr(TryResult(n)), t1) == (Got(FromBool(true)), t1)
    ensures !RunCode(UnwrapTry(n, operand, scopes), s, fuel).0.Normal?
  {
    hide Eval, EmitScopes;
    var exit := Append(EmitScopes(scopes, 0), One(CReturnErr(TryResult(n))));
    RunAppend(EmitScopes(scopes, 0), One(CReturnErr(TryResult(n))), t1, fuel);
    RunOne(CReturnErr(TryResult(n)), RunCode(EmitScopes(scopes, 0), t1, fuel).1, fuel);
    var check := CIfOnly(IsErr(TryResult(n)), exit);
    assert RunC(check, t1, fuel) == RunBlock(exit, t1, fuel);
    var bind := One(SetTemp(TryValue(n), OkOf(TryResult(n))));
    assert RunCode(Seq(check, bind), t1, fuel) == RunC(check, t1, fuel);
  }

  lemma {:induction false} ReadThenMovedPrepared(op: BinOp, g: Name, r: Name, scopes: Scopes, ids: Ids)
    ensures var p := PrepareTry(ReadThenMoved(op, g, r), scopes, ids);
      && p.code == UnwrapTry(ids.tryId, Call(g, Move(r)), scopes)
      && p.residual == Binary(op, Borrow(r), TempVar(TryValue(ids.tryId)))
  {
    PrepareWithoutTry(Borrow(r), scopes, ids);
    PrepareWithoutTry(Call(g, Move(r)), scopes, ids);
    PrepareTryNode(Call(g, Move(r)), scopes, ids);
  }

  lemma {:induction false} ReorderedPrepared(op: BinOp, f: Name, a: Expr, g: Name, b: Expr, scopes: Scopes, ids: Ids)
    requires !HasTry(a) && !HasTry(b)
    ensures var p := PrepareTry(Reordered(op, f, a, g, b), scopes, ids);
      && p.code == UnwrapTry(ids.tryId, Call(g, b), scopes)
      && p.residual == Binary(op, Call(f, a), TempVar(TryValue(ids.tryId)))
  {
    var l, r := Call(f, a), Call(g, b);
    PrepareWithoutTry(l, scopes, ids);
    PrepareWithoutTry(r, scopes, ids);
    PrepareTryNode(r, scopes, ids);
  }
}
