/** In C a variable is in scope in its own initializer, in Mort it is not: a declaration that shadows a
    name and mentions it goes wrong, exactly if what is left of its initializer comes to use it. */
module InitializerScope {
  import opened MortSyntax
  import opened MortSemantics
  import opened CleanupLowering
  import opened EvaluationFacts
  import opened UnwindingProof
  import opened TryProof
  import opened CleanupProof
  import opened CleanupTheorem
  import opened FunctionTheorem
  import opened ReturnFlow
  import opened MoveAnalysis

  // ----- any declaration, wherever it stands -----

  /** An emitted declaration whose initializer uses its own variable leaves a fault behind. */
  lemma {:induction false} SelfUseFaults(x: Name, e: Expr, owner: bool, t: State, fuel: nat)
    requires Touches(e, x, DeclareCell(t, x, Num(0), NoFlag))
    ensures RunCode(DeclareOwner(x, e, owner), t, fuel).1.fault
  {
    hide Eval, Touches;
    var t2 := DeclareInit(t, x, e);
    assert RunC(Declare(x, e), t, fuel) == (Normal, t2) && t2.fault;
    if owner { RunOne(DeclareLive(x), t2, fuel); }
  }

  /** For every initializer and every position whose cleanup is not captured, when the source evaluates
      it without a fault: the generated declaration does what the source says if and only if what is
      left of the initializer, after the hoisted code, does not come to use the variable. */
  lemma {:induction false} DeclarationSoundIff(x: Name, e: Expr, owner: bool, stack: seq<Open>, bases: seq<nat>, ids: Ids,
                                               s: State, t: State, fuel: nat)
    requires |stack| > 0 && Liftable(e) && Free(x, Static(stack)) && Same(s, t) && StackOk(stack, s.env)
    requires Eval(e, s).0.Got? && !Eval(e, s).1.fault
    ensures StmtSound(Let(x, e, owner), stack, bases, ids, s, t, fuel) <==> !UsesItself(x, e, Static(stack), ids, t, fuel)
  {
    hide Eval, PrepareTry, RunCode, StackOk, Touches;
    if UsesItself(x, e, Static(stack), ids, t, fuel) {
      var p := PrepareTry(e, Static(stack), ids);
      var tail := DeclareOwner(x, p.residual, owner);
      PreparedState(e, tail, stack, ids, s, t, fuel);
      SelfUseFaults(x, p.residual, owner, RunCode(p.code, t, fuel).1, fuel);
      assert RunCode(Append(p.code, tail), t, fuel).1.fault;
    } else {
      LetRuns(x, e, owner, stack, bases, ids, s, t, fuel);
    }
  }

  // ----- what a programmer can see -----

  /** Every part is evaluated. */
  predicate Strict(e: Expr)
  {
    match e
    case Binary(_, l, r) => Strict(l) && Strict(r)
    case AndAlso(_, _) => false
    case OrElse(_, _) => false
    case Not(o) => Strict(o)
    case Call(_, a) => Strict(a)
    case StoreTo(_, a) => Strict(a)
    case Try(_) => false
    case _ => true
  }

  /** Without short-circuit operators to use is to mention. */
  lemma {:induction false} StrictUse(e: Expr, x: Name, s: State)
    requires Strict(e)
    ensures Eval(e, s).0.Got? && (Touches(e, x, s) <==> x in Mentions(e))
  {
    match e
    case Binary(_, l, r) => StrictUse(l, x, s); StrictUse(r, x, Eval(l, s).1);
    case Not(o) => StrictUse(o, x, s);
    case Call(_, a) => StrictUse(a, x, s);
    case StoreTo(_, a) => StrictUse(a, x, s);
    case _ =>
  }

  // ----- a function -----

  /** fn f(x) { { let x = e; return x; } return 0; } */
  function SelfInit(x: Name, e: Expr): Function
  {
    Function([Param(x, false)], false, Then(Block(InnerInit(x, e)), Then(Return(Some(IntLit(0))), Done)))
  }

  function InnerInit(x: Name, e: Expr): Stmts { Then(Let(x, e, false), Then(Return(Some(Local(x))), Done)) }

  /** With the parameter bound. */
  function Entered(x: Name, v: Value, s: State): State { DeclareCell(s, x, v, NoFlag) }

  lemma {:induction false} LastPlain(x: Name, s: State)
    requires s.env != [] && s.env[|s.env| - 1].name == x && s.env[|s.env| - 1].flag == NoFlag
    ensures Eval(Local(x), s) == (Got(s.env[|s.env| - 1].value), s)
  {
  }

  lemma {:induction false} SelfInitSource(x: Name, e: Expr, v: Value, s: State, fuel: nat)
    requires Eval(e, Entered(x, v, s)).0.Got?
    ensures var (r, s1) := Eval(e, Entered(x, v, s));
      var (out, s2) := RunFunction(SelfInit(x, e), [v], s, fuel);
      out == Returned(Some(r.v)) && s2.fault == s1.fault
  {
    var b := Entered(x, v, s);
    var params := [Param(x, false)];
    assert params[..0] == [] && [v][..0] == [];
    assert BindParams(params, [v], s) == b by { assert BindParams([], [], s) == s; }
    assert ParamPending(params, |s.env|) == [] by { assert ParamPending([], |s.env|) == []; }
    hide Eval;
    var (r, s1) := Eval(e, b);
    var s2 := DeclareCell(s1, x, r.v, NoFlag);
    LastPlain(x, s2);
    InnerInitRuns(x, e, b, r.v, s1, fuel);
    var s3 := ExitScope([], |b.env|, s2);
    assert ExecScope(InnerInit(x, e), b, fuel) == (Returned(Some(r.v)), s3);
    assert ExecStmts(SelfInit(x, e).body, b, [], fuel) == RunResult(Returned(Some(r.v)), s3, []);
  }

  lemma {:induction false} InnerInitRuns(x: Name, e: Expr, b: State, w: Value, s1: State, fuel: nat)
    requires Eval(e, b) == (Got(w), s1)
    ensures ExecStmts(InnerInit(x, e), b, [], fuel) == RunResult(Returned(Some(w)), DeclareCell(s1, x, w, NoFlag), [])
  {
    hide Eval;
    var s2 := DeclareCell(s1, x, w, NoFlag);
    LastPlain(x, s2);
    assert ExecStmt(Let(x, e, false), b, [], fuel) == RunResult(Normal, s2, []);
    assert ExecStmts(Then(Return(Some(Local(x))), Done), s2, [], fuel) == RunResult(Returned(Some(w)), s2, []);
  }

  /** What the generator emits for the inner block. */
  function InnerInitCode(x: Name, e: Expr, ids: Ids): Code
  {
    var t := ReturnValue(ids.returnId);
    Seq(Declare(x, e), Seq(SetTemp(t, Local(x)), One(CReturn(Some(t)))))
  }

  lemma {:induction false} SelfInitLowered(x: Name, e: Expr, ids: Ids) returns (rest: Code)
    requires !HasTry(e)
    ensures LowerFunction(SelfInit(x, e), ids).code == Append(One(CBlock(InnerInitCode(x, e, ids))), rest)
  {
    hide PrepareTry;
    var inner: Scopes := [[], []];
    PrepareWithoutTry(e, inner, ids);
    PrepareWithoutTry(Local(x), inner, ids);
    NoCleanup();
    var t := ReturnValue(ids.returnId);
    assert SetTop(inner, []) == inner;
    var back := Seq(SetTemp(t, Local(x)), One(CReturn(Some(t))));
    assert LowerStmt(Return(Some(Local(x))), inner, [], ids).code == back;
    var leave := LowerStmt(Return(Some(Local(x))), inner, [], ids);
    assert leave == Lowered(back, [], leave.ids);
    assert LowerStmts(Done, inner, [], leave.ids) == Lowered(Nop, [], leave.ids);
    var tail := LowerStmts(Then(Return(Some(Local(x))), Done), inner, [], ids);
    assert tail.code == Append(back, Nop) == back && tail.top == [];
    assert LowerStmt(Let(x, e, false), inner, [], ids) == Lowered(One(Declare(x, e)), [], ids);
    var b := LowerStmts(InnerInit(x, e), inner, [], ids);
    assert b.code == Seq(Declare(x, e), back) && b.top == [];
    var outer: Scopes := [[]];
    assert Push(outer, []) == inner;
    assert LowerScope(InnerInit(x, e), outer, [], [], ids).code == Append(b.code, EmitActions([])) == b.code;
    var low := LowerStmts(SelfInit(x, e).body, outer, [], ids);
    var rest1 := LowerStmts(Then(Return(Some(IntLit(0))), Done), SetTop(outer, []), [], LowerStmt(Block(InnerInit(x, e)), outer, [], ids).ids).code;
    assert low.code == Append(One(CBlock(b.code)), rest1);
    var params := [Param(x, false)];
    assert params[..0] == [];
    assert ParamTop(params) == [] by { assert ParamTop([]) == []; }
    assert ParamCode(params) == Nop by { assert ParamCode([]) == Nop; }
    rest := Append(rest1, Nop);
    AppendAssoc(One(CBlock(b.code)), rest1, Nop);
  }

  lemma NoCleanup()
    ensures EmitScopes([[], []], 0) == Nop && EmitActions([]) == Nop
  {
    var two: Scopes := [[], []];
    var one: Scopes := [[]];
    var none: Scopes := [];
    assert two[..1] == one && one[..0] == none;
    assert EmitActions([]) == Nop;
    assert EmitScopes(one, 0) == Append(Nop, EmitScopes(none, 0)) == Nop;
    assert EmitScopes(two, 0) == Append(Nop, EmitScopes(one, 0));
  }

  lemma {:induction false} SelfInitTarget(x: Name, e: Expr, v: Value, s: State, ids: Ids, fuel: nat)
    requires !HasTry(e)
    ensures var d := DeclareInit(Entered(x, v, s), x, e);
      var (o, t) := CallLowered(SelfInit(x, e), [v], s, ids, fuel);
      && d.env != [] && o == Returned(Some(d.env[|d.env| - 1].value)) && t.fault == d.fault
  {
    hide DeclareInit, LowerFunction, InnerInitCode, RunCode;
    var b := Entered(x, v, s);
    var params := [Param(x, false)];
    assert params[..0] == [] && [v][..0] == [];
    assert BindPlain(params, [v], s) == b by { assert BindPlain([], [], s) == s; }
    DeclaresLast(b, x, e);
    InnerInitCodeRuns(x, e, b, ids, fuel);
    var rest := SelfInitLowered(x, e, ids);
    var block := CBlock(InnerInitCode(x, e, ids));
    RunOne(block, b, fuel);
    RunAppend(One(block), rest, b, fuel);
  }

  lemma {:induction false} DeclaresLast(b: State, x: Name, e: Expr)
    ensures var d := DeclareInit(b, x, e);
      |d.env| == |b.env| + 1 && d.env[|b.env|].name == x && d.env[|b.env|].flag == NoFlag
  {
    hide Eval, Touches;
    EvalKeepsNames(e, DeclareCell(b, x, Num(0), NoFlag));
  }

  lemma {:induction false} InnerInitCodeRuns(x: Name, e: Expr, b: State, ids: Ids, fuel: nat)
    ensures var d := DeclareInit(b, x, e);
      var (o, t) := RunCode(InnerInitCode(x, e, ids), b, fuel);
      && d.env != [] && o == Returned(Some(d.env[|d.env| - 1].value)) && t.fault == d.fault && |t.env| == |d.env|
  {
    hide DeclareInit, Eval;
    DeclaresLast(b, x, e);
    var d := DeclareInit(b, x, e);
    LastPlain(x, d);
    var rt := ReturnValue(ids.returnId);
    var d1 := d.(temps := d.temps[rt := d.env[|d.env| - 1].value]);
    SetTempRuns(rt, Local(x), d, fuel);
    RunOne(CReturn(Some(rt)), d1, fuel);
    RunStepAny(SetTemp(rt, Local(x)), One(CReturn(Some(rt))), d, fuel);
    RunStepAny(Declare(x, e), Seq(SetTemp(rt, Local(x)), One(CReturn(Some(rt)))), b, fuel);
  }

  /** The whole function, for every initializer without `try` of its own: if the source runs without a
      fault, the generated code uses the inner variable before it has a value if and only if evaluating
      the initializer comes to it - without short-circuit operators, if and only if it mentions it -
      and otherwise returns what the source returns. */
  lemma {:induction false} SelfInitFaultsIff(x: Name, e: Expr, v: Value, s: State, ids: Ids, fuel: nat)
    requires IsSource(e) && !HasTry(e) && !RunFunction(SelfInit(x, e), [v], s, fuel).1.fault
    ensures var used := Touches(e, x, DeclareCell(Entered(x, v, s), x, Num(0), NoFlag));
      var (out, _) := RunFunction(SelfInit(x, e), [v], s, fuel);
      var (o, t) := CallLowered(SelfInit(x, e), [v], s, ids, fuel);
      && (t.fault <==> used)
      && (!used ==> o == out)
      && (Strict(e) ==> (used <==> x in Mentions(e)))
    ensures LowerableFunction(SelfInit(x, e)) <==> x !in Mentions(e)
  {
    var b := Entered(x, v, s);
    WithoutTryNeverFails(e, b);
    SelfInitSource(x, e, v, s, fuel);
    SelfInitTarget(x, e, v, s, ids, fuel);
    if Strict(e) { StrictUse(e, x, DeclareCell(b, x, Num(0), NoFlag)); }
    SelfInitLowerable(x, e);
    hide Eval, Touches, RunFunction, CallLowered;
    if !Touches(e, x, DeclareCell(b, x, Num(0), NoFlag)) { DeclareInitIs(b, x, e); }
  }

  lemma {:induction false} SelfInitLowerable(x: Name, e: Expr)
    requires IsSource(e) && !HasTry(e)
    ensures LowerableFunction(SelfInit(x, e)) <==> x !in Mentions(e)
  {
    NoTryIsHoistable(e);
    CalmWithoutTry(e);
    var f := SelfInit(x, e);
    var outer: Scopes := [[]];
    assert ParamTop(f.params) == [] by { assert f.params[..0] == []; assert ParamTop([]) == []; }
    var inner := Push(outer, []);
    assert SetTop(inner, []) == inner && SetTop(outer, []) == outer;
    assert Free(x, inner) && Free(x, outer);
    assert Liftable(Local(x)) && Liftable(IntLit(0));
    var back := Return(Some(Local(x)));
    assert Lowerable(back, inner, false) && TopAfter(back, Top(inner)) == [] && LowerableStmts(Done, inner, false);
    assert LowerableStmts(Then(back, Done), inner, false);
    assert Lowerable(Let(x, e, false), inner, false) <==> x !in Mentions(e);
    assert LowerableStmts(InnerInit(x, e), inner, false) <==> x !in Mentions(e);
    var last := Return(Some(IntLit(0)));
    assert Lowerable(last, outer, false) && TopAfter(last, Top(outer)) == [] && LowerableStmts(Done, outer, false);
    assert LowerableStmts(Then(last, Done), outer, false);
    var block := Block(InnerInit(x, e));
    assert Lowerable(block, outer, false) <==> x !in Mentions(e);
    assert TopAfter(block, Top(outer)) == [] && SetTop(outer, TopAfter(block, Top(outer))) == outer;
    assert LowerableStmts(f.body, outer, false) <==> x !in Mentions(e);
    assert AlwaysReturns(f.body) && DistinctParams(f.params) && [ParamTop(f.params)] == outer;
  }

  lemma {:induction false} NoTryIsHoistable(e: Expr)
    requires !HasTry(e)
    ensures Hoistable(e)
  {
    match e
    case Binary(_, l, r) => NoTryIsHoistable(l); NoTryIsHoistable(r);
    case AndAlso(l, r) => NoTryIsHoistable(l); NoTryIsHoistable(r);
    case OrElse(l, r) => NoTryIsHoistable(l); NoTryIsHoistable(r);
    case Not(o) => NoTryIsHoistable(o);
    case Call(_, a) => NoTryIsHoistable(a);
    case StoreTo(_, a) => NoTryIsHoistable(a);
    case _ =>
  }

  /** fn f(x) { { let x = x + 1; return x; } return 0; } is accepted and returns n + 1; the generated
      code adds one to a variable that has no value. */
  lemma {:induction false} SelfIncrement(x: Name, n: int, ty: OwnType, s: State, ids: Ids, fuel: nat)
    requires !s.fault
    ensures var f := SelfInit(x, Binary(Add, Local(x), IntLit(1)));
      && Accepts(f, [ty]) && !LowerableFunction(f)
      && RunFunction(f, [Num(n)], s, fuel).0 == Returned(Some(Num(n + 1))) && !RunFunction(f, [Num(n)], s, fuel).1.fault
      && CallLowered(f, [Num(n)], s, ids, fuel).1.fault
  {
    var e := Binary(Add, Local(x), IntLit(1));
    LastPlain(x, Entered(x, Num(n), s));
    assert Eval(e, Entered(x, Num(n), s)) == (Got(Num(n + 1)), Entered(x, Num(n), s));
    SelfInitSource(x, e, Num(n), s, fuel);
    SelfInitFaultsIff(x, e, Num(n), s, ids, fuel);
    SelfIncrementAccepted(x, ty);
  }

  lemma {:induction false} SelfIncrementAccepted(x: Name, ty: OwnType)
    ensures Accepts(SelfInit(x, Binary(Add, Local(x), IntLit(1))), [ty])
  {
    hide CheckExpr, CheckStmt, Lookup;
    var params := [Param(x, false)];
    assert params[..0] == [] && [ty][..0] == [];
    var c := ParamInfos(params, [ty]);
    assert c == [Info(x, None, false, 0)] by { assert ParamInfos([], []) == []; }
    var e := Binary(Add, Local(x), IntLit(1));
    InnerBlockAccepted(x, c);
    LastReturnAccepted(c);
    var last := Then(Return(Some(IntLit(0))), Done);
    assert CheckStmts(Done, c, 0, 0) == Accepted(c);
    assert CheckStmts(last, c, 0, 0) == Accepted(c);
    assert AlwaysReturns(last);
  }

  lemma {:induction false} LastReturnAccepted(c: seq<Info>)
    ensures CheckStmt(Return(Some(IntLit(0))), c, 0, 0) == Accepted(c)
  {
  }

  lemma {:induction false} InnerBlockAccepted(x: Name, c: seq<Info>)
    requires c == [Info(x, None, false, 0)]
    ensures CheckStmt(Block(InnerInit(x, Binary(Add, Local(x), IntLit(1)))), c, 0, 0) == Accepted(c)
  {
    var e := Binary(Add, Local(x), IntLit(1));
    var body := InnerInit(x, e);
    var c1 := c + [Info(x, None, false, 0)];
    InnerLetAccepted(x, c, c1);
    PlainReadAccepted(x, c1);
    hide CheckExpr, Lookup, CheckStmt;
    assert CheckStmts(Done, c1, 1, 0) == Accepted(c1);
    assert CheckStmts(Then(Return(Some(Local(x))), Done), c1, 1, 0) == Accepted(c1);
    assert CheckStmts(body, c, 1, 0) == Accepted(c1);
    assert c1[..1] == c && c + [] == c && |c| == 1;
    assert CheckScope(body, c, [], 0) == Accepted(c);
    BlockIsScope(body, c);
  }

  lemma {:induction false} BlockIsScope(body: Stmts, c: seq<Info>)
    ensures CheckStmt(Block(body), c, 0, 0) == CheckScope(body, c, [], 0)
  {
  }

  lemma {:induction false} InnerLetAccepted(x: Name, c: seq<Info>, c1: seq<Info>)
    requires c == [Info(x, None, false, 0)] && c1 == c + [Info(x, None, false, 0)]
    ensures CheckStmt(Let(x, Binary(Add, Local(x), IntLit(1)), false), c, 1, 0) == Accepted(c1)
  {
    assert Lookup(c, x) == 0 && IsPlain(c, x);
    assert CheckExpr(Binary(Add, Local(x), IntLit(1)), c, 0) == Accepted(Typed(Copyable, c));
  }

  lemma {:induction false} PlainReadAccepted(x: Name, c1: seq<Info>)
    requires |c1| == 2 && c1[1] == Info(x, None, false, 0)
    ensures CheckStmt(Return(Some(Local(x))), c1, 1, 0) == Accepted(c1)
  {
    assert Lookup(c1, x) == 1 && IsPlain(c1, x);
    assert CheckExpr(Local(x), c1, 0) == Accepted(Typed(Copyable, c1));
  }
}
