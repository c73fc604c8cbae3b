/** Exactly-once ownership of whole calls, of the source and of the generated code, and what the
    checker accepts although the property fails. */
module ExactlyOnce {
  import opened MortSyntax
  import opened MortSemantics
  import opened CleanupLowering
  import opened EvaluationFacts
  import opened ReturnFlow
  import opened FunctionTheorem
  import opened MoveAnalysis
  import opened OwnershipFacts
  import opened OwnershipCleanup
  import opened CheckerFacts
  import opened OwnershipProof
  import opened OwnershipTheorem

  // ----- entering a function -----

  /** The arguments have the parameters' types. */
  predicate ArgsFit(params: seq<Param>, types: seq<OwnType>, args: seq<Value>)
    requires |params| == |types| == |args|
  {
    forall i | 0 <= i < |params| :: if params[i].owner then HasType(args[i], types[i]) else !args[i].Own?
  }

  function ArgsHeld(args: seq<Value>, k: nat): nat
  {
    if args == [] then 0 else ArgsHeld(args[..|args| - 1], k) + Held(args[|args| - 1], k)
  }

  /** Globals own nothing. */
  predicate Ownless(env: seq<Cell>)
  {
    forall i | 0 <= i < |env| :: env[i].flag == NoFlag && !env[i].value.Own?
  }

  lemma {:induction false} BoundParams(params: seq<Param>, types: seq<OwnType>, args: seq<Value>, st: State, strict: bool, k: nat)
    requires |params| == |types| == |args| && ArgsFit(params, types, args) && Ownless(st.env)
    ensures var c, st1 := ParamInfos(params, types), BindParams(params, args, st);
      && Tracks(c, st1.env, |st.env|) && Depths(c, 0) && |c| == |params|
      && PendOk(ParamPending(params, |st.env|), c, 0, |st.env|, strict)
      && LiveHeld(st1.env, k) == ArgsHeld(args, k)
      && st1 == st.(env := st1.env)
  {
    hide Tracks, PendOk, Depths;
    var base := |st.env|;
    if params == [] {
      NoParams(st.env, strict, k);
    } else {
      var n := |params| - 1;
      BoundParams(params[..n], types[..n], args[..n], st, strict, k);
      var c, st1 := ParamInfos(params[..n], types[..n]), BindParams(params[..n], args[..n], st);
      var info := Info(params[n].name, if params[n].owner then Some(types[n]) else None, false, 0);
      var cell := Cell(params[n].name, args[n], if params[n].owner then Live else NoFlag);
      TracksDeclared(c, info, cell, st1.env, base);
      PendOkDeclared(ParamPending(params[..n], base), c, info, 0, base, strict);
      DepthsDeclared(c, info, 0);
      LiveHeldAppend(st1.env, cell, k);
      var q := Pending(base + n + 1, Drop(info.name));
      assert ParamPending(params, base) ==
        if info.ty.Some? then ParamPending(params[..n], base) + [q] else ParamPending(params[..n], base);
    }
  }

  lemma {:induction false} NoParams(env: seq<Cell>, strict: bool, k: nat)
    requires Ownless(env)
    ensures Tracks([], env, |env|) && Depths([], 0) && PendOk([], [], 0, |env|, strict) && LiveHeld(env, k) == 0
  {
    LiveHeldNone(env, k);
  }

  // ----- the theorem -----

  /** What became of resource k during a call that took st to st1 and ended in o. */
  predicate Settled(st: State, args: seq<Value>, o: Outcome, st1: State, k: nat)
  {
    if o.Timeout? then
      // cut off: what is not yet settled is still held by exactly the live bindings
      Balance(st1, k) == Released(st.trace, k) + ArgsHeld(args, k) + Created(st.nextId, st1.nextId, k)
    else
      && Ownless(st1.env)
      && Released(st1.trace, k) + OutHeld(o, k) == Released(st.trace, k) + ArgsHeld(args, k) + Created(st.nextId, st1.nextId, k)
  }

  /** For every accepted function of the fragment, every argument list, every environment and any
      amount of fuel: each resource passed in or created by the call is destroyed, given to a
      callee, or returned, once and only once; and (`strict`) no moved binding is ever read. */
  lemma {:induction false} CallsSettleOwnership(f: Function, types: seq<OwnType>, args: seq<Value>, st: State, fuel: nat, strict: bool, k: nat)
    requires Accepts(f, types) && |args| == |f.params| && ArgsFit(f.params, types, args)
    requires TidyAll(f.body, strict) && Ownless(st.env)
    ensures var (o, st1) := RunFunction(f, args, st, fuel);
      && Settled(st, args, o, st1, k)
      && (strict ==> st1.fault == st.fault)
  {
    hide CheckStmts, ExecStmts, Tracks, PendOk, Depths, TidyAll, Balance, ParamInfos, BindParams, ParamPending, ExitScope, Shape, MovedMore,
         OuterFlagsKept, Extends;
    var base := |st.env|;
    var c, st0 := ParamInfos(f.params, types), BindParams(f.params, args, st);
    BoundParams(f.params, types, args, st, strict, k);
    var pend := ParamPending(f.params, base);
    var cc := StmtsOwns(f.body, c, 0, 0, 0, base, st0, pend, fuel, strict, k);
    var r := ExecStmts(f.body, st0, pend, fuel);
    EntryBalance(st, st0, args, k);
    if !r.out.Timeout? {
      ExitOwns(r.pend, cc, 0, base, r.st, strict, k);
      assert cc[..0] == [];
      NothingOwned(ExitScope(r.pend, base, r.st), base, k);
    }
  }

  lemma {:induction false} EntryBalance(st: State, st0: State, args: seq<Value>, k: nat)
    requires LiveHeld(st0.env, k) == ArgsHeld(args, k) && st0 == st.(env := st0.env)
    ensures Balance(st0, k) == Released(st.trace, k) + ArgsHeld(args, k)
  {
  }

  lemma {:induction false} NothingOwned(st: State, base: nat, k: nat)
    requires Shape([], st.env, base)
    ensures Ownless(st.env) && Balance(st, k) == Released(st.trace, k)
  {
    LiveHeldNone(st.env, k);
  }

  /** The same for the C code the generator emits, when the function is also lowerable: each resource
      is settled once, and (`strict`) the code reads no moved binding and no variable without a value. */
  lemma {:induction false} GeneratedCodeSettlesOwnership(f: Function, types: seq<OwnType>, args: seq<Value>, st: State, ids: Ids, fuel: nat, strict: bool, k: nat)
    requires Accepts(f, types) && |args| == |f.params| && ArgsFit(f.params, types, args)
    requires TidyAll(f.body, strict) && Ownless(st.env) && LowerableFunction(f)
    ensures var (o, t1) := CallLowered(f, args, st, ids, fuel);
      && Settled(st, args, o, t1, k)
      && (strict && !st.fault ==> !t1.fault)
  {
    hide RunFunction, CallLowered, LowerableFunction, TidyAll, Accepts;
    CallsSettleOwnership(f, types, args, st, fuel, strict, k);
    LoweringPreservesMeaning(f, args, st, ids, fuel);
    var (o, s1) := RunFunction(f, args, st, fuel);
    SettledSame(st, args, o, s1, CallLowered(f, args, st, ids, fuel).1, k);
  }

  lemma {:induction false} SettledSame(st: State, args: seq<Value>, o: Outcome, s1: State, t1: State, k: nat)
    requires Settled(st, args, o, s1, k) && Same(s1, t1)
    ensures Settled(st, args, o, t1, k)
  {
  }

  // ----- a move in a `while` condition -----

  /** while f(move r) { } */
  function Drain(f: Name, r: Name): Stmt { While(Call(f, Move(r)), Done) }

  /** The checker accepts it: the condition is checked before the loop depth rises. */
  lemma {:induction false} DrainAccepted(f: Name, r: Name, ty: OwnType)
    ensures Accepts(Function([Param(r, true)], true, Then(Drain(f, r), Done)), [ty])
  {
    var params := [Param(r, true)];
    assert ParamInfos(params[..0], [ty][..0]) == [];
    var c := ParamInfos(params, [ty]);
    assert c == [Info(r, Some(ty), false, 0)];
    assert Lookup(c, r) == 0;
    var c1 := [Info(r, Some(ty), true, 0)];
    assert c[0 := c[0].(moved := true)] == c1;
    assert CheckExpr(Call(f, Move(r)), c, 0) == Accepted(Typed(Copyable, c1));
    assert c1 + [] == c1;
    assert CheckStmts(Done, c1 + [], 1, 1) == Accepted(c1);
    assert CheckStmt(Drain(f, r), c, 0, 0).Accepted?;
  }

  /** How many leading replies keep the loop going. */
  function Rounds(replies: seq<Reply>): nat
  {
    if replies == [] || !Truthy(FromReply(replies[0])) then 0 else 1 + Rounds(replies[1..])
  }

  /** One evaluation of the condition: the resource goes to f, live or not. */
  lemma {:induction false} DrainRound(f: Name, r: Name, st: State)
    requires st.env != [] && st.env[|st.env| - 1].name == r && st.env[|st.env| - 1].flag != NoFlag
    ensures var n := |st.env| - 1; var (v, st1) := Eval(Call(f, Move(r)), st);
      && v == Got(if st.replies == [] then Num(0) else FromReply(st.replies[0]))
      && st1.trace == st.trace + [Called(f, st.env[n].value)]
      && st1.replies == (if st.replies == [] then [] else st.replies[1..])
      && st1.env == st.env[..n] + [st.env[n].(flag := Dead)]
  {
    var n := |st.env| - 1;
    assert Find(st.env, r) == n && FindFlag(st.env, r) == n;
  }

  lemma {:induction false} EmptyBody(st: State, fuel: nat)
    ensures ExecScope(Done, st, fuel) == (Normal, st)
  {
    assert st.env[..|st.env|] == st.env;
  }

  /** The loop hands its one resource to f once for every evaluation of the condition. */
  lemma {:induction false} DrainHandsOutPerRound(f: Name, r: Name, st: State, fuel: nat, k: nat)
    requires st.env != [] && st.env[|st.env| - 1].name == r && st.env[|st.env| - 1].flag != NoFlag
    requires fuel > Rounds(st.replies)
    ensures var n := |st.env| - 1; var (o, st1) := ExecWhile(Call(f, Move(r)), Done, st, fuel);
      && o == Normal
      && Released(st1.trace, k) == Released(st.trace, k) + (Rounds(st.replies) + 1) * Held(st.env[n].value, k)
      && st1.env == st.env[..n] + [st.env[n].(flag := Dead)]
    decreases fuel
  {
    hide Eval, Released, Held, ExecScope;
    var n := |st.env| - 1;
    DrainRound(f, r, st);
    var (v, st1) := Eval(Call(f, Move(r)), st);
    ReleasedAppend(st.trace, Called(f, st.env[n].value), k);
    if Truthy(v.v) {
      EmptyBody(st1, fuel - 1);
      DrainHandsOutPerRound(f, r, st1, fuel - 1, k);
      var m := Rounds(st1.replies);
      var h := Held(st.env[n].value, k);
      assert (m + 2) * h == (m + 1) * h + h;
    }
  }

  /** The call settles the ownership of a resource it was given exactly when the condition is
      evaluated once. */
  lemma {:induction false} DrainSettlesIff(f: Name, r: Name, ty: OwnType, v: Value, st: State, fuel: nat, k: nat)
    requires Ownless(st.env) && fuel > Rounds(st.replies) && Held(v, k) > 0
    ensures var fn := Function([Param(r, true)], true, Then(Drain(f, r), Done));
      var (o, st1) := RunFunction(fn, [v], st, fuel);
      Settled(st, [v], o, st1, k) <==> Rounds(st.replies) == 0
  {
    hide Eval, Released, ExecWhile, Held;
    var params, base := [Param(r, true)], |st.env|;
    var fn := Function(params, true, Then(Drain(f, r), Done));
    var st0 := DeclareCell(st, r, v, Live);
    assert BindParams(params[..0], [v][..0], st) == st;
    assert BindParams(params, [v], st) == st0;
    assert ParamPending(params[..0], base) == [];
    var q := Pending(base + 1, Drop(r));
    assert ParamPending(params, base) == [q];
    DrainHandsOutPerRound(f, r, st0, fuel, k);
    var (o, st1) := ExecWhile(Call(f, Move(r)), Done, st0, fuel);
    assert ExecStmts(fn.body, st0, [q], fuel) == RunResult(Normal, st1, [q]);
    assert st0.env[..base] == st.env;
    DrainExit(r, st.env, Cell(r, v, Dead), st1);
    WhileCreatesNothing(f, r, st0, fuel);
    assert ArgsHeld([v], k) == Held(v, k) by { assert [v][..0] == []; }
    var m, h := Rounds(st.replies), Held(v, k);
    assert (m + 1) * h == h <==> m == 0 by { Multiples(m, h); }
  }

  lemma {:induction false} Multiples(m: nat, h: nat)
    requires h > 0
    ensures (m + 1) * h == h <==> m == 0
  {
    assert (m + 1) * h == m * h + h;
    if m > 0 { assert m * h >= h by { assert (m - 1) * h >= 0; assert m * h == (m - 1) * h + h; } }
  }

  lemma {:induction false} DrainExit(r: Name, env: seq<Cell>, cell: Cell, st: State)
    requires st.env == env + [cell] && cell.name == r && cell.flag == Dead
    ensures ExitScope([Pending(|env| + 1, Drop(r))], |env|, st) == st.(env := env)
  {
    var q := Pending(|env| + 1, Drop(r));
    assert st.env[..|env| + 1] == st.env && st.env + st.env[|env| + 1..] == st.env;
    assert FindFlag(st.env, r) == |env|;
    assert PerformPending(q, st) == st;
    assert [q][..0] == [];
    assert PerformAll([q], st) == PerformAll([], st) == st;
    assert st.env[..|env|] == env;
  }

  lemma {:induction false} WhileCreatesNothing(f: Name, r: Name, st: State, fuel: nat)
    ensures ExecWhile(Call(f, Move(r)), Done, st, fuel).1.nextId == st.nextId
    decreases fuel
  {
    hide Eval;
    if fuel > 0 {
      HandOverCreatesNothing(f, r, st);
      var (v, st1) := Eval(Call(f, Move(r)), st);
      EmptyBody(st1, fuel - 1);
      WhileCreatesNothing(f, r, st1, fuel - 1);
    }
  }

  lemma {:induction false} HandOverCreatesNothing(f: Name, r: Name, st: State)
    ensures Eval(Call(f, Move(r)), st).0.Got? && Eval(Call(f, Move(r)), st).1.nextId == st.nextId
  {
    assert Eval(Move(r), st) == (Got(ReadCell(st, r)), ClearFlag(NoteRead(st, r), r));
  }

  // ----- a deferred read of a binding that is moved later -----

  /** defer g(r); if b { f(move r); } */
  function LateRead(g: Name, f: Name, r: Name, b: bool): Stmts
  {
    Then(Defer(Call(g, Borrow(r))),
    Then(If(BoolLit(b), Then(ExprStmt(Call(f, Move(r))), Done), NoElse), Done))
  }

  /** The checker accepts it: a deferred expression is checked where it is registered. */
  lemma {:induction false} LateReadAccepted(g: Name, f: Name, r: Name, b: bool, ty: OwnType)
    ensures Accepts(Function([Param(r, true)], true, LateRead(g, f, r, b)), [ty])
  {
    hide Merge;
    var params := [Param(r, true)];
    assert ParamInfos(params[..0], [ty][..0]) == [];
    var c := ParamInfos(params, [ty]);
    assert c == [Info(r, Some(ty), false, 0)];
    assert Lookup(c, r) == 0;
    assert CheckExpr(Call(g, Borrow(r)), c, 0) == Accepted(Typed(Copyable, c));
    assert !HasTry(Call(g, Borrow(r)));
    assert CheckStmt(Defer(Call(g, Borrow(r))), c, 0, 0) == Accepted(c);
    var c1 := [Info(r, Some(ty), true, 0)];
    assert c[0 := c[0].(moved := true)] == c1;
    assert CheckExpr(Call(f, Move(r)), c, 0) == Accepted(Typed(Copyable, c1));
    assert c + [] == c;
    var thn := Then(ExprStmt(Call(f, Move(r))), Done);
    assert CheckStmts(thn, c, 1, 0) == Accepted(c1);
    var branch := If(BoolLit(b), thn, NoElse);
    assert CheckExpr(BoolLit(b), c, 0) == Accepted(Typed(Copyable, c));
    assert CheckStmt(branch, c, 0, 0).Accepted?;
    assert CheckStmts(Then(branch, Done), c, 0, 0).Accepted?;
  }

  /** A moved resource is read after the move exactly when the branch that moves it is taken. */
  lemma {:induction false} LateReadFaultsIff(g: Name, f: Name, r: Name, b: bool, v: Value, st: State, fuel: nat)
    requires !st.fault
    ensures var fn := Function([Param(r, true)], true, LateRead(g, f, r, b));
      RunFunction(fn, [v], st, fuel).1.fault <==> b
  {
    hide Eval, ExitScope;
    var params, base := [Param(r, true)], |st.env|;
    var fn := Function(params, true, LateRead(g, f, r, b));
    var st0 := DeclareCell(st, r, v, Live);
    assert BindParams(params[..0], [v][..0], st) == st;
    assert BindParams(params, [v], st) == st0;
    assert ParamPending(params[..0], base) == [];
    var q, e := Pending(base + 1, Drop(r)), Pending(base + 1, Run(Call(g, Borrow(r))));
    assert ParamPending(params, base) == [q];
    assert [q] + [e] == [q, e];
    DrainRound(f, r, st0);
    CallKeepsFault(f, r, st0);
    var (w, st1) := Eval(Call(f, Move(r)), st0);
    var thn := Then(ExprStmt(Call(f, Move(r))), Done);
    assert ExecStmts(thn, st0, [], fuel) == RunResult(Normal, st1, []);
    NothingToExit(st1);
    assert ExecScope(thn, st0, fuel) == (Normal, st1);
    assert Eval(BoolLit(b), st0) == (Got(FromBool(b)), st0) by { LiteralEval(b, st0); }
    var st2 := if b then st1 else st0;
    assert ExecStmt(If(BoolLit(b), thn, NoElse), st0, [q, e], fuel) == RunResult(Normal, st2, [q, e]) by {
      if b { assert Truthy(FromBool(b)); } else { assert ExecElse(NoElse, st0, [q, e], fuel) == RunResult(Normal, st0, [q, e]); }
    }
    var cond := Then(If(BoolLit(b), thn, NoElse), Done);
    assert ExecStmts(cond, st0, [q, e], fuel) == RunResult(Normal, st2, [q, e]);
    assert ExecStmts(fn.body, st0, [q], fuel) == RunResult(Normal, st2, [q, e]);
    assert st0.env[..base] == st.env;
    LateExit(g, r, st.env, Cell(r, v, if b then Dead else Live), st2);
  }

  lemma {:induction false} LiteralEval(b: bool, st: State)
    ensures Eval(BoolLit(b), st) == (Got(FromBool(b)), st)
  {
  }

  lemma {:induction false} NothingToExit(st: State)
    ensures ExitScope([], |st.env|, st) == st
  {
    assert st.env[..|st.env|] == st.env;
  }

  lemma {:induction false} CallKeepsFault(f: Name, r: Name, st: State)
    requires st.env != [] && st.env[|st.env| - 1].name == r && st.env[|st.env| - 1].flag == Live
    ensures Eval(Call(f, Move(r)), st).1.fault == st.fault
  {
    assert Find(st.env, r) == |st.env| - 1;
  }

  function CallResult(r: (Value, State)): (Evald, State) { (Got(r.0), r.1) }

  lemma {:induction false} LateExit(g: Name, r: Name, env: seq<Cell>, cell: Cell, st: State)
    requires st.env == env + [cell] && cell.name == r && cell.flag != NoFlag && !st.fault
    ensures ExitScope([Pending(|env| + 1, Drop(r)), Pending(|env| + 1, Run(Call(g, Borrow(r))))], |env|, st).fault <==> cell.flag == Dead
  {
    var q, e := Pending(|env| + 1, Drop(r)), Pending(|env| + 1, Run(Call(g, Borrow(r))));
    assert st.env[..|env| + 1] == st.env && st.env + st.env[|env| + 1..] == st.env;
    assert Find(st.env, r) == |env|;
    assert Eval(Borrow(r), st) == (Got(Num(TagOf(cell.value, 0))), NoteRead(st, r));
    assert Eval(Call(g, Borrow(r)), st) == CallResult(CallOut(g, Num(TagOf(cell.value, 0)), NoteRead(st, r)));
    var st1 := PerformPending(e, st);
    assert st1.env == st.env && (st1.fault <==> cell.flag == Dead);
    assert [q, e][..1] == [q] && [q][..0] == [];
    var st2 := PerformPending(q, st1);
    assert st2.fault == st1.fault;
    assert PerformAll([q, e], st) == PerformAll([q], st1) == PerformAll([], st2) == st2;
  }
}
