/** Exactly-once ownership: in every run of an accepted program, at every point, each resource ever
    created is held by exactly one live binding, or has been given away or destroyed exactly once. */
module OwnershipProof {
  import opened MortSyntax
  import opened MortSemantics
  import opened CleanupLowering
  import opened CleanupProof
  import opened ReturnFlow
  import opened MoveAnalysis
  import opened OwnershipFacts
  import opened OwnershipCleanup
  import opened CheckerFacts

  // ----- what every step keeps -----

  function OutHeld(o: Outcome, k: nat): nat
  {
    if o.Returned? && o.result.Some? then Held(o.result.value, k) else 0
  }

  /** The ledger of a run so far: nothing lost, nothing counted twice; with `strict`, no moved
      binding was read. */
  predicate Accounts(st: State, o: Outcome, st1: State, strict: bool, k: nat)
  {
    && st.nextId <= st1.nextId
    && Balance(st1, k) + OutHeld(o, k) == Balance(st, k) + Created(st.nextId, st1.nextId, k)
    && (strict ==> st1.fault == st.fault)
  }

  /** The checker's state c fits the machine before a statement of the current scope, whose own
      bindings start at index `from`. */
  predicate Ready(c: seq<Info>, from: nat, d: nat, base: nat, st: State, pend: seq<Pending>, strict: bool)
  {
    && from <= |c| && Depths(c, d)
    && Tracks(c, st.env, base) && PendOk(pend, c, from, base, strict)
  }

  /** After a statement that opens no binding in the current scope. */
  predicate ScopeLeft(c: seq<Info>, c1: seq<Info>, d: nat, base: nat, st: State, o: Outcome, st1: State, strict: bool, k: nat)
  {
    Accounts(st, o, st1, strict, k) && ScopeFrame(c, c1, d, base, st.env, o, st1)
  }

  predicate ScopeFrame(c: seq<Info>, c1: seq<Info>, d: nat, base: nat, env: seq<Cell>, o: Outcome, st1: State)
  {
    && (!o.Timeout? ==> Shape(c, st1.env, base) && OuterFlagsKept(c, env, st1.env, base, d))
    && (o.Normal? ==> Tracks(c1, st1.env, base))
  }

  /** After a statement list that may have opened bindings: cc is the checker's view where it stopped. */
  predicate StmtsLeft(c: seq<Info>, c1: seq<Info>, cc: seq<Info>, from: nat, d: nat, base: nat,
                      st: State, r: Run, strict: bool, k: nat)
  {
    && Accounts(st, r.out, r.st, strict, k)
    && (!r.out.Timeout? ==>
         && from <= |c| && Extends(c, cc, d) && Shape(cc, r.st.env, base)
         && PendOk(r.pend, cc, from, base, strict)
         && OuterFlagsKept(c, st.env, r.st.env, base, d))
    && (r.out.Normal? ==> cc == c1 && Tracks(c1, r.st.env, base))
  }

  // ----- composing steps -----

  lemma {:induction false} AccountsThen(st: State, st1: State, o: Outcome, st2: State, strict: bool, k: nat)
    requires Accounts(st, Normal, st1, strict, k) && Accounts(st1, o, st2, strict, k)
    ensures Accounts(st, o, st2, strict, k)
  {
  }

  lemma {:induction false} AccountsAs(st: State, o: Outcome, p: Outcome, st1: State, strict: bool, k: nat)
    requires Accounts(st, o, st1, strict, k) && OutHeld(o, k) == OutHeld(p, k)
    ensures Accounts(st, p, st1, strict, k)
  {
  }

  lemma {:induction false} PendOkMoved(pend: seq<Pending>, c: seq<Info>, c1: seq<Info>, from: nat, base: nat, strict: bool, d: nat)
    requires PendOk(pend, c, from, base, strict) && MovedMore(c, c1, d)
    ensures PendOk(pend, c1, from, base, strict)
  {
    OwnerPendingMoved(c, c1, from, base, d);
    forall i | 0 <= i < |pend| ensures DeferOk(pend[i], c1, base, strict) {
      var q := pend[i];
      assert DeferOk(q, c, base, strict);
      var n := q.depth - base;
      PrefixMovesMore(c, c1, n, d);
      if q.act.Run? { QuietMoved(q.act.e, c[..n], c1[..n], d); }
      if q.act.Drop? { assert c1[n - 1] == c[n - 1].(moved := c1[n - 1].moved); }
    }
  }

  lemma {:induction false} OwnerPendingMoved(c: seq<Info>, c1: seq<Info>, from: nat, base: nat, d: nat)
    requires MovedMore(c, c1, d)
    ensures OwnerPending(c, from, base) == OwnerPending(c1, from, base)
  {
    if |c| > from {
      var n := |c| - 1;
      PrefixMovesMore(c, c1, n, d);
      OwnerPendingMoved(c[..n], c1[..n], from, base, d);
      assert c1[n] == c[n].(moved := c1[n].moved);
    }
  }

  lemma {:induction false} DropsAppend(pend: seq<Pending>, q: Pending)
    ensures DropsOf(pend + [q]) == DropsOf(pend) + if q.act.Drop? then [q] else []
  {
    assert (pend + [q])[..|pend|] == pend;
  }

  /** Registered cleanup stays well formed when a binding is added. */
  lemma {:induction false} DeferOkGrown(q: Pending, c: seq<Info>, info: Info, base: nat, strict: bool)
    requires DeferOk(q, c, base, strict)
    ensures DeferOk(q, c + [info], base, strict)
  {
    assert (c + [info])[..q.depth - base] == c[..q.depth - base];
  }

  /** Opening a binding: an owning one registers its own drop. */
  lemma {:induction false} PendOkDeclared(pend: seq<Pending>, c: seq<Info>, info: Info, from: nat, base: nat, strict: bool)
    requires PendOk(pend, c, from, base, strict) && from <= |c|
    ensures PendOk(if info.ty.Some? then pend + [Pending(base + |c| + 1, Drop(info.name))] else pend, c + [info], from, base, strict)
  {
    var c1 := c + [info];
    var q := Pending(base + |c| + 1, Drop(info.name));
    assert c1[..|c|] == c;
    forall i | 0 <= i < |pend| ensures DeferOk(pend[i], c1, base, strict) {
      DeferOkGrown(pend[i], c, info, base, strict);
    }
    if info.ty.Some? {
      assert DeferOk(q, c1, base, strict);
      PendOkAppend(pend, q, c1, from, base, strict);
    }
  }

  lemma {:induction false} PendOkAppend(pend: seq<Pending>, q: Pending, c: seq<Info>, from: nat, base: nat, strict: bool)
    requires (forall i | 0 <= i < |pend| :: DeferOk(pend[i], c, base, strict)) && DeferOk(q, c, base, strict)
    requires DropsOf(pend) + (if q.act.Drop? then [q] else []) == OwnerPending(c, from, base)
    ensures PendOk(pend + [q], c, from, base, strict)
  {
    hide DeferOk, OwnerPending;
    DropsAppend(pend, q);
  }

  lemma {:induction false} TracksDeclared(c: seq<Info>, info: Info, cell: Cell, env: seq<Cell>, base: nat)
    requires Tracks(c, env, base) && CellFits(info, cell) && (info.ty.Some? ==> cell.flag == Live)
    ensures Tracks(c + [info], env + [cell], base)
  {
    forall i | 0 <= i < |c + [info]| ensures CellFits((c + [info])[i], (env + [cell])[base + i]) {
      if i < |c| { assert CellFits(c[i], env[base + i]); }
    }
  }

  // ----- single statements -----

  lemma {:induction false} ExprAccounts(e: Expr, c: seq<Info>, d: nat, base: nat, st: State, strict: bool, k: nat)
    requires CheckExpr(e, c, d).Accepted? && Tracks(c, st.env, base)
    ensures var t := CheckExpr(e, c, d).value; var (r, st1) := Eval(e, st);
      && MovedMore(c, t.ctx, d) && Tracks(t.ctx, st1.env, base) && Shape(c, st1.env, base)
      && OuterFlagsKept(c, st.env, st1.env, base, d)
      && (r.Failed? ==> ScopeLeft(c, t.ctx, d, base, st, Failure(r.n), st1, strict, k))
      && (r.Got? ==> ValueFits(t.ty, r.v))
      && (r.Got? && t.ty.Copyable? ==> ScopeLeft(c, t.ctx, d, base, st, Normal, st1, strict, k))
      && st.nextId <= st1.nextId && st1.fault == st.fault
      && Balance(st1, k) + HeldBy(r, k) == Balance(st, k) + Created(st.nextId, st1.nextId, k)
  {
    hide Tracks, Shape, MovedMore, OuterFlagsKept, Balance, Eval, CheckExpr, Created;
    EvalOwns(e, c, d, base, st, k);
    var t := CheckExpr(e, c, d).value;
    var (r, st1) := Eval(e, st);
    TracksIsShape(t.ctx, st1.env, base);
    ShapeBack(c, t.ctx, st1.env, base, d);
  }

  lemma {:induction false} TracksIsShape(c: seq<Info>, env: seq<Cell>, base: nat)
    requires Tracks(c, env, base)
    ensures Shape(c, env, base) && |env| == base + |c|
  {
  }

  lemma {:induction false} ShapeBack(c: seq<Info>, c1: seq<Info>, env: seq<Cell>, base: nat, d: nat)
    requires MovedMore(c, c1, d) && Shape(c1, env, base)
    ensures Shape(c, env, base)
  {
    forall i | 0 <= i < |c| ensures CellFits(c[i], env[base + i]) {
      assert c1[i] == c[i].(moved := c1[i].moved) && CellFits(c1[i], env[base + i]);
    }
  }

  lemma {:induction false} FlagsRefl(c: seq<Info>, env: seq<Cell>, base: nat, d: nat)
    requires Shape(c, env, base)
    ensures OuterFlagsKept(c, env, env, base, d)
  {
  }

  /** A first part that ends normally, then the rest of the statement. */
  lemma {:induction false} LeftThen(c: seq<Info>, c1: seq<Info>, c2: seq<Info>, d: nat, base: nat,
                                    st: State, st1: State, o: Outcome, st2: State, strict: bool, k: nat)
    requires ScopeLeft(c, c1, d, base, st, Normal, st1, strict, k) && MovedMore(c, c1, d)
    requires ScopeLeft(c1, c2, d, base, st1, o, st2, strict, k)
    ensures ScopeLeft(c, c2, d, base, st, o, st2, strict, k)
  {
    hide Accounts, Tracks, Shape, MovedMore, OuterFlagsKept;
    AccountsThen(st, st1, o, st2, strict, k);
    if !o.Timeout? {
      OuterFlagsTrans(c, c1, st.env, st1.env, st2.env, base, d);
      ShapeBack(c, c1, st2.env, base, d);
    }
  }

  /** A weaker view of the state afterwards: more bindings taken for moved. */
  lemma {:induction false} LeftWeaken(c: seq<Info>, c1: seq<Info>, c2: seq<Info>, d: nat, base: nat,
                                      st: State, o: Outcome, st1: State, strict: bool, k: nat)
    requires ScopeLeft(c, c1, d, base, st, o, st1, strict, k) && (o.Normal? ==> MovedMore(c1, c2, 0))
    ensures ScopeLeft(c, c2, d, base, st, o, st1, strict, k)
  {
    if o.Normal? { TracksMoved(c1, c2, st1.env, base, 0); }
  }

  lemma {:induction false} StillLeft(c: seq<Info>, d: nat, base: nat, st: State, o: Outcome, strict: bool, k: nat)
    requires Tracks(c, st.env, base) && OutHeld(o, k) == 0
    ensures ScopeLeft(c, c, d, base, st, o, st, strict, k)
  {
  }

  lemma {:induction false} AssignOwns(x: Name, e: Expr, c: seq<Info>, start: nat, d: nat, base: nat,
                                      st: State, pend: seq<Pending>, fuel: nat, strict: bool, k: nat)
    requires CheckStmt(Assign(x, e), c, start, d).Accepted? && Tracks(c, st.env, base)
    ensures var r := ExecStmt(Assign(x, e), st, pend, fuel);
      ScopeLeft(c, CheckStmt(Assign(x, e), c, start, d).value, d, base, st, r.out, r.st, strict, k)
  {
    hide Tracks, Shape, MovedMore, OuterFlagsKept, Balance, Eval, CheckExpr, WriteCell, IsPlain;
    ExprAccounts(e, c, d, base, st, strict, k);
    var t := CheckExpr(e, c, d).value;
    var (r, st1) := Eval(e, st);
    if r.Got? {
      LookupMoved(c, t.ctx, d, x);
      TracksIsShape(t.ctx, st1.env, base);
      WritePlain(x, r.v, t.ctx, base, st1, k);
      var st2 := WriteCell(st1, x, r.v);
      ShapeBack(c, t.ctx, st2.env, base, d);
      WriteTracks(c, t.ctx, st.env, st1.env, st2.env, base, d);
    }
  }

  /** A write that leaves every flag alone. */
  lemma {:induction false} WriteTracks(c: seq<Info>, c1: seq<Info>, a: seq<Cell>, b: seq<Cell>, b1: seq<Cell>, base: nat, d: nat)
    requires Tracks(c1, b, base) && Shape(c1, b1, base) && |c| == |c1| && OuterFlagsKept(c, a, b, base, d)
    requires |b1| == |b| && forall n | 0 <= n < |b| :: b1[n].flag == b[n].flag
    ensures Tracks(c1, b1, base) && OuterFlagsKept(c, a, b1, base, d)
  {
  }

  lemma {:induction false} ReturnOwns(e: Expr, c: seq<Info>, start: nat, d: nat, base: nat,
                                      st: State, pend: seq<Pending>, fuel: nat, strict: bool, k: nat)
    requires CheckStmt(Return(Some(e)), c, start, d).Accepted? && Tracks(c, st.env, base)
    ensures var r := ExecStmt(Return(Some(e)), st, pend, fuel);
      ScopeLeft(c, CheckStmt(Return(Some(e)), c, start, d).value, d, base, st, r.out, r.st, strict, k)
  {
    hide Tracks, Shape, MovedMore, OuterFlagsKept, Balance, Eval, CheckExpr;
    ExprAccounts(e, c, d, base, st, strict, k);
    var (r, st1) := Eval(e, st);
    assert ExecStmt(Return(Some(e)), st, pend, fuel) ==
      RunResult(if r.Failed? then Failure(r.n) else Returned(Some(r.v)), st1, pend);
  }

  lemma {:induction false} LetOwns(x: Name, e: Expr, owner: bool, c: seq<Info>, start: nat, from: nat, d: nat, base: nat,
                                   st: State, pend: seq<Pending>, fuel: nat, strict: bool, k: nat)
    returns (cc: seq<Info>)
    requires CheckStmt(Let(x, e, owner), c, start, d).Accepted? && Ready(c, from, d, base, st, pend, strict)
    ensures StmtsLeft(c, CheckStmt(Let(x, e, owner), c, start, d).value, cc, from, d, base, st,
      ExecStmt(Let(x, e, owner), st, pend, fuel), strict, k)
  {
    hide Tracks, Shape, MovedMore, OuterFlagsKept, Eval, CheckExpr, PendOk, Fresh, LiveHeld, Released;
    ExprAccounts(e, c, d, base, st, strict, k);
    var t := CheckExpr(e, c, d).value;
    var (r, st1) := Eval(e, st);
    if r.Failed? {
      cc := c;
      MovedMoreRefl(c, d);
      ExtendsSame(c, c, d);
    } else {
      var info := Info(x, OwnedType(t.ty), false, d);
      cc := t.ctx + [info];
      LetGrows(c, t, x, d);
      PendOkMoved(pend, c, t.ctx, from, base, strict, d);
      SameLength(c, t.ctx, d);
      PendOkDeclared(pend, t.ctx, info, from, base, strict);
      var cell := Cell(x, r.v, if owner then Live else NoFlag);
      TracksIsShape(t.ctx, st1.env, base);
      TracksDeclared(t.ctx, info, cell, st1.env, base);
      TracksIsShape(cc, st1.env + [cell], base);
      FlagsGrown(c, st.env, st1.env, cell, base, d);
      LiveHeldAppend(st1.env, cell, k);
    }
  }

  lemma {:induction false} SameLength(c: seq<Info>, c1: seq<Info>, d: nat)
    requires MovedMore(c, c1, d)
    ensures |c| == |c1|
  {
  }

  lemma {:induction false} FlagsGrown(c: seq<Info>, a: seq<Cell>, b: seq<Cell>, cell: Cell, base: nat, d: nat)
    requires OuterFlagsKept(c, a, b, base, d)
    ensures OuterFlagsKept(c, a, b + [cell], base, d)
  {
  }

  lemma {:induction false} DeferOwns(e: Expr, c: seq<Info>, start: nat, from: nat, d: nat, base: nat,
                                     st: State, pend: seq<Pending>, fuel: nat, strict: bool, k: nat)
    requires CheckStmt(Defer(e), c, start, d).Accepted? && Tidy(Defer(e), strict) && Ready(c, from, d, base, st, pend, strict)
    ensures StmtsLeft(c, CheckStmt(Defer(e), c, start, d).value, c, from, d, base, st,
      ExecStmt(Defer(e), st, pend, fuel), strict, k)
  {
    hide Tracks, Shape, MovedMore, OuterFlagsKept, Balance, Quiet, PendOk, Extends;
    CheckedIsQuiet(e, c, d);
    TracksIsShape(c, st.env, base);
    FlagsRefl(c, st.env, base, d);
    MovedMoreRefl(c, d);
    ExtendsSame(c, c, d);
    DeferPending(e, c, from, base, pend, strict);
  }

  lemma {:induction false} DeferPending(e: Expr, c: seq<Info>, from: nat, base: nat, pend: seq<Pending>, strict: bool)
    requires PendOk(pend, c, from, base, strict) && !e.New? && Quiet(e, c) && (strict ==> NoBorrow(e))
    ensures PendOk(pend + [Pending(base + |c|, Run(e))], c, from, base, strict)
  {
    hide Quiet, NoBorrow;
    var q := Pending(base + |c|, Run(e));
    assert c[..|c|] == c;
    assert DeferOk(q, c, base, strict);
    assert DropsOf(pend) + [] == DropsOf(pend);
    PendOkAppend(pend, q, c, from, base, strict);
  }

  // ----- nested scopes -----

  /** A scope that opened with its own bindings (a match binder, a loop counter) in place; `s0` is
      where the ledger was last read. */
  lemma {:induction false} ScopeExit(c: seq<Info>, own: seq<Info>, c1: seq<Info>, cc: seq<Info>, d: nat, base: nat,
                                     s0: State, env: seq<Cell>, st: State, r: Run, strict: bool, k: nat)
    requires StmtsLeft(c + own, c1, cc, |c|, d, base, st, r, strict, k) && !r.out.Timeout?
    requires Tracks(c, env, base) && Extends(c + own, c1, d)
    requires Accounts(s0, Normal, st, strict, k) && |st.env| >= |env| && st.env[..|env|] == env
    ensures var st1 := ExitScope(r.pend, |env|, r.st);
      Accounts(s0, r.out, st1, strict, k) && ScopeFrame(c, Keep(c1, |c|), d, base, env, r.out, st1)
  {
    hide Tracks, Shape, MovedMore, OuterFlagsKept, Balance, ExitScope, PendOk;
    TracksIsShape(c, env, base);
    var st2 := ExitScope(r.pend, base + |c|, r.st);
    ExitOwns(r.pend, cc, |c|, base, r.st, strict, k);
    AccountsThen(s0, st, r.out, r.st, strict, k);
    var all := c + own;
    PrefixMovesMore(all, cc[..|all|], |c|, d);
    assert all[..|c|] == c && cc[..|all|][..|c|] == cc[..|c|];
    ShapeBack(c, cc[..|c|], st2.env, base, d);
    ShapeLength(c, st2.env, base);
    ScopeFlags(c, own, env, st.env, r.st.env, st2.env, base, d);
    if r.out.Normal? {
      TracksPrefix(c1, r.st.env, st2.env, base, |c|);
    }
  }

  lemma {:induction false} ScopeFlags(c: seq<Info>, own: seq<Info>, a: seq<Cell>, a0: seq<Cell>, b: seq<Cell>, b1: seq<Cell>, base: nat, d: nat)
    requires OuterFlagsKept(c + own, a0, b, base, d) && |a| == base + |c| <= |a0| && a0[..|a|] == a
    requires |b1| == base + |c| && forall i | 0 <= i < |b1| :: b1[i].flag == b[i].flag
    ensures OuterFlagsKept(c, a, b1, base, d)
  {
    forall i | 0 <= i < |c| && c[i].depth < d ensures b1[base + i].flag == a[base + i].flag {
      assert (c + own)[i] == c[i];
      assert a0[..|a|][base + i] == a0[base + i];
    }
  }

  lemma {:induction false} TracksPrefix(c: seq<Info>, b: seq<Cell>, b1: seq<Cell>, base: nat, n: nat)
    requires Tracks(c, b, base) && n <= |c| && Shape(c[..n], b1, base)
    requires forall i | 0 <= i < base + n :: b1[i].flag == b[i].flag
    ensures Tracks(c[..n], b1, base)
  {
    forall i | 0 <= i < n && c[..n][i].ty.Some? && !c[..n][i].moved ensures b1[base + i].flag == Live {
      assert c[i] == c[..n][i];
    }
  }

  lemma {:induction false} AccountsRefl(st: State, strict: bool, k: nat)
    ensures Accounts(st, Normal, st, strict, k)
  {
  }

  lemma {:induction false} EmptyReady(c: seq<Info>, d: nat, base: nat, st: State, strict: bool)
    requires Tracks(c, st.env, base) && Depths(c, d)
    ensures Ready(c, |c|, d, base, st, [], strict)
  {
  }

  lemma {:induction false} DepthsMore(c: seq<Info>, d: nat)
    requires Depths(c, d)
    ensures Depths(c, d + 1)
  {
  }

  // ----- statement lists -----

  lemma {:induction false} FromScopeLeft(c: seq<Info>, c1: seq<Info>, from: nat, d: nat, base: nat,
                                         st: State, r: Run, strict: bool, k: nat)
    requires ScopeLeft(c, c1, d, base, st, r.out, r.st, strict, k) && MovedMore(c, c1, d)
    requires Ready(c, from, d, base, st, r.pend, strict)
    ensures StmtsLeft(c, c1, if r.out.Normal? then c1 else c, from, d, base, st, r, strict, k)
  {
    hide Tracks, Shape, MovedMore, OuterFlagsKept, PendOk, Accounts, Extends;
    ExtendsSame(c, c1, d);
    MovedMoreRefl(c, d);
    ExtendsSame(c, c, d);
    if r.out.Normal? {
      TracksIsShape(c1, r.st.env, base);
      PendOkMoved(r.pend, c, c1, from, base, strict, d);
    }
  }

  lemma {:induction false} NothingLeft(c: seq<Info>, from: nat, d: nat, base: nat, st: State, pend: seq<Pending>, strict: bool, k: nat)
    requires Ready(c, from, d, base, st, pend, strict)
    ensures StmtsLeft(c, c, c, from, d, base, st, RunResult(Normal, st, pend), strict, k)
  {
    hide PendOk, Balance;
    MovedMoreRefl(c, d);
    ExtendsSame(c, c, d);
  }

  /** The rest of a list starts ready again. */
  lemma {:induction false} StillReady(c: seq<Info>, c1: seq<Info>, from: nat, d: nat, base: nat, st: State, r: Run, strict: bool, k: nat)
    requires StmtsLeft(c, c1, c1, from, d, base, st, r, strict, k) && r.out.Normal? && Depths(c1, d)
    ensures Ready(c1, from, d, base, r.st, r.pend, strict)
  {
  }

  lemma {:induction false} StmtsThen(c: seq<Info>, c1: seq<Info>, c2: seq<Info>, cc: seq<Info>, from: nat, d: nat, base: nat,
                                     st: State, r: Run, r2: Run, strict: bool, k: nat)
    requires StmtsLeft(c, c1, c1, from, d, base, st, r, strict, k) && r.out.Normal?
    requires StmtsLeft(c1, c2, cc, from, d, base, r.st, r2, strict, k)
    ensures StmtsLeft(c, c2, cc, from, d, base, st, r2, strict, k)
  {
    hide Tracks, Shape, OuterFlagsKept, PendOk, Accounts, MovedMore;
    AccountsThen(st, r.st, r2.out, r2.st, strict, k);
    if !r2.out.Timeout? {
      ExtendsTrans(c, c1, cc, d);
      FlagsOfPrefix(c1, |c|, r.st.env, r2.st.env, base, d);
      OuterFlagsTrans(c, c1[..|c|], st.env, r.st.env, r2.st.env, base, d);
    }
  }

  lemma {:induction false} FlagsOfPrefix(c: seq<Info>, n: nat, a: seq<Cell>, b: seq<Cell>, base: nat, d: nat)
    requires OuterFlagsKept(c, a, b, base, d) && n <= |c|
    ensures OuterFlagsKept(c[..n], a, b, base, d)
  {
  }
}
