/** The induction over programs and runs behind exactly-once ownership. */
module OwnershipTheorem {
  import opened MortSyntax
  import opened MortSemantics
  import opened CleanupLowering
  import opened CleanupProof
  import opened ReturnFlow
  import opened MoveAnalysis
  import opened OwnershipFacts
  import opened OwnershipCleanup
  import opened CheckerFacts
  import opened OwnershipProof

  // ----- loops -----

  /** One round of a loop: everything declared outside it is as live as before. */
  lemma {:induction false} LoopRound(c: seq<Info>, c1: seq<Info>, d: nat, base: nat,
                                     st: State, o: Outcome, st1: State, strict: bool, k: nat)
    requires ScopeLeft(c, c1, d + 1, base, st, o, st1, strict, k) && Tracks(c, st.env, base) && Depths(c, d) && !o.Timeout?
    ensures Tracks(c, st1.env, base)
    ensures ScopeLeft(c, c, d, base, st, o, st1, strict, k)
    ensures o.Broke? || o.Continued? ==> ScopeLeft(c, c, d, base, st, Normal, st1, strict, k)
  {
    hide Accounts;
    if o.Broke? || o.Continued? { AccountsAs(st, o, Normal, st1, strict, k); }
  }

  lemma {:induction false} LeftLate(c: seq<Info>, c1: seq<Info>, d: nat, base: nat, st: State, st1: State, strict: bool, k: nat)
    requires ScopeLeft(c, c1, d + 1, base, st, Timeout, st1, strict, k)
    ensures ScopeLeft(c, c, d, base, st, Timeout, st1, strict, k)
  {
  }

  lemma {:induction false} OutOfFuel(c: seq<Info>, d: nat, base: nat, st: State, strict: bool, k: nat)
    ensures ScopeLeft(c, c, d, base, st, Timeout, st, strict, k)
  {
  }

  lemma {:induction false} WhileOwns(cond: Expr, body: Stmts, c: seq<Info>, d: nat, base: nat, st: State, fuel: nat, strict: bool, k: nat)
    requires CheckExpr(cond, c, d).Accepted? && CheckExpr(cond, c, d).value == Typed(Copyable, c)
    requires CheckStmts(body, c, |c|, d + 1).Accepted? && TidyAll(body, strict)
    requires Tracks(c, st.env, base) && Depths(c, d)
    ensures var (o, st1) := ExecWhile(cond, body, st, fuel);
      ScopeLeft(c, c, d, base, st, o, st1, strict, k)
    decreases fuel, body, 2
  {
    hide Tracks, Shape, MovedMore, OuterFlagsKept, Balance, Eval, CheckExpr, CheckStmts, ScopeLeft, ExecScope, Depths, TidyAll;
    MovedMoreRefl(c, d);
    if fuel == 0 {
      OutOfFuel(c, d, base, st, strict, k);
    } else {
      ExprAccounts(cond, c, d, base, st, strict, k);
      var (r, st1) := Eval(cond, st);
      if r.Got? && Truthy(r.v) {
        DepthsMore(c, d);
        ScopeOwns(body, c, |c|, d + 1, base, st1, fuel - 1, strict, k);
        var (o, st2) := ExecScope(body, st1, fuel - 1);
        var c1 := Keep(CheckStmts(body, c, |c|, d + 1).value, |c|);
        if o.Timeout? {
          LeftLate(c, c1, d, base, st1, st2, strict, k);
          LeftThen(c, c, c, d, base, st, st1, o, st2, strict, k);
        } else {
          LoopRound(c, c1, d, base, st1, o, st2, strict, k);
          LeftThen(c, c, c, d, base, st, st1, o, st2, strict, k);
          if o.Broke? || o.Continued? { LeftThen(c, c, c, d, base, st, st1, Normal, st2, strict, k); }
          if o.Normal? || o.Continued? {
            WhileOwns(cond, body, c, d, base, st2, fuel - 1, strict, k);
            var (p, st3) := ExecWhile(cond, body, st2, fuel - 1);
            LeftThen(c, c, c, d, base, st, st2, p, st3, strict, k);
          }
        }
      }
    }
  }

  lemma {:induction false} ForStepOwns(x: Name, last: int, inclusive: bool, c: seq<Info>, d: nat, base: nat, st: State, strict: bool, k: nat)
    requires Tracks(c, st.env, base) && IsPlain(c, x)
    ensures ScopeLeft(c, c, d, base, st, Normal, ForStep(x, last, inclusive, st).1, strict, k)
    ensures Tracks(c, ForStep(x, last, inclusive, st).1.env, base)
  {
    hide Shape, Balance, WriteCell, IsPlain;
    TracksIsShape(c, st.env, base);
    FlagsRefl(c, st.env, base, d);
    var at := AsInt(ReadCell(st, x));
    WritePlain(x, Num(at + 1), c, base, st, k);
    var st1 := WriteCell(st, x, Num(at + 1));
    ShapeLength(c, st1.env, base);
    WriteTracks(c, c, st.env, st.env, st1.env, base, d);
  }

  lemma {:induction false} CounterIsPlain(c: seq<Info>, x: Name)
    ensures IsPlain(c + [Info(x, None, false, 0)], x)
  {
  }

  lemma {:induction false} ForOwns(x: Name, last: int, inclusive: bool, more: bool, body: Stmts, c: seq<Info>, start: nat, d: nat, base: nat,
                                   st: State, fuel: nat, strict: bool, k: nat)
    requires IsPlain(c, x) && CheckStmts(body, c, start, d + 1).Accepted? && TidyAll(body, strict)
    requires Tracks(c, st.env, base) && Depths(c, d)
    ensures var (o, st1) := ExecFor(x, last, inclusive, more, body, st, fuel);
      ScopeLeft(c, c, d, base, st, o, st1, strict, k)
    decreases fuel, body, 2
  {
    hide Tracks, Shape, MovedMore, OuterFlagsKept, Balance, CheckStmts, ScopeLeft, ExecScope, Depths, TidyAll, ForStep, IsPlain;
    MovedMoreRefl(c, d);
    if fuel == 0 {
      OutOfFuel(c, d, base, st, strict, k);
    } else if !more {
      StillLeft(c, d, base, st, Normal, strict, k);
    } else {
      DepthsMore(c, d);
      ScopeOwns(body, c, start, d + 1, base, st, fuel - 1, strict, k);
      var (o, st1) := ExecScope(body, st, fuel - 1);
      var c1 := Keep(CheckStmts(body, c, start, d + 1).value, |c|);
      if o.Timeout? {
        LeftLate(c, c1, d, base, st, st1, strict, k);
      } else {
        LoopRound(c, c1, d, base, st, o, st1, strict, k);
        if o.Normal? || o.Continued? {
          ForStepOwns(x, last, inclusive, c, d, base, st1, strict, k);
          var (again, st2) := ForStep(x, last, inclusive, st1);
          LeftThen(c, c, c, d, base, st, st1, Normal, st2, strict, k);
          ForOwns(x, last, inclusive, again, body, c, start, d, base, st2, fuel - 1, strict, k);
          var (p, st3) := ExecFor(x, last, inclusive, again, body, st2, fuel - 1);
          LeftThen(c, c, c, d, base, st, st2, p, st3, strict, k);
        }
      }
    }
  }

  // ----- scopes and lists -----

  lemma {:induction false} ScopeOwns(body: Stmts, c: seq<Info>, start: nat, d: nat, base: nat, st: State, fuel: nat, strict: bool, k: nat)
    requires CheckStmts(body, c, start, d).Accepted? && TidyAll(body, strict)
    requires Tracks(c, st.env, base) && Depths(c, d)
    ensures var (o, st1) := ExecScope(body, st, fuel);
      ScopeLeft(c, Keep(CheckStmts(body, c, start, d).value, |c|), d, base, st, o, st1, strict, k)
    decreases fuel, body, 1
  {
    hide Tracks, Shape, MovedMore, OuterFlagsKept, Balance, CheckStmts, ExecStmts, ExitScope, Depths, TidyAll, Extends, PendOk, Ready;
    EmptyReady(c, d, base, st, strict);
    var cc := StmtsOwns(body, c, start, |c|, d, base, st, [], fuel, strict, k);
    CheckStmtsGrow(body, c, start, d);
    var r := ExecStmts(body, st, [], fuel);
    if !r.out.Timeout? {
      assert c + [] == c;
      AccountsRefl(st, strict, k);
      ScopeExit(c, [], CheckStmts(body, c, start, d).value, cc, d, base, st, st.env, st, r, strict, k);
    }
  }

  lemma {:induction false} StmtsOwns(ss: Stmts, c: seq<Info>, start: nat, from: nat, d: nat, base: nat,
                                     st: State, pend: seq<Pending>, fuel: nat, strict: bool, k: nat) returns (cc: seq<Info>)
    requires CheckStmts(ss, c, start, d).Accepted? && TidyAll(ss, strict) && Ready(c, from, d, base, st, pend, strict)
    ensures StmtsLeft(c, CheckStmts(ss, c, start, d).value, cc, from, d, base, st, ExecStmts(ss, st, pend, fuel), strict, k)
    decreases fuel, ss, 0
  {
    hide Tracks, Shape, MovedMore, OuterFlagsKept, Balance, CheckStmt, ExecStmt, Depths, Tidy, Extends, PendOk, Accounts;
    match ss
    case Done =>
      cc := c;
      NothingLeft(c, from, d, base, st, pend, strict, k);
    case Then(s, rest) =>
      var r := ExecStmt(s, st, pend, fuel);
      cc := HeadOwns(s, c, start, from, d, base, st, pend, fuel, strict, k);
      var c1 := CheckStmt(s, c, start, d).value;
      if r.out.Normal? {
        StillReady(c, c1, from, d, base, st, r, strict, k);
        cc := StmtsOwns(rest, c1, start, from, d, base, r.st, r.pend, fuel, strict, k);
        StmtsThen(c, c1, CheckStmts(rest, c1, start, d).value, cc, from, d, base, st, r,
                  ExecStmts(rest, r.st, r.pend, fuel), strict, k);
      }
  }

  lemma {:induction false} HeadOwns(s: Stmt, c: seq<Info>, start: nat, from: nat, d: nat, base: nat,
                                    st: State, pend: seq<Pending>, fuel: nat, strict: bool, k: nat) returns (cc: seq<Info>)
    requires CheckStmt(s, c, start, d).Accepted? && Tidy(s, strict) && Ready(c, from, d, base, st, pend, strict)
    ensures var r := ExecStmt(s, st, pend, fuel);
      && StmtsLeft(c, CheckStmt(s, c, start, d).value, cc, from, d, base, st, r, strict, k)
      && Depths(CheckStmt(s, c, start, d).value, d)
    decreases fuel, s, 2
  {
    hide Tracks, Shape, MovedMore, OuterFlagsKept, Balance, CheckStmt, ExecStmt, Depths, Tidy, PendOk, Extends, Accounts;
    CheckStmtGrows(s, c, start, d);
    var c1 := CheckStmt(s, c, start, d).value;
    if s.Let? {
      LetDepths(s, c, start, d);
      cc := LetOwns(s.x, s.init, s.owner, c, start, from, d, base, st, pend, fuel, strict, k);
    } else {
      MovedMoreDepths(c, c1, d, d);
      if s.Defer? {
        DeferOwns(s.e, c, start, from, d, base, st, pend, fuel, strict, k);
        DeferKeeps(s.e, c, start, d, st, pend, fuel, strict);
        cc := c;
      } else {
        StmtOwns(s, c, start, d, base, st, pend, fuel, strict, k);
        var r := ExecStmt(s, st, pend, fuel);
        cc := if r.out.Normal? then c1 else c;
        FromScopeLeft(c, c1, from, d, base, st, r, strict, k);
      }
    }
  }

  lemma {:induction false} DeferKeeps(e: Expr, c: seq<Info>, start: nat, d: nat, st: State, pend: seq<Pending>, fuel: nat, strict: bool)
    requires CheckStmt(Defer(e), c, start, d).Accepted? && Tidy(Defer(e), strict)
    ensures CheckStmt(Defer(e), c, start, d).value == c
  {
    CheckedIsQuiet(e, c, d);
  }

  lemma {:induction false} LetDepths(s: Stmt, c: seq<Info>, start: nat, d: nat)
    requires s.Let? && CheckStmt(s, c, start, d).Accepted? && Depths(c, d)
    ensures Depths(CheckStmt(s, c, start, d).value, d)
  {
    hide CheckExpr;
    CheckMovesMore(s.init, c, d);
    MovedMoreDepths(c, CheckExpr(s.init, c, d).value.ctx, d, d);
  }

  // ----- branches -----

  lemma {:induction false} ElseOwns(els: Else, c: seq<Info>, start: nat, d: nat, base: nat,
                                    st: State, pend: seq<Pending>, fuel: nat, strict: bool, k: nat)
    requires CheckElse(els, c, start, d).Accepted? && TidyElse(els, strict)
    requires Tracks(c, st.env, base) && Depths(c, d)
    ensures var r := ExecElse(els, st, pend, fuel);
      r.pend == pend && ScopeLeft(c, CheckElse(els, c, start, d).value, d, base, st, r.out, r.st, strict, k)
    decreases fuel, els, 0
  {
    hide Tracks, Shape, MovedMore, OuterFlagsKept, Balance, CheckStmt, ExecStmt, ExecScope, CheckStmts, ScopeLeft, Depths, Tidy, TidyAll;
    match els
    case NoElse => StillLeft(c, d, base, st, Normal, strict, k);
    case ElseBlock(body) =>
      assert c + [] == c;
      ScopeOwns(body, c, |c|, d, base, st, fuel, strict, k);
    case ElseIf(chained) => StmtOwns(chained, c, start, d, base, st, pend, fuel, strict, k);
  }

  /** After an `if`, the joined state is safe for whichever branch fell through. */
  lemma {:induction false} JoinOwns(before: seq<Info>, a: seq<Info>, aReturns: bool, b: seq<Info>, bReturns: bool,
                                    viaThen: bool, d: nat, base: nat, st: State, o: Outcome, st1: State, strict: bool, k: nat)
    requires MovedMore(before, a, d) && MovedMore(before, b, d)
    requires ScopeLeft(before, if viaThen then a else b, d, base, st, o, st1, strict, k)
    requires o.Normal? ==> !(if viaThen then aReturns else bReturns)
    ensures ScopeLeft(before, Join(before, a, aReturns, b, bReturns), d, base, st, o, st1, strict, k)
  {
    hide MovedMore, ScopeLeft;
    MergeMovesMore(before, a, b, d);
    MovedMoreRefl(a, 0);
    MovedMoreRefl(b, 0);
    LeftWeaken(before, if viaThen then a else b, Join(before, a, aReturns, b, bReturns), d, base, st, o, st1, strict, k);
  }

  lemma {:induction false} IfOwns(cond: Expr, thn: Stmts, els: Else, c: seq<Info>, start: nat, d: nat, base: nat,
                                  st: State, pend: seq<Pending>, fuel: nat, strict: bool, k: nat)
    requires CheckStmt(If(cond, thn, els), c, start, d).Accepted? && Tidy(If(cond, thn, els), strict)
    requires Tracks(c, st.env, base) && Depths(c, d)
    ensures var s := If(cond, thn, els); var r := ExecStmt(s, st, pend, fuel);
      r.pend == pend && ScopeLeft(c, CheckStmt(s, c, start, d).value, d, base, st, r.out, r.st, strict, k)
    decreases fuel, If(cond, thn, els), 0
  {
    hide Tracks, Shape, MovedMore, OuterFlagsKept, Balance, Eval, CheckExpr, CheckStmts, ScopeLeft, ExecStmts, ExecElse, ExitScope,
         Depths, TidyAll, TidyElse, AlwaysReturns, ElseReturns, CheckElse, Join;
    ExprAccounts(cond, c, d, base, st, strict, k);
    var t := CheckExpr(cond, c, d).value;
    var (r, st1) := Eval(cond, st);
    var a, b := CheckScope(thn, t.ctx, [], d).value, CheckElse(els, t.ctx, start, d).value;
    var j := Join(t.ctx, a, AlwaysReturns(thn), b, ElseReturns(els));
    CheckScopeGrows(thn, t.ctx, [], d);
    CheckElseGrows(els, t.ctx, start, d);
    MovedMoreDepths(c, t.ctx, d, d);
    if r.Failed? {
      FailedLeft(c, t.ctx, j, d, base, st, Failure(r.n), st1, strict, k);
    } else {
      if Truthy(r.v) {
        assert t.ctx + [] == t.ctx;
        ScopeOwns(thn, t.ctx, |t.ctx|, d, base, st1, fuel, strict, k);
        AcceptedCovered(thn, t.ctx, |t.ctx|, d);
        FlowSound(thn, st1, [], fuel);
        var (o, st2) := ExecScope(thn, st1, fuel);
        JoinOwns(t.ctx, a, AlwaysReturns(thn), b, ElseReturns(els), true, d, base, st1, o, st2, strict, k);
        LeftThen(c, t.ctx, j, d, base, st, st1, o, st2, strict, k);
      } else {
        ElseOwns(els, t.ctx, start, d, base, st1, pend, fuel, strict, k);
        AcceptedElseCovered(els, t.ctx, start, d);
        FlowSoundElse(els, st1, pend, fuel);
        var e := ExecElse(els, st1, pend, fuel);
        JoinOwns(t.ctx, a, AlwaysReturns(thn), b, ElseReturns(els), false, d, base, st1, e.out, e.st, strict, k);
        LeftThen(c, t.ctx, j, d, base, st, st1, e.out, e.st, strict, k);
      }
    }
  }

  lemma {:induction false} FailedLeft(c: seq<Info>, c1: seq<Info>, c2: seq<Info>, d: nat, base: nat, st: State, o: Outcome, st1: State, strict: bool, k: nat)
    requires ScopeLeft(c, c1, d, base, st, o, st1, strict, k) && !o.Normal?
    ensures ScopeLeft(c, c2, d, base, st, o, st1, strict, k)
  {
  }

  // ----- loops as statements -----

  lemma {:induction false} WhileStmtOwns(cond: Expr, body: Stmts, c: seq<Info>, start: nat, d: nat, base: nat,
                                         st: State, pend: seq<Pending>, fuel: nat, strict: bool, k: nat)
    requires CheckStmt(While(cond, body), c, start, d).Accepted? && Tidy(While(cond, body), strict)
    requires Tracks(c, st.env, base) && Depths(c, d)
    ensures var s := While(cond, body); var r := ExecStmt(s, st, pend, fuel);
      r.pend == pend && ScopeLeft(c, CheckStmt(s, c, start, d).value, d, base, st, r.out, r.st, strict, k)
    decreases fuel, While(cond, body), 0
  {
    hide Tracks, Shape, MovedMore, OuterFlagsKept, Balance, CheckExpr, CheckStmts, ScopeLeft, ExecWhile, Depths, TidyAll;
    CheckedIsQuiet(cond, c, d);
    assert CheckExpr(cond, c, d).value == Typed(Copyable, c);
    assert c + [] == c;
    CheckScopeGrows(body, c, [], d + 1);
    LoopMovesNothing(c, CheckScope(body, c, [], d + 1).value, d);
    WhileOwns(cond, body, c, d, base, st, fuel, strict, k);
  }

  lemma {:induction false} CounterDeclared(x: Name, n: int, c: seq<Info>, d: nat, base: nat, st: State, strict: bool, k: nat)
    requires Tracks(c, st.env, base) && Depths(c, d)
    ensures var c0, st1 := c + [Info(x, None, false, 0)], DeclareCell(st, x, Num(n), NoFlag);
      Tracks(c0, st1.env, base) && Depths(c0, d) && Accounts(st, Normal, st1, strict, k)
  {
    var cell := Cell(x, Num(n), NoFlag);
    TracksDeclared(c, Info(x, None, false, 0), cell, st.env, base);
    LiveHeldAppend(st.env, cell, k);
  }

  /** The loop's counter goes out of scope; it held no resource. */
  lemma {:induction false} CounterGone(x: Name, n: int, c: seq<Info>, d: nat, base: nat, st: State, o: Outcome, st2: State, strict: bool, k: nat)
    requires Tracks(c, st.env, base) && Accounts(st, Normal, DeclareCell(st, x, Num(n), NoFlag), strict, k)
    requires var c0 := c + [Info(x, None, false, 0)];
      ScopeLeft(c0, c0, d, base, DeclareCell(st, x, Num(n), NoFlag), o, st2, strict, k)
    ensures ScopeLeft(c, c, d, base, st, o, if o.Timeout? then st2 else Truncate(st2, |st.env|), strict, k)
  {
    hide Tracks, Shape, OuterFlagsKept, Accounts;
    var c0, st1 := c + [Info(x, None, false, 0)], DeclareCell(st, x, Num(n), NoFlag);
    AccountsThen(st, st1, o, st2, strict, k);
    if !o.Timeout? {
      TracksIsShape(c, st.env, base);
      ShapeLength(c0, st2.env, base);
      var env := st2.env[..|st.env|];
      assert c0[..|c|] == c;
      ShapePrefix(c0, st2.env, base, |c|);
      ShapeLast(c0, st2.env, base, k);
      SameBalance(st, o, st2, st2.(env := env), strict, k);
      ScopeFlags(c, [Info(x, None, false, 0)], st.env, st1.env, st2.env, env, base, d);
      if o.Normal? { TracksPrefix(c0, st2.env, env, base, |c|); }
    }
  }

  lemma {:induction false} SameBalance(st: State, o: Outcome, st2: State, st3: State, strict: bool, k: nat)
    requires Accounts(st, o, st2, strict, k) && LiveHeld(st3.env, k) == LiveHeld(st2.env, k) && st3 == st2.(env := st3.env)
    ensures Accounts(st, o, st3, strict, k)
  {
  }

  lemma {:induction false} ForStmtOwns(x: Name, lo: Expr, hi: Expr, inclusive: bool, body: Stmts, c: seq<Info>, start: nat, d: nat, base: nat,
                                       st: State, pend: seq<Pending>, fuel: nat, strict: bool, k: nat)
    requires CheckStmt(For(x, lo, hi, inclusive, body), c, start, d).Accepted? && Tidy(For(x, lo, hi, inclusive, body), strict)
    requires Tracks(c, st.env, base) && Depths(c, d)
    ensures var s := For(x, lo, hi, inclusive, body); var r := ExecStmt(s, st, pend, fuel);
      r.pend == pend && ScopeLeft(c, CheckStmt(s, c, start, d).value, d, base, st, r.out, r.st, strict, k)
    decreases fuel, For(x, lo, hi, inclusive, body), 0
  {
    hide Tracks, Shape, MovedMore, OuterFlagsKept, Balance, Eval, CheckExpr, CheckStmts, ScopeLeft, ExecFor, Depths, TidyAll,
         DeclareCell, Truncate, IsPlain, Accounts;
    ExprAccounts(lo, c, d, base, st, strict, k);
    var t := CheckExpr(lo, c, d).value;
    var (a, st1) := Eval(lo, st);
    var u := CheckExpr(hi, t.ctx, d).value;
    var own := [Info(x, None, false, 0)];
    var c1 := CheckScope(body, u.ctx, own, d + 1).value;
    if a.Failed? {
      FailedLeft(c, t.ctx, c1, d, base, st, Failure(a.n), st1, strict, k);
    } else {
      ExprAccounts(hi, t.ctx, d, base, st1, strict, k);
      var (b, st2) := Eval(hi, st1);
      MovedMoreTrans(c, t.ctx, u.ctx, d);
      MovedMoreDepths(c, u.ctx, d, d);
      CheckScopeGrows(body, u.ctx, own, d + 1);
      LoopMovesNothing(u.ctx, c1, d);
      if b.Failed? {
        LeftThen(c, t.ctx, u.ctx, d, base, st, st1, Failure(b.n), st2, strict, k);
        FailedLeft(c, u.ctx, c1, d, base, st, Failure(b.n), st2, strict, k);
      } else {
        LeftThen(c, t.ctx, u.ctx, d, base, st, st1, Normal, st2, strict, k);
        var first, last := AsInt(a.v), AsInt(b.v);
        CounterDeclared(x, first, u.ctx, d, base, st2, strict, k);
        CounterIsPlain(u.ctx, x);
        var c0, st3 := u.ctx + own, DeclareCell(st2, x, Num(first), NoFlag);
        var more := ForStarts(first, last, inclusive);
        ForOwns(x, last, inclusive, more, body, c0, |u.ctx|, d, base, st3, fuel, strict, k);
        var (o, st4) := ExecFor(x, last, inclusive, more, body, st3, fuel);
        CounterGone(x, first, u.ctx, d, base, st2, o, st4, strict, k);
        LeftThen(c, u.ctx, u.ctx, d, base, st, st2, o, if o.Timeout? then st4 else Truncate(st4, |st2.env|), strict, k);
      }
    }
  }

  // ----- match -----

  /** A value taken out of a binding, on its way to an arm. */
  predicate Carried(s0: State, st: State, v: Value, k: nat)
  {
    && s0.nextId <= st.nextId && st.fault == s0.fault
    && Balance(st, k) + Held(v, k) == Balance(s0, k) + Created(s0.nextId, st.nextId, k)
  }

  lemma {:induction false} BinderOwns(b: Option<Binder>, pattern: Option<nat>, variants: nat, subject: Ty, v: Value, c: seq<Info>, d: nat, base: nat,
                                      s0: State, st: State, strict: bool, k: nat)
    requires ArmFits(subject, variants, pattern, b) && ValueFits(subject, v)
    requires pattern.None? || TagOf(v, variants) == pattern.value
    requires Tracks(c, st.env, base) && Depths(c, d) && Carried(s0, st, v, k)
    ensures var st1 := DeclareBinder(b, v, st);
      && Accounts(s0, Normal, st1, strict, k)
      && Ready(c + BinderInfo(b, d), |c|, d, base, st1, BinderPending(b, |st1.env|), strict)
      && |st1.env| >= |st.env| && st1.env[..|st.env|] == st.env
  {
    hide MovedMore, Tracks, Balance, PendOk, Depths;
    if b.None? {
      assert c + [] == c;
      EmptyReady(c, d, base, st, strict);
      NoPayload(pattern, variants, subject, v, st, k);
    } else {
      var info := Info(b.value.name, if b.value.owner then Some(ResourceStruct) else None, false, d);
      var cell := Cell(b.value.name, Payload(v), if b.value.owner then Live else NoFlag);
      PayloadFits(info, cell, b, pattern, variants, subject, v, k);
      TracksDeclared(c, info, cell, st.env, base);
      TracksIsShape(c, st.env, base);
      CellDeclared(st, cell, k);
      NoPending(c, base, strict);
      PendOkDeclared([], c, info, |c|, base, strict);
      DepthsDeclared(c, info, d);
      var q := Pending(base + |c| + 1, Drop(info.name));
      assert [] + [q] == [q];
      assert DeclareBinder(b, v, st) == st.(env := st.env + [cell]);
      assert BinderPending(b, base + |c| + 1) == if info.ty.Some? then [] + [q] else [];
    }
  }

  lemma {:induction false} NoPayload(pattern: Option<nat>, variants: nat, subject: Ty, v: Value, st: State, k: nat)
    requires ArmFits(subject, variants, pattern, None) && ValueFits(subject, v)
    requires pattern.None? || TagOf(v, variants) == pattern.value
    ensures Held(v, k) == 0
  {
  }

  lemma {:induction false} PayloadFits(info: Info, cell: Cell, b: Option<Binder>, pattern: Option<nat>, variants: nat, subject: Ty, v: Value, k: nat)
    requires b.Some? && ArmFits(subject, variants, pattern, b) && ValueFits(subject, v)
    requires info.name == cell.name && info.ty == if b.value.owner then Some(ResourceStruct) else None
    requires cell == Cell(b.value.name, Payload(v), if b.value.owner then Live else NoFlag)
    ensures CellFits(info, cell) && CellHeld(cell, k) == Held(v, k)
  {
  }

  lemma {:induction false} CellDeclared(st: State, cell: Cell, k: nat)
    ensures Balance(st.(env := st.env + [cell]), k) == Balance(st, k) + CellHeld(cell, k)
  {
    LiveHeldAppend(st.env, cell, k);
  }

  lemma {:induction false} NoPending(c: seq<Info>, base: nat, strict: bool)
    ensures PendOk([], c, |c|, base, strict)
  {
  }

  lemma {:induction false} DepthsDeclared(c: seq<Info>, info: Info, d: nat)
    requires Depths(c, d) && info.depth <= d
    ensures Depths(c + [info], d)
  {
  }

  lemma {:induction false} ArmOwns(binder: Option<Binder>, body: Stmts, pattern: Option<nat>, variants: nat, subject: Ty, v: Value,
                                   c: seq<Info>, d: nat, base: nat, s0: State, st: State, fuel: nat, strict: bool, k: nat)
    requires ArmFits(subject, variants, pattern, binder) && ValueFits(subject, v)
    requires pattern.None? || TagOf(v, variants) == pattern.value
    requires CheckScope(body, c, BinderInfo(binder, d), d).Accepted? && TidyAll(body, strict)
    requires Tracks(c, st.env, base) && Depths(c, d) && Carried(s0, st, v, k)
    ensures var st1 := DeclareBinder(binder, v, st); var r := ExecStmts(body, st1, BinderPending(binder, |st1.env|), fuel);
      var st2 := if r.out.Timeout? then r.st else ExitScope(r.pend, |st.env|, r.st);
      && Accounts(s0, r.out, st2, strict, k)
      && ScopeFrame(c, CheckScope(body, c, BinderInfo(binder, d), d).value, d, base, st.env, r.out, st2)
      && (r.out.Normal? ==> !AlwaysReturns(body))
    decreases fuel, body, 1
  {
    hide Tracks, Shape, MovedMore, OuterFlagsKept, Balance, CheckStmts, ExecStmts, ExitScope, Depths, TidyAll, Extends, PendOk, Ready,
         DeclareBinder, BinderPending, BinderInfo, AlwaysReturns, ArmFits, Carried;
    BinderOwns(binder, pattern, variants, subject, v, c, d, base, s0, st, strict, k);
    var own, st1 := BinderInfo(binder, d), DeclareBinder(binder, v, st);
    var pend := BinderPending(binder, |st1.env|);
    var cc := StmtsOwns(body, c + own, |c|, |c|, d, base, st1, pend, fuel, strict, k);
    CheckStmtsGrow(body, c + own, |c|, d);
    var r := ExecStmts(body, st1, pend, fuel);
    AcceptedCovered(body, c + own, |c|, d);
    FlowSound(body, st1, pend, fuel);
    if r.out.Timeout? {
      AccountsThen(s0, st1, r.out, r.st, strict, k);
    } else {
      ScopeExit(c, own, CheckStmts(body, c + own, |c|, d).value, cc, d, base, s0, st.env, st1, r, strict, k);
    }
  }

  lemma {:induction false} FrameWeaken(c: seq<Info>, c1: seq<Info>, c2: seq<Info>, d: nat, base: nat, env: seq<Cell>, o: Outcome, st1: State)
    requires ScopeFrame(c, c1, d, base, env, o, st1) && (o.Normal? ==> MovedMore(c1, c2, 0))
    ensures ScopeFrame(c, c2, d, base, env, o, st1)
  {
    if o.Normal? { TracksMoved(c1, c2, st1.env, base, 0); }
  }

  function AfterArms(r: Option<seq<Info>>, c: seq<Info>): seq<Info>
  {
    if r.Some? then r.value else c
  }

  lemma {:induction false} ArmsOwns(arms: Arms, variants: nat, subject: Ty, v: Value, c: seq<Info>, d: nat, base: nat,
                                    s0: State, st: State, fuel: nat, strict: bool, k: nat)
    requires CheckArms(arms, variants, subject, c, d).Accepted? && TidyArms(arms, strict) && ValueFits(subject, v)
    requires subject.Owns? ==> TagOf(v, variants) >= 0 && TagOf(v, variants) in Patterns(arms)
    requires Tracks(c, st.env, base) && Depths(c, d) && Carried(s0, st, v, k)
    ensures var (o, st1) := ExecArms(arms, variants, v, st, fuel);
      && Accounts(s0, o, st1, strict, k)
      && ScopeFrame(c, AfterArms(CheckArms(arms, variants, subject, c, d).value, c), d, base, st.env, o, st1)
    decreases fuel, arms, 0
  {
    hide Tracks, Shape, MovedMore, OuterFlagsKept, Balance, CheckStmts, ExecStmts, ExitScope, Depths, TidyAll,
         DeclareBinder, BinderPending, BinderInfo, AlwaysReturns, ArmFits, Accounts, ScopeFrame;
    match arms
    case NoArms => NothingCarried(c, d, base, s0, st, v, subject, strict, k);
    case Arm(pattern, binder, body, rest) =>
      var own := BinderInfo(binder, d);
      var a := CheckScope(body, c, own, d).value;
      var b := CheckArms(rest, variants, subject, c, d).value;
      CheckScopeGrows(body, c, own, d);
      CheckArmsGrow(rest, variants, subject, c, d);
      if b.Some? { MergeMovesMore(c, a, b.value, d); }
      MovedMoreRefl(a, 0);
      MovedMoreWeaken(c, a, d, 0);
      var after := AfterArms(CheckArms(arms, variants, subject, c, d).value, c);
      var (o, st1) := ExecArms(arms, variants, v, st, fuel);
      if pattern.None? || TagOf(v, variants) == pattern.value {
        ArmOwns(binder, body, pattern, variants, subject, v, c, d, base, s0, st, fuel, strict, k);
        FrameWeaken(c, a, after, d, base, st.env, o, st1);
      } else {
        ArmsOwns(rest, variants, subject, v, c, d, base, s0, st, fuel, strict, k);
        MovedMoreRefl(AfterArms(b, c), 0);
        FrameWeaken(c, AfterArms(b, c), after, d, base, st.env, o, st1);
      }
  }

  lemma {:induction false} NothingCarried(c: seq<Info>, d: nat, base: nat, s0: State, st: State, v: Value, subject: Ty, strict: bool, k: nat)
    requires Carried(s0, st, v, k) && ValueFits(subject, v) && subject.Copyable? && Tracks(c, st.env, base)
    ensures Accounts(s0, Normal, st, strict, k) && ScopeFrame(c, c, d, base, st.env, Normal, st)
  {
  }

  /** The tag of an owning subject is one of the variants the arms must name. */
  lemma {:induction false} SubjectCovered(s: Stmt, ty: Ty, v: Value, c: seq<Info>, d: nat)
    requires s.Match? && SubjectFits(s.subject, ty, s.variants) && ValueFits(ty, v) && ty.Owns? && Covered(s.variants, s.arms)
    requires CheckArms(s.arms, s.variants, ty, c, d).Accepted?
    ensures TagOf(v, s.variants) >= 0 && TagOf(v, s.variants) in Patterns(s.arms)
  {
    NoWildcards(s.arms, s.variants, ty, c, d);
  }

  lemma {:induction false} NoWildcards(arms: Arms, variants: nat, ty: Ty, c: seq<Info>, d: nat)
    requires CheckArms(arms, variants, ty, c, d).Accepted? && ty.Owns?
    ensures !HasWildcard(arms)
  {
    hide CheckScope;
    match arms
    case NoArms =>
    case Arm(_, _, _, rest) => NoWildcards(rest, variants, ty, c, d);
  }

  lemma {:induction false} MatchOwns(s: Stmt, c: seq<Info>, start: nat, d: nat, base: nat,
                                     st: State, pend: seq<Pending>, fuel: nat, strict: bool, k: nat)
    requires s.Match? && CheckStmt(s, c, start, d).Accepted? && Tidy(s, strict)
    requires Tracks(c, st.env, base) && Depths(c, d)
    ensures var r := ExecStmt(s, st, pend, fuel);
      r.pend == pend && ScopeLeft(c, CheckStmt(s, c, start, d).value, d, base, st, r.out, r.st, strict, k)
    decreases fuel, s, 0
  {
    hide Tracks, Shape, MovedMore, OuterFlagsKept, Balance, Eval, CheckExpr, CheckArms, ExecArms, Depths, TidyArms, SubjectFits,
         Covered, Patterns, CheckStmt, Accounts;
    CheckMatchParts(s, c, start, d);
    ExprAccounts(s.subject, c, d, base, st, strict, k);
    var t := CheckExpr(s.subject, c, d).value;
    var (r, st1) := Eval(s.subject, st);
    var a := CheckArms(s.arms, s.variants, t.ty, t.ctx, d).value;
    if r.Got? {
      if t.ty.Owns? { SubjectCovered(s, t.ty, r.v, t.ctx, d); }
      MovedMoreDepths(c, t.ctx, d, d);
      ArmsOwns(s.arms, s.variants, t.ty, r.v, t.ctx, d, base, st, st1, fuel, strict, k);
      var (o, st2) := ExecArms(s.arms, s.variants, r.v, st1, fuel);
      if !o.Timeout? {
        OuterFlagsTrans(c, t.ctx, st.env, st1.env, st2.env, base, d);
        ShapeBack(c, t.ctx, st2.env, base, d);
      }
    }
  }

  // ----- every statement -----

  /** Every accepted statement keeps the ledger and what the checker knows, however it ends. */
  lemma {:induction false} StmtOwns(s: Stmt, c: seq<Info>, start: nat, d: nat, base: nat,
                                    st: State, pend: seq<Pending>, fuel: nat, strict: bool, k: nat)
    requires !s.Let? && !s.Defer?
    requires CheckStmt(s, c, start, d).Accepted? && Tidy(s, strict)
    requires Tracks(c, st.env, base) && Depths(c, d)
    ensures var r := ExecStmt(s, st, pend, fuel);
      r.pend == pend && ScopeLeft(c, CheckStmt(s, c, start, d).value, d, base, st, r.out, r.st, strict, k)
    decreases fuel, s, 1
  {
    hide Tracks, Shape, MovedMore, OuterFlagsKept, Balance, CheckStmts, ScopeLeft, ExecScope, Depths, TidyAll, Eval, CheckExpr;
    match s
    case Assign(x, e) => AssignOwns(x, e, c, start, d, base, st, pend, fuel, strict, k);
    case ExprStmt(e) =>
      ExprAccounts(e, c, d, base, st, strict, k);
      var (r, st1) := Eval(e, st);
      assert ExecStmt(s, st, pend, fuel) == RunResult(if r.Failed? then Failure(r.n) else Normal, st1, pend);
    case Return(None) => StillLeft(c, d, base, st, Returned(None), strict, k);
    case Return(Some(e)) => ReturnOwns(e, c, start, d, base, st, pend, fuel, strict, k);
    case If(cond, thn, els) => IfOwns(cond, thn, els, c, start, d, base, st, pend, fuel, strict, k);
    case While(cond, body) => WhileStmtOwns(cond, body, c, start, d, base, st, pend, fuel, strict, k);
    case For(x, lo, hi, inclusive, body) => ForStmtOwns(x, lo, hi, inclusive, body, c, start, d, base, st, pend, fuel, strict, k);
    case Block(body) =>
      assert c + [] == c;
      ScopeOwns(body, c, |c|, d, base, st, fuel, strict, k);
    case Break => StillLeft(c, d, base, st, Broke, strict, k);
    case Continue => StillLeft(c, d, base, st, Continued, strict, k);
    case Match(subject, variants, arms) => MatchOwns(s, c, start, d, base, st, pend, fuel, strict, k);
  }
}
