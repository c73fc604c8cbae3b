/** The checker's move analysis as it runs: bindings whose moved flags change in place, a stack of
    scopes, a loop depth, and snapshots taken, restored and merged around branches. */
module MoveChecker {
  import opened MortSyntax
  import opened CleanupLowering
  import opened CleanupProof
  import opened ReturnFlow
  import opened MoveAnalysis
  import opened OwnershipFacts
  import opened CheckerFacts
  import MoveRules

  /** The moved flags of the bindings in scope. */
  function Flags(c: seq<Info>): (flags: seq<bool>)
    ensures |flags| == |c| && forall i | 0 <= i < |c| :: flags[i] == c[i].moved
  {
    seq(|c|, i requires 0 <= i < |c| => c[i].moved)
  }

  /** The bindings c with other moved flags. */
  predicate WithFlags(c: seq<Info>, flags: seq<bool>, c1: seq<Info>)
  {
    |c| == |flags| == |c1| && forall i | 0 <= i < |c| :: c1[i] == c[i].(moved := flags[i])
  }

  /** Restoring the flags of an earlier state restores that state: branches change nothing else. */
  lemma {:induction false} RestoredIs(before: seq<Info>, after: seq<Info>, c1: seq<Info>, d: nat)
    requires MovedMore(before, after, d) && WithFlags(after, Flags(before), c1)
    ensures c1 == before
  {
    forall i | 0 <= i < |before| ensures c1[i] == before[i] {
      assert after[i] == before[i].(moved := after[i].moved);
    }
  }

  lemma {:induction false} MergedIs(before: seq<Info>, a: seq<Info>, b: seq<Info>, flags: seq<bool>, c1: seq<Info>, d: nat)
    requires MovedMore(before, a, d) && MovedMore(before, b, d) && WithFlags(before, flags, c1)
    requires |flags| == |before| && forall i | 0 <= i < |flags| :: flags[i] == (a[i].moved || b[i].moved)
    ensures c1 == Merge(a, b)
  {
    MergeIs(a, b);
    forall i | 0 <= i < |before| ensures c1[i] == Merge(a, b)[i] {
      assert a[i] == before[i].(moved := a[i].moved);
    }
  }

  /** What merging the snapshots of the branches that fall through yields. */
  lemma {:induction false} JoinedIs(before: seq<Info>, a: seq<Info>, aReturns: bool, b: seq<Info>, bReturns: bool,
                                    live: seq<seq<bool>>, c1: seq<Info>, d: nat)
    requires MovedMore(before, a, d) && MovedMore(before, b, d) && live != []
    requires live == (if aReturns then [] else [Flags(a)]) + (if bReturns then [] else [Flags(b)])
    requires |c1| == |before| && forall j | 0 <= j < |before| ::
      c1[j] == before[j].(moved := exists i | 0 <= i < |live| :: live[i][j])
    ensures c1 == Join(before, a, aReturns, b, bReturns)
  {
    if aReturns {
      assert live == [Flags(b)];
      RestoredFrom(before, b, c1, live, d);
    } else if bReturns {
      assert live == [Flags(a)];
      RestoredFrom(before, a, c1, live, d);
    } else {
      assert live == [Flags(a), Flags(b)];
      forall j | 0 <= j < |before| ensures c1[j].moved == (a[j].moved || b[j].moved) {
        assert live[0][j] == a[j].moved && live[1][j] == b[j].moved;
      }
      MergedIs(before, a, b, Flags(c1), c1, d);
    }
  }

  lemma {:induction false} RestoredFrom(before: seq<Info>, a: seq<Info>, c1: seq<Info>, live: seq<seq<bool>>, d: nat)
    requires MovedMore(before, a, d) && live == [Flags(a)] && |c1| == |before|
    requires forall j | 0 <= j < |before| :: c1[j] == before[j].(moved := exists i | 0 <= i < |live| :: live[i][j])
    ensures c1 == a
  {
    forall j | 0 <= j < |before| ensures c1[j] == a[j] {
      assert live[0][j] == a[j].moved;
      assert a[j] == before[j].(moved := a[j].moved);
    }
  }

  // ----- merging any number of arms -----

  /** The state after the arms seen so far, followed by that of the arms still to come. */
  function Fold(seen: seq<seq<Info>>, tail: Option<seq<Info>>): Option<seq<Info>>
  {
    if seen == [] then tail
    else
      var last := seen[|seen| - 1];
      Fold(seen[..|seen| - 1], Some(if tail.Some? then Merge(last, tail.value) else last))
  }

  predicate AllMovedMore(c: seq<Info>, seen: seq<seq<Info>>, d: nat)
  {
    forall i | 0 <= i < |seen| :: MovedMore(c, seen[i], d)
  }

  lemma {:induction false} FoldMoves(c: seq<Info>, seen: seq<seq<Info>>, tail: Option<seq<Info>>, d: nat)
    requires AllMovedMore(c, seen, d) && (tail.Some? ==> MovedMore(c, tail.value, d)) && (seen != [] || tail.Some?)
    ensures Fold(seen, tail).Some? && MovedMore(c, Fold(seen, tail).value, d)
  {
    hide MovedMore, Merge;
    if seen != [] {
      var n := |seen| - 1;
      if tail.Some? { MergeMovesMore(c, seen[n], tail.value, d); }
      FoldMoves(c, seen[..n], Some(if tail.Some? then Merge(seen[n], tail.value) else seen[n]), d);
    }
  }

  predicate MovedIn(seen: seq<seq<Info>>, j: nat)
  {
    exists i | 0 <= i < |seen| :: j < |seen[i]| && seen[i][j].moved
  }

  lemma {:induction false} MovedInLast(seen: seq<seq<Info>>, j: nat)
    requires seen != []
    ensures MovedIn(seen, j) <==>
      MovedIn(seen[..|seen| - 1], j) || (j < |seen[|seen| - 1]| && seen[|seen| - 1][j].moved)
  {
    var n := |seen| - 1;
    if MovedIn(seen, j) {
      var i :| 0 <= i < |seen| && j < |seen[i]| && seen[i][j].moved;
      if i < n { assert seen[..n][i] == seen[i]; }
    }
    if MovedIn(seen[..n], j) {
      var i :| 0 <= i < n && j < |seen[..n][i]| && seen[..n][i][j].moved;
      assert seen[..n][i] == seen[i];
    }
  }

  lemma {:induction false} FoldNone(tail: Option<seq<Info>>)
    ensures Fold([], tail) == tail
  {
  }

  lemma {:induction false} SameSize(c: seq<Info>, c1: seq<Info>, d: nat)
    requires MovedMore(c, c1, d)
    ensures |c1| == |c|
  {
  }

  lemma {:induction false} FoldFlag(c: seq<Info>, seen: seq<seq<Info>>, tail: Option<seq<Info>>, d: nat, j: nat)
    requires AllMovedMore(c, seen, d) && (tail.Some? ==> MovedMore(c, tail.value, d)) && (seen != [] || tail.Some?)
    requires j < |c| == |if tail.Some? then tail.value else c|
    ensures var r := Fold(seen, tail);
      r.Some? && |r.value| == |c| && (r.value[j].moved <==> (tail.Some? && tail.value[j].moved) || MovedIn(seen, j))
  {
    hide MovedMore, Merge, MovedIn;
    FoldMoves(c, seen, tail, d);
    SameSize(c, Fold(seen, tail).value, d);
    if seen == [] {
      NeverMoved(j);
      assert !MovedIn(seen, j);
      assert Fold(seen, tail) == tail;
    } else {
      var n := |seen| - 1;
      SameSize(c, seen[n], d);
      MovedInLast(seen, j);
      var next := if tail.Some? then Merge(seen[n], tail.value) else seen[n];
      if tail.Some? {
        MergeMovesMore(c, seen[n], tail.value, d);
        MergeIs(seen[n], tail.value);
      }
      assert next[j].moved <==> seen[n][j].moved || (tail.Some? && tail.value[j].moved);
      FoldFlag(c, seen[..n], Some(next), d, j);
      assert Fold(seen, tail) == Fold(seen[..n], Some(next));
      assert MovedIn(seen, j) <==> MovedIn(seen[..n], j) || seen[n][j].moved;
    }
  }

  lemma NeverMoved(j: nat)
    ensures !MovedIn([], j)
  {
  }

  /** The merged snapshots are the folded states. */
  lemma {:induction false} FoldedIs(c: seq<Info>, seen: seq<seq<Info>>, states: seq<seq<bool>>, c1: seq<Info>, d: nat)
    requires AllMovedMore(c, seen, d) && seen != []
    requires |states| == |seen| && forall i | 0 <= i < |seen| :: |states[i]| == |c| && states[i] == Flags(seen[i])
    requires |c1| == |c| && forall j | 0 <= j < |c| :: c1[j] == c[j].(moved := exists i | 0 <= i < |states| :: states[i][j])
    ensures Fold(seen, None) == Some(c1)
  {
    hide MovedMore, MovedIn, Flags;
    FoldMoves(c, seen, None, d);
    var r := Fold(seen, None).value;
    SameSize(c, r, d);
    forall j | 0 <= j < |c| ensures r[j] == c1[j] {
      FoldFlag(c, seen, None, d, j);
      MovedMoreAt(c, r, d, j);
      FlagSeen(seen, states, j);
      assert c1[j] == c[j].(moved := MovedIn(seen, j));
    }
    assert r == c1;
  }

  lemma {:induction false} MovedMoreAt(c: seq<Info>, c1: seq<Info>, d: nat, j: nat)
    requires MovedMore(c, c1, d) && j < |c|
    ensures |c1| == |c| && c1[j] == c[j].(moved := c1[j].moved)
  {
  }

  lemma {:induction false} FlagSeen(seen: seq<seq<Info>>, states: seq<seq<bool>>, j: nat)
    requires |states| == |seen| && forall i | 0 <= i < |seen| :: j < |states[i]| && states[i] == Flags(seen[i])
    ensures MovedIn(seen, j) <==> exists i | 0 <= i < |states| :: states[i][j]
  {
    if MovedIn(seen, j) {
      var i :| 0 <= i < |seen| && j < |seen[i]| && seen[i][j].moved;
      assert states[i][j];
    }
    if i :| 0 <= i < |states| && states[i][j] { assert seen[i][j].moved; }
  }

  lemma FoldAppend(seen: seq<seq<Info>>, a: seq<Info>, tail: Option<seq<Info>>)
    ensures Fold(seen + [a], tail) == Fold(seen, Some(if tail.Some? then Merge(a, tail.value) else a))
  {
    assert (seen + [a])[..|seen|] == seen;
  }

  class Checker {
    var bindings: seq<Info>
    var scopeStarts: seq<nat>
    var loopDepth: nat

    predicate Valid()
      reads this
    {
      |scopeStarts| > 0 && scopeStarts[|scopeStarts| - 1] <= |bindings|
    }

    function Start(): nat
      requires Valid()
      reads this
    {
      scopeStarts[|scopeStarts| - 1]
    }

    constructor (params: seq<Info>)
      ensures Valid() && bindings == params && scopeStarts == [0] && loopDepth == 0
    {
      bindings, scopeStarts, loopDepth := params, [0], 0;
    }

    // ----- snapshots -----

    method Snapshot() returns (flags: seq<bool>)
      ensures flags == Flags(bindings)
    {
      flags := [];
      for i := 0 to |bindings|
        invariant |flags| == i && forall j | 0 <= j < i :: flags[j] == bindings[j].moved
      {
        flags := flags + [bindings[i].moved];
      }
    }

    method Restore(flags: seq<bool>)
      requires |flags| == |bindings|
      modifies this`bindings
      ensures WithFlags(old(bindings), flags, bindings)
    {
      for i := 0 to |flags|
        invariant |bindings| == |old(bindings)|
        invariant forall j | 0 <= j < |bindings| :: bindings[j] == if j < i then old(bindings)[j].(moved := flags[j]) else old(bindings)[j]
      {
        bindings := bindings[i := bindings[i].(moved := flags[i])];
      }
    }

    /** Holds a binding as moved if any of the snapshots does. */
    method MergeSnapshots(snapshots: seq<seq<bool>>)
      requires forall i | 0 <= i < |snapshots| :: |snapshots[i]| == |bindings|
      modifies this`bindings
      ensures |bindings| == |old(bindings)|
      ensures forall j | 0 <= j < |bindings| ::
        bindings[j] == old(bindings)[j].(moved := exists i | 0 <= i < |snapshots| :: snapshots[i][j])
    {
      for j := 0 to |bindings|
        invariant |bindings| == |old(bindings)|
        invariant forall n | j <= n < |bindings| :: bindings[n] == old(bindings)[n]
        invariant forall n | 0 <= n < j ::
          bindings[n] == old(bindings)[n].(moved := exists i | 0 <= i < |snapshots| :: snapshots[i][n])
      {
        var moved := AnyMoved(snapshots, j);
        bindings := bindings[j := bindings[j].(moved := moved)];
      }
    }

    method AnyMoved(snapshots: seq<seq<bool>>, j: nat) returns (moved: bool)
      requires forall i | 0 <= i < |snapshots| :: j < |snapshots[i]|
      ensures moved <==> exists i | 0 <= i < |snapshots| :: snapshots[i][j]
    {
      moved := false;
      for i := 0 to |snapshots|
        invariant moved <==> exists n | 0 <= n < i :: snapshots[n][j]
      {
        moved := moved || snapshots[i][j];
      }
    }

    // ----- bindings -----

    method Declare(x: Name, ty: Option<OwnType>) returns (ok: bool)
      requires Valid()
      modifies this`bindings
      ensures Valid()
      ensures ok <==> Fresh(old(bindings), Start(), x)
      ensures bindings == if ok then old(bindings) + [Info(x, ty, false, loopDepth)] else old(bindings)
    {
      ok := true;
      for i := Start() to |bindings|
        invariant ok <==> forall j | Start() <= j < i :: bindings[j].name != x
      {
        ok := ok && bindings[i].name != x;
      }
      if ok {
        bindings := bindings + [Info(x, ty, false, loopDepth)];
      }
    }

    /** The innermost binding of x, or -1. */
    method LocalBinding(x: Name) returns (i: int)
      ensures i == Lookup(bindings, x)
    {
      i := |bindings| - 1;
      while i >= 0 && bindings[i].name != x
        invariant -1 <= i < |bindings|
        invariant forall j | i < j < |bindings| :: bindings[j].name != x
      {
        i := i - 1;
      }
    }

    method MoveOut(x: Name) returns (r: Checked<Ty>)
      modifies this`bindings
      ensures var s := CheckExpr(Move(x), old(bindings), loopDepth);
        && (r.Accepted? <==> s.Accepted?)
        && (r.Accepted? ==> r.value == s.value.ty && bindings == s.value.ctx)
      ensures r.Accepted? <==> exists i: nat ::
        MoveRules.Innermost(old(bindings), x, i) && old(bindings)[i].ty.Some? && !old(bindings)[i].moved && old(bindings)[i].depth >= loopDepth
      ensures forall i: nat | r.Accepted? && MoveRules.Innermost(old(bindings), x, i) ::
        bindings == old(bindings)[i := old(bindings)[i].(moved := true)]
      ensures r.Rejected? ==> bindings == old(bindings)
    {
      MoveRules.MoveAcceptedIff(x, bindings, loopDepth);
      var i := LocalBinding(x);
      if i < 0 || bindings[i].ty.None? || bindings[i].moved { return Rejected; }
      if loopDepth != 0 && bindings[i].depth < loopDepth { return Rejected; }
      r := Accepted(Owns(bindings[i].ty.value));
      bindings := bindings[i := bindings[i].(moved := true)];
    }

    // ----- expressions -----

    twostate predicate ExprChecked(e: Expr, new r: Checked<Ty>)
      reads this
    {
      var s := CheckExpr(e, old(bindings), old(loopDepth));
      && scopeStarts == old(scopeStarts) && loopDepth == old(loopDepth)
      && (r.Accepted? <==> s.Accepted?)
      && (r.Accepted? ==> r.value == s.value.ty && bindings == s.value.ctx)
    }

    method Infer(e: Expr) returns (r: Checked<Ty>)
      modifies this`bindings
      ensures ExprChecked(e, r)
      decreases e, 1
    {
      match e
      case IntLit(_) => r := Accepted(Copyable);
      case BoolLit(_) => r := Accepted(Copyable);
      case Local(x) =>
        var i := LocalBinding(x);
        r := if i < 0 || bindings[i].ty.None? then Accepted(Copyable) else Rejected;
      case Borrow(x) =>
        var i := LocalBinding(x);
        r := if i >= 0 && bindings[i].ty.Some? && !bindings[i].moved then Accepted(Copyable) else Rejected;
      case Move(x) => r := MoveOut(x);
      case New(ty, tag) => r := if WellTagged(ty, tag) then Accepted(Owns(ty)) else Rejected;
      case Binary(_, left, right) => r := InferBoth(e, left, right);
      case AndAlso(left, right) => r := InferBoth(e, left, right);
      case OrElse(left, right) => r := InferBoth(e, left, right);
      case Not(operand) => r := InferPlain(operand);
      case Call(_, arg) =>
        r := Infer(arg);
        if r.Accepted? { r := Accepted(Copyable); }
      case StoreTo(x, arg) =>
        var i := LocalBinding(x);
        if i >= 0 && bindings[i].ty.Some? { return Rejected; }
        r := InferPlain(arg);
      case Try(operand) => r := InferPlain(operand);
      case _ => r := Rejected;
    }

    method InferPlain(e: Expr) returns (r: Checked<Ty>)
      modifies this`bindings
      ensures var s := PlainOnly(CheckExpr(e, old(bindings), loopDepth));
        && (r.Accepted? <==> s.Accepted?)
        && (r.Accepted? ==> r.value == s.value.ty && bindings == s.value.ctx)
      decreases e, 2
    {
      r := Infer(e);
      if r.Accepted? && r.value.Owns? { r := Rejected; }
    }

    method InferBoth(e: Expr, left: Expr, right: Expr) returns (r: Checked<Ty>)
      requires e == AndAlso(left, right) || e == OrElse(left, right) || (e.Binary? && e.left == left && e.right == right)
      modifies this`bindings
      ensures ExprChecked(e, r)
      decreases e, 0
    {
      r := InferPlain(left);
      if r.Accepted? { r := InferPlain(right); }
    }

    // ----- statements -----

    twostate predicate StmtChecked(new spec: Checked<seq<Info>>, ok: bool)
      reads this
    {
      && scopeStarts == old(scopeStarts) && loopDepth == old(loopDepth)
      && (ok <==> spec.Accepted?)
      && (ok ==> bindings == spec.value)
    }

    /** Every statement leaves the checker exactly where the specification says, or reports an error
        exactly when the specification rejects. */
    method CheckStatement(s: Stmt) returns (ok: bool)
      requires Valid()
      modifies this
      ensures StmtChecked(CheckStmt(s, old(bindings), old(Start()), old(loopDepth)), ok)
      ensures ok ==> Valid()
      decreases s, 1
    {
      hide CheckExpr, CheckScope, CheckElse, CheckArms;
      ghost var c, start, d := bindings, Start(), loopDepth;
      match s
      case Let(x, init, owner) =>
        var r := Infer(init);
        ok := r.Accepted?;
        if ok {
          CheckMovesMore(init, c, d);
          ok := Declare(x, OwnedType(r.value));
          ok := ok && owner == r.value.Owns?;
        }
      case Assign(x, e) =>
        var i := LocalBinding(x);
        ok := i < 0 || bindings[i].ty.None?;
        if ok { ok := Plain(e); }
      case ExprStmt(e) => ok := Plain(e);
      case Return(None) => ok := true;
      case Return(Some(e)) =>
        var r := Infer(e);
        ok := r.Accepted?;
        if ok { CheckMovesMore(e, c, d); }
      case If(_, _, _) => ok := CheckIf(s);
      case While(cond, body) =>
        ok := Plain(cond);
        if ok { ok := CheckLoop(body, []); }
      case For(x, lo, hi, _, body) =>
        ok := Plain(lo);
        if ok { ok := Plain(hi); }
        if ok { ok := CheckLoop(body, [Info(x, None, false, 0)]); }
      case Block(body) => ok := CheckNested(body, []);
      case Break => ok := loopDepth > 0;
      case Continue => ok := loopDepth > 0;
      case Defer(e) =>
        ok := !HasTry(e);
        if ok { ok := Plain(e); }
      case Match(_, _, _) => ok := CheckMatch(s);
    }

    method Plain(e: Expr) returns (ok: bool)
      requires Valid()
      modifies this`bindings
      ensures var spec := PlainOnly(CheckExpr(e, old(bindings), loopDepth));
        (ok <==> spec.Accepted?) && (ok ==> bindings == spec.value.ctx && MovedMore(old(bindings), bindings, loopDepth))
      ensures ok ==> Valid()
    {
      var r := InferPlain(e);
      ok := r.Accepted?;
      if ok { CheckMovesMore(e, old(bindings), loopDepth); }
    }

    method CheckList(ss: Stmts) returns (ok: bool)
      requires Valid()
      modifies this
      ensures StmtChecked(CheckStmts(ss, old(bindings), old(Start()), old(loopDepth)), ok)
      ensures ok ==> Valid()
      decreases ss, 0
    {
      match ss
      case Done => ok := true;
      case Then(s, rest) =>
        ok := CheckStatement(s);
        if ok { ok := CheckList(rest); }
    }

    /** A nested scope, opened with the given bindings of its own. */
    method CheckNested(body: Stmts, own: seq<Info>) returns (ok: bool)
      requires Valid()
      modifies this
      ensures StmtChecked(CheckScope(body, old(bindings), own, old(loopDepth)), ok)
      ensures ok ==> Valid()
      decreases body, 1
    {
      ghost var starts := scopeStarts;
      var mark := |bindings|;
      bindings := bindings + own;
      scopeStarts := scopeStarts + [mark];
      ghost var c := bindings;
      ok := CheckList(body);
      if ok { CheckStmtsGrow(body, c, mark, loopDepth); }
      scopeStarts := scopeStarts[..|scopeStarts| - 1];
      assert scopeStarts == starts;
      if ok { bindings := bindings[..mark]; }
    }

    method CheckLoop(body: Stmts, own: seq<Info>) returns (ok: bool)
      requires Valid()
      modifies this
      ensures StmtChecked(CheckScope(body, old(bindings), own, old(loopDepth) + 1), ok)
      ensures ok ==> Valid()
      decreases body, 2
    {
      loopDepth := loopDepth + 1;
      ok := CheckNested(body, own);
      loopDepth := loopDepth - 1;
    }

    method CheckIf(s: Stmt) returns (ok: bool)
      requires Valid() && s.If?
      modifies this
      ensures StmtChecked(CheckStmt(s, old(bindings), old(Start()), old(loopDepth)), ok)
      ensures ok ==> Valid()
      decreases s, 0
    {
      var If(cond, thn, els) := s;
      ok := Plain(cond);
      if !ok { return; }
      ghost var c, d, start := bindings, loopDepth, Start();
      var before := Snapshot();
      ok := CheckNested(thn, []);
      if !ok { return; }
      ghost var a := bindings;
      CheckScopeGrows(thn, c, [], d);
      var afterThen := Snapshot();
      Restore(before);
      RestoredIs(c, a, bindings, d);
      ok := CheckElseBranch(els);
      if !ok { return; }
      ghost var b := bindings;
      CheckElseGrows(els, c, start, d);
      var afterElse := Snapshot();
      Restore(before);
      RestoredIs(c, b, bindings, d);
      var live := [];
      if !AlwaysReturns(thn) { live := live + [afterThen]; }
      if !ElseReturns(els) { live := live + [afterElse]; }
      if live != [] {
        MergeSnapshots(live);
        JoinedIs(c, a, AlwaysReturns(thn), b, ElseReturns(els), live, bindings, d);
      }
    }

    method CheckElseBranch(els: Else) returns (ok: bool)
      requires Valid()
      modifies this
      ensures StmtChecked(CheckElse(els, old(bindings), old(Start()), old(loopDepth)), ok)
      ensures ok ==> Valid()
      decreases els, 3
    {
      match els
      case NoElse => ok := true;
      case ElseBlock(body) => ok := CheckNested(body, []);
      case ElseIf(chained) =>
        ok := chained.If?;
        if ok { ok := CheckStatement(chained); }
    }

    method CheckMatch(s: Stmt) returns (ok: bool)
      requires Valid() && s.Match?
      modifies this
      ensures StmtChecked(CheckStmt(s, old(bindings), old(Start()), old(loopDepth)), ok)
      ensures ok ==> Valid()
      decreases s, 0
    {
      var r := Infer(s.subject);
      ok := r.Accepted?;
      if !ok { return; }
      CheckMovesMore(s.subject, old(bindings), loopDepth);
      ok := SubjectFits(s.subject, r.value, s.variants) && Covered(s.variants, s.arms) && WildcardLast(s.arms);
      if !ok { return; }
      ok := CheckEveryArm(s.arms, s.variants, r.value);
    }

    method CheckArm(arm: Arms, variants: nat, subject: Ty, before: seq<bool>, ghost c: seq<Info>) returns (ok: bool)
      requires Valid() && arm.Arm? && MovedMore(c, bindings, loopDepth) && before == Flags(c)
      modifies this
      ensures scopeStarts == old(scopeStarts) && loopDepth == old(loopDepth)
      ensures var spec := CheckScope(arm.body, c, BinderInfo(arm.binder, loopDepth), loopDepth);
        && (ok <==> ArmFits(subject, variants, arm.pattern, arm.binder) && spec.Accepted?)
        && (ok ==> Valid() && bindings == spec.value && MovedMore(c, bindings, loopDepth))
      decreases arm, 1
    {
      ghost var reached := bindings;
      Restore(before);
      RestoredIs(c, reached, bindings, loopDepth);
      if !ArmFits(subject, variants, arm.pattern, arm.binder) { return false; }
      ok := CheckNested(arm.body, BinderInfo(arm.binder, loopDepth));
      if ok { CheckScopeGrows(arm.body, c, BinderInfo(arm.binder, loopDepth), loopDepth); }
    }

    /** Each arm starts from the state before the match; the arms that can fall through are merged. */
    method CheckEveryArm(arms: Arms, variants: nat, subject: Ty) returns (ok: bool)
      requires Valid()
      modifies this
      ensures var spec := CheckArms(arms, variants, subject, old(bindings), old(loopDepth));
        && scopeStarts == old(scopeStarts) && loopDepth == old(loopDepth)
        && (ok <==> spec.Accepted?)
        && (ok ==> Valid() && bindings == if spec.value.Some? then spec.value.value else old(bindings))
      decreases arms, 2
    {
      hide ArmFits, CheckScope, BinderInfo, AlwaysReturns, MovedMore, Merge, Fold, WithFlags;
      ghost var c, d := bindings, loopDepth;
      ghost var spec := CheckArms(arms, variants, subject, c, d);
      ghost var seen: seq<seq<Info>> := [];
      var before := Snapshot();
      var states: seq<seq<bool>> := [];
      var rest := arms;
      MovedMoreRefl(c, d);
      if spec.Accepted? { FoldNone(spec.value); }
      while rest.Arm?
        invariant rest == arms || rest < arms
        invariant MovedMore(c, bindings, d)
        invariant scopeStarts == old(scopeStarts) && loopDepth == d && Valid()
        invariant AllMovedMore(c, seen, d) && |states| == |seen|
        invariant forall i | 0 <= i < |seen| :: |states[i]| == |c| && states[i] == Flags(seen[i])
        invariant var more := CheckArms(rest, variants, subject, c, d);
          && (spec.Accepted? <==> more.Accepted?)
          && (more.Accepted? ==> spec.value == Fold(seen, more.value))
        decreases rest
      {
        ok := CheckArm(rest, variants, subject, before, c);
        if !ok { return; }
        if !AlwaysReturns(rest.body) {
          SameSize(c, bindings, d);
          var flags := Snapshot();
          ghost var tail := CheckArms(rest.rest, variants, subject, c, d);
          if tail.Accepted? { FoldAppend(seen, bindings, tail.value); }
          states, seen := states + [flags], seen + [bindings];
        }
        rest := rest.rest;
      }
      ghost var reached := bindings;
      SameSize(c, reached, d);
      Restore(before);
      RestoredIs(c, reached, bindings, d);
      ok := true;
      FoldNone(None);
      if states != [] {
        MergeSnapshots(states);
        FoldedIs(c, seen, states, bindings, d);
      }
    }
  }
}
