/** What the move analysis does to its own state, whatever the program does at run time. */
module CheckerFacts {
  import opened MortSyntax
  import opened MortSemantics
  import opened CleanupLowering
  import opened CleanupProof
  import opened ReturnFlow
  import opened MoveAnalysis
  import opened OwnershipFacts
  import opened OwnershipCleanup

  // ----- the fragment -----

  /** No move in a `while` condition, whose move is checked once but runs every round, and none in
      a deferred expression; with `strict`, no deferred expression reads an owning binding. */
  predicate Tidy(s: Stmt, strict: bool)
  {
    match s
    case If(_, thn, els) => TidyAll(thn, strict) && TidyElse(els, strict)
    case While(cond, body) => NoMove(cond) && TidyAll(body, strict)
    case For(_, _, _, _, body) => TidyAll(body, strict)
    case Block(body) => TidyAll(body, strict)
    case Defer(e) => NoMove(e) && (strict ==> NoBorrow(e))
    case Match(_, _, arms) => TidyArms(arms, strict)
    case _ => true
  }

  predicate TidyAll(ss: Stmts, strict: bool)
  {
    match ss
    case Done => true
    case Then(s, rest) => Tidy(s, strict) && TidyAll(rest, strict)
  }

  predicate TidyElse(els: Else, strict: bool)
  {
    match els
    case NoElse => true
    case ElseBlock(body) => TidyAll(body, strict)
    case ElseIf(chained) => Tidy(chained, strict)
  }

  predicate TidyArms(arms: Arms, strict: bool)
  {
    match arms
    case NoArms => true
    case Arm(_, _, body, rest) => TidyAll(body, strict) && TidyArms(rest, strict)
  }

  // ----- merging -----

  /** Every binding was declared at the current loop depth or further out. */
  predicate Depths(c: seq<Info>, d: nat)
  {
    forall i | 0 <= i < |c| :: c[i].depth <= d
  }

  lemma {:induction false} MergeIs(a: seq<Info>, b: seq<Info>)
    requires |a| == |b|
    ensures |Merge(a, b)| == |a|
    ensures forall i | 0 <= i < |a| :: Merge(a, b)[i] == a[i].(moved := a[i].moved || b[i].moved)
  {
    if a != [] { MergeIs(a[..|a| - 1], b[..|b| - 1]); }
  }

  /** The merge of two branches holds a binding as moved if either branch may have moved it. */
  lemma {:induction false} MergeMovesMore(c: seq<Info>, a: seq<Info>, b: seq<Info>, d: nat)
    requires MovedMore(c, a, d) && MovedMore(c, b, d)
    ensures MovedMore(c, Merge(a, b), d)
    ensures MovedMore(a, Merge(a, b), 0) && MovedMore(b, Merge(a, b), 0)
  {
    MergeIs(a, b);
    var m := Merge(a, b);
    forall i | 0 <= i < |c|
      ensures m[i] == c[i].(moved := m[i].moved) && m[i] == b[i].(moved := m[i].moved)
      ensures c[i].depth < d ==> m[i].moved == c[i].moved
    {
      assert a[i] == c[i].(moved := a[i].moved) && b[i] == c[i].(moved := b[i].moved);
    }
  }

  /** After an `if`, a binding counts as moved exactly if a branch that can fall through may have moved
      it; when neither can, what follows is unreachable and nothing has changed. */
  lemma {:induction false} JoinIsExact(before: seq<Info>, a: seq<Info>, aReturns: bool, b: seq<Info>, bReturns: bool, d: nat, i: nat)
    requires MovedMore(before, a, d) && MovedMore(before, b, d) && i < |before|
    ensures var j := Join(before, a, aReturns, b, bReturns);
      && |j| == |before|
      && (j[i].moved <==> if aReturns && bReturns then before[i].moved else (!aReturns && a[i].moved) || (!bReturns && b[i].moved))
  {
    MergeIs(a, b);
  }

  lemma {:induction false} MovedMoreRefl(c: seq<Info>, d: nat)
    ensures MovedMore(c, c, d)
  {
  }

  lemma {:induction false} MovedMoreWeaken(c: seq<Info>, a: seq<Info>, d: nat, e: nat)
    requires MovedMore(c, a, d) && e <= d
    ensures MovedMore(c, a, e)
  {
  }

  lemma {:induction false} MovedMoreDepths(c: seq<Info>, a: seq<Info>, d: nat, e: nat)
    requires MovedMore(c, a, d) && Depths(c, e)
    ensures Depths(a, e)
  {
    forall i | 0 <= i < |a| ensures a[i].depth <= e {
      assert a[i] == c[i].(moved := a[i].moved);
    }
  }

  /** Inside a loop nothing declared outside it can be moved. */
  lemma {:induction false} LoopMovesNothing(c: seq<Info>, a: seq<Info>, d: nat)
    requires MovedMore(c, a, d + 1) && Depths(c, d)
    ensures a == c
  {
    forall i | 0 <= i < |c| ensures a[i] == c[i] {
      assert a[i] == c[i].(moved := a[i].moved);
    }
  }

  // ----- how checking a statement changes the state -----

  /** The bindings of c, some more moved, then new ones. */
  predicate Extends(c: seq<Info>, c1: seq<Info>, d: nat)
  {
    |c| <= |c1| && MovedMore(c, c1[..|c|], d)
  }

  lemma {:induction false} ExtendsSame(c: seq<Info>, c1: seq<Info>, d: nat)
    requires MovedMore(c, c1, d)
    ensures Extends(c, c1, d)
  {
    assert c1[..|c|] == c1;
  }

  lemma {:induction false} ExtendsTrans(a: seq<Info>, b: seq<Info>, c: seq<Info>, d: nat)
    requires Extends(a, b, d) && Extends(b, c, d)
    ensures Extends(a, c, d)
  {
    var c0 := c[..|b|][..|a|];
    assert c0 == c[..|a|];
    PrefixMovesMore(b, c[..|b|], |a|, d);
    MovedMoreTrans(a, b[..|a|], c0, d);
  }

  lemma {:induction false} PrefixMovesMore(a: seq<Info>, b: seq<Info>, n: nat, d: nat)
    requires MovedMore(a, b, d) && n <= |a|
    ensures MovedMore(a[..n], b[..n], d)
  {
    forall i | 0 <= i < n
      ensures b[..n][i] == a[..n][i].(moved := b[..n][i].moved)
    {
      assert b[i] == a[i].(moved := b[i].moved);
    }
  }

  lemma {:induction false} CheckMatchParts(s: Stmt, c: seq<Info>, start: nat, d: nat)
    requires s.Match? && CheckStmt(s, c, start, d).Accepted?
    ensures CheckExpr(s.subject, c, d).Accepted?
    ensures var t := CheckExpr(s.subject, c, d).value;
      && SubjectFits(s.subject, t.ty, s.variants) && Covered(s.variants, s.arms)
      && CheckArms(s.arms, s.variants, t.ty, t.ctx, d).Accepted?
      && var r := CheckArms(s.arms, s.variants, t.ty, t.ctx, d).value;
         CheckStmt(s, c, start, d).value == if r.Some? then r.value else t.ctx
  {
  }

  lemma {:induction false} CheckStmtGrows(s: Stmt, c: seq<Info>, start: nat, d: nat)
    requires CheckStmt(s, c, start, d).Accepted?
    ensures var c1 := CheckStmt(s, c, start, d).value;
      && (s.Let? ==> Extends(c, c1, d))
      && (!s.Let? ==> MovedMore(c, c1, d))
    decreases s, 0
  {
    hide MovedMore, CheckExpr, Merge, AlwaysReturns, ElseReturns, Covered;
    match s
    case Let(x, e, owner) =>
      CheckMovesMore(e, c, d);
      LetGrows(c, CheckExpr(e, c, d).value, x, d);
    case Assign(x, e) => CheckMovesMore(e, c, d);
    case ExprStmt(e) => CheckMovesMore(e, c, d);
    case Return(None) => MovedMoreRefl(c, d);
    case Return(Some(e)) => CheckMovesMore(e, c, d);
    case If(cond, thn, els) =>
      CheckMovesMore(cond, c, d);
      var t := CheckExpr(cond, c, d).value;
      CheckScopeGrows(thn, t.ctx, [], d);
      CheckElseGrows(els, t.ctx, start, d);
      var a, b := CheckScope(thn, t.ctx, [], d).value, CheckElse(els, t.ctx, start, d).value;
      MergeMovesMore(t.ctx, a, b, d);
      MovedMoreRefl(t.ctx, d);
      MovedMoreTrans(c, t.ctx, Join(t.ctx, a, AlwaysReturns(thn), b, ElseReturns(els)), d);
    case While(cond, body) =>
      CheckMovesMore(cond, c, d);
      var t := CheckExpr(cond, c, d).value;
      CheckScopeGrows(body, t.ctx, [], d + 1);
      MovedMoreWeaken(t.ctx, CheckScope(body, t.ctx, [], d + 1).value, d + 1, d);
      MovedMoreTrans(c, t.ctx, CheckScope(body, t.ctx, [], d + 1).value, d);
    case For(x, lo, hi, _, body) =>
      CheckMovesMore(lo, c, d);
      var t := CheckExpr(lo, c, d).value;
      CheckMovesMore(hi, t.ctx, d);
      var u := CheckExpr(hi, t.ctx, d).value;
      MovedMoreTrans(c, t.ctx, u.ctx, d);
      var own := [Info(x, None, false, 0)];
      CheckScopeGrows(body, u.ctx, own, d + 1);
      MovedMoreWeaken(u.ctx, CheckScope(body, u.ctx, own, d + 1).value, d + 1, d);
      MovedMoreTrans(c, u.ctx, CheckScope(body, u.ctx, own, d + 1).value, d);
    case Block(body) => CheckScopeGrows(body, c, [], d);
    case Break => MovedMoreRefl(c, d);
    case Continue => MovedMoreRefl(c, d);
    case Defer(e) => CheckMovesMore(e, c, d);
    case Match(subject, variants, arms) =>
      CheckMatchParts(s, c, start, d);
      CheckMovesMore(subject, c, d);
      var t := CheckExpr(subject, c, d).value;
      CheckArmsGrow(arms, variants, t.ty, t.ctx, d);
      var r := CheckArms(arms, variants, t.ty, t.ctx, d).value;
      if r.Some? { MovedMoreTrans(c, t.ctx, r.value, d); }
  }

  lemma {:induction false} LetGrows(c: seq<Info>, t: Typed, x: Name, d: nat)
    requires MovedMore(c, t.ctx, d)
    ensures Extends(c, t.ctx + [Info(x, OwnedType(t.ty), false, d)], d)
  {
    assert (t.ctx + [Info(x, OwnedType(t.ty), false, d)])[..|c|] == t.ctx;
  }

  lemma {:induction false} CheckStmtsGrow(ss: Stmts, c: seq<Info>, start: nat, d: nat)
    requires CheckStmts(ss, c, start, d).Accepted?
    ensures Extends(c, CheckStmts(ss, c, start, d).value, d)
    decreases ss, 0
  {
    hide MovedMore, Extends, CheckStmt;
    match ss
    case Done => MovedMoreRefl(c, d); ExtendsSame(c, c, d);
    case Then(s, rest) =>
      CheckStmtGrows(s, c, start, d);
      var c1 := CheckStmt(s, c, start, d).value;
      if !s.Let? { ExtendsSame(c, c1, d); }
      CheckStmtsGrow(rest, c1, start, d);
      ExtendsTrans(c, c1, CheckStmts(rest, c1, start, d).value, d);
  }

  lemma {:induction false} CheckScopeGrows(body: Stmts, c: seq<Info>, own: seq<Info>, d: nat)
    requires CheckScope(body, c, own, d).Accepted?
    ensures MovedMore(c, CheckScope(body, c, own, d).value, d)
    decreases body, 1
  {
    hide MovedMore, CheckStmts;
    CheckStmtsGrow(body, c + own, |c|, d);
    var c1 := CheckStmts(body, c + own, |c|, d).value;
    PrefixMovesMore(c + own, c1[..|c + own|], |c|, d);
    assert (c + own)[..|c|] == c;
    assert c1[..|c + own|][..|c|] == c1[..|c|];
  }

  lemma {:induction false} CheckElseGrows(els: Else, c: seq<Info>, start: nat, d: nat)
    requires CheckElse(els, c, start, d).Accepted?
    ensures MovedMore(c, CheckElse(els, c, start, d).value, d)
    decreases els, 0
  {
    hide MovedMore;
    match els
    case NoElse => MovedMoreRefl(c, d);
    case ElseBlock(body) => CheckScopeGrows(body, c, [], d);
    case ElseIf(chained) => CheckStmtGrows(chained, c, start, d);
  }

  lemma {:induction false} CheckArmsGrow(arms: Arms, variants: nat, subject: Ty, c: seq<Info>, d: nat)
    requires CheckArms(arms, variants, subject, c, d).Accepted?
    ensures var r := CheckArms(arms, variants, subject, c, d).value;
      r.Some? ==> MovedMore(c, r.value, d)
    decreases arms, 0
  {
    hide MovedMore, ArmFits, Merge;
    match arms
    case NoArms =>
    case Arm(pattern, binder, body, rest) =>
      CheckScopeGrows(body, c, BinderInfo(binder, d), d);
      CheckArmsGrow(rest, variants, subject, c, d);
      var a := CheckScope(body, c, BinderInfo(binder, d), d).value;
      var b := CheckArms(rest, variants, subject, c, d).value;
      if b.Some? { MergeMovesMore(c, a, b.value, d); }
  }

  // ----- accepted matches are exhaustive -----

  lemma {:induction false} AcceptedCovered(ss: Stmts, c: seq<Info>, start: nat, d: nat)
    requires CheckStmts(ss, c, start, d).Accepted?
    ensures MatchesCovered(ss)
    decreases ss, 1
  {
    match ss
    case Done =>
    case Then(s, rest) =>
      AcceptedStmtCovered(s, c, start, d);
      AcceptedCovered(rest, CheckStmt(s, c, start, d).value, start, d);
  }

  lemma {:induction false} AcceptedStmtCovered(s: Stmt, c: seq<Info>, start: nat, d: nat)
    requires CheckStmt(s, c, start, d).Accepted?
    ensures StmtCovered(s)
    decreases s, 1
  {
    hide CheckExpr, CheckStmts, Covered, Join;
    match s
    case If(cond, thn, els) =>
      var t := CheckExpr(cond, c, d).value;
      AcceptedCovered(thn, t.ctx + [], |t.ctx|, d);
      AcceptedElseCovered(els, t.ctx, start, d);
    case While(cond, body) =>
      var t := CheckExpr(cond, c, d).value;
      AcceptedCovered(body, t.ctx + [], |t.ctx|, d + 1);
    case For(x, lo, hi, _, body) =>
      var u := CheckExpr(hi, CheckExpr(lo, c, d).value.ctx, d).value;
      AcceptedCovered(body, u.ctx + [Info(x, None, false, 0)], |u.ctx|, d + 1);
    case Block(body) => AcceptedCovered(body, c + [], |c|, d);
    case Match(subject, variants, arms) =>
      CheckMatchParts(s, c, start, d);
      var t := CheckExpr(subject, c, d).value;
      AcceptedArmsCovered(arms, variants, t.ty, t.ctx, d);
    case _ =>
  }

  lemma {:induction false} AcceptedElseCovered(els: Else, c: seq<Info>, start: nat, d: nat)
    requires CheckElse(els, c, start, d).Accepted?
    ensures ElseCovered(els)
    decreases els, 1
  {
    match els
    case NoElse =>
    case ElseBlock(body) => AcceptedCovered(body, c + [], |c|, d);
    case ElseIf(chained) => AcceptedStmtCovered(chained, c, start, d);
  }

  lemma {:induction false} AcceptedArmsCovered(arms: Arms, variants: nat, subject: Ty, c: seq<Info>, d: nat)
    requires CheckArms(arms, variants, subject, c, d).Accepted?
    ensures ArmsCovered(arms)
    decreases arms, 1
  {
    hide CheckStmts;
    match arms
    case NoArms =>
    case Arm(pattern, binder, body, rest) =>
      AcceptedCovered(body, c + BinderInfo(binder, d), |c|, d);
      AcceptedArmsCovered(rest, variants, subject, c, d);
  }
}
