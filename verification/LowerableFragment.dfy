/** The meaning theorem is not an empty one: what it asks for beyond an accepted function is that no
    declaration reuses a name that is in use, and that hoisting a `try` overtakes nothing. */
module LowerableFragment {
  import opened MortSyntax
  import opened CleanupLowering
  import opened TryProof
  import opened CleanupProof
  import opened FunctionTheorem
  import opened ReturnFlow
  import opened MoveAnalysis
  import opened CheckerFacts

  /** With `seen` the names declared in the open scopes and those that deferred expressions mention:
      every declaration takes a new name, and every `try` can be hoisted. */
  predicate Ordinary(s: Stmt, seen: set<Name>)
  {
    match s
    case Let(x, e, _) => Hoistable(e) && x !in seen && x !in MortSyntax.Mentions(e)
    case Assign(_, e) => Hoistable(e)
    case ExprStmt(e) => Hoistable(e)
    case Return(None) => true
    case Return(Some(e)) => Hoistable(e)
    case If(c, thn, els) => Hoistable(c) && AllOrdinary(thn, seen) && OrdinaryElse(els, seen)
    case While(c, body) => Hoistable(c) && AllOrdinary(body, seen)
    case For(x, lo, hi, _, body) =>
      Hoistable(lo) && Hoistable(hi) && HoistablePair(lo, hi) && x !in seen && AllOrdinary(body, seen + {x})
    case Block(body) => AllOrdinary(body, seen)
    case Break => true
    case Continue => true
    case Defer(_) => true
    case Match(subject, _, arms) => Hoistable(subject) && OrdinaryArms(arms, seen)
  }

  predicate AllOrdinary(ss: Stmts, seen: set<Name>)
  {
    match ss
    case Done => true
    case Then(s, rest) => Ordinary(s, seen) && AllOrdinary(rest, SeenAfter(s, seen))
  }

  function SeenAfter(s: Stmt, seen: set<Name>): set<Name>
  {
    match s
    case Let(x, _, _) => seen + {x}
    case Defer(e) => seen + MortSyntax.Mentions(e)
    case _ => seen
  }

  predicate OrdinaryElse(els: Else, seen: set<Name>)
  {
    match els
    case NoElse => true
    case ElseBlock(body) => AllOrdinary(body, seen)
    case ElseIf(chained) => Ordinary(chained, seen)
  }

  predicate OrdinaryArms(arms: Arms, seen: set<Name>)
  {
    match arms
    case NoArms => true
    case Arm(_, binder, body, rest) =>
      && (binder.Some? ==> binder.value.name !in seen)
      && AllOrdinary(body, seen + BinderNames(binder)) && OrdinaryArms(rest, seen)
  }

  function BinderNames(b: Option<Binder>): set<Name> { if b.Some? then {b.value.name} else {} }

  /** An expression without a `try` has nothing to hoist. */
  lemma {:induction false} TryFreeIsHoistable(e: Expr)
    requires !HasTry(e)
    ensures Hoistable(e)
  {
    match e
    case Binary(_, l, r) => TryFreeIsHoistable(l); TryFreeIsHoistable(r);
    case AndAlso(l, r) => TryFreeIsHoistable(l); TryFreeIsHoistable(r);
    case OrElse(l, r) => TryFreeIsHoistable(l); TryFreeIsHoistable(r);
    case Not(o) => TryFreeIsHoistable(o);
    case Call(_, a) => TryFreeIsHoistable(a);
    case StoreTo(_, a) => TryFreeIsHoistable(a);
    case _ =>
  }

  lemma {:induction false} ResidualIsMentioned(e: Expr)
    ensures ResidualReads(e) <= MortSyntax.Mentions(e)
  {
    match e
    case Binary(_, l, r) => ResidualIsMentioned(l); ResidualIsMentioned(r);
    case AndAlso(l, r) => ResidualIsMentioned(l); ResidualIsMentioned(r);
    case OrElse(l, r) => ResidualIsMentioned(l); ResidualIsMentioned(r);
    case Not(o) => ResidualIsMentioned(o);
    case Call(_, a) => ResidualIsMentioned(a);
    case StoreTo(_, a) => ResidualIsMentioned(a);
    case _ =>
  }

  lemma {:induction false} AcceptedIsSource(e: Expr, c: seq<Info>, d: nat)
    requires CheckExpr(e, c, d).Accepted?
    ensures IsSource(e)
  {
    match e
    case Binary(_, l, r) => AcceptedIsSource(l, c, d); AcceptedIsSource(r, CheckExpr(l, c, d).value.ctx, d);
    case AndAlso(l, r) => AcceptedIsSource(l, c, d); AcceptedIsSource(r, CheckExpr(l, c, d).value.ctx, d);
    case OrElse(l, r) => AcceptedIsSource(l, c, d); AcceptedIsSource(r, CheckExpr(l, c, d).value.ctx, d);
    case Not(o) => AcceptedIsSource(o, c, d);
    case Call(_, a) => AcceptedIsSource(a, c, d);
    case StoreTo(_, a) => AcceptedIsSource(a, c, d);
    case Try(o) => AcceptedIsSource(o, c, d);
    case _ =>
  }

  /** Everything that pending cleanup mentions has been seen. */
  ghost predicate Known(scopes: Scopes, seen: set<Name>)
  {
    forall x | x !in seen :: Free(x, scopes)
  }

  lemma {:induction false} KnownPush(scopes: Scopes, seen: set<Name>, binder: Option<Binder>)
    requires Known(scopes, seen)
    ensures Known(Push(scopes, BinderTop(binder)), seen + BinderNames(binder))
  {
    forall x | x !in seen + BinderNames(binder) ensures Free(x, Push(scopes, BinderTop(binder))) {
      assert Free(x, scopes);
    }
  }

  lemma {:induction false} KnownAfter(s: Stmt, scopes: Scopes, seen: set<Name>)
    requires |scopes| > 0 && Known(scopes, seen)
    ensures Known(SetTop(scopes, TopAfter(s, Top(scopes))), SeenAfter(s, seen))
  {
    var after := SetTop(scopes, TopAfter(s, Top(scopes)));
    forall x | x !in SeenAfter(s, seen) ensures Free(x, after) {
      assert Free(x, scopes) && NoMention(x, Top(scopes));
      forall i | 0 <= i < |after| ensures NoMention(x, after[i]) {
        if i < |scopes| - 1 { assert after[i] == scopes[i]; }
      }
    }
  }

  lemma {:induction false} KnownMore(scopes: Scopes, seen: set<Name>, more: set<Name>)
    requires Known(scopes, seen) && seen <= more
    ensures Known(scopes, more)
  {
  }

  lemma {:induction false} OrdinaryIsLowerable(s: Stmt, seen: set<Name>, scopes: Scopes, c: seq<Info>, start: nat, d: nat)
    requires |scopes| > 0 && Known(scopes, seen) && Ordinary(s, seen) && CheckStmt(s, c, start, d).Accepted?
    ensures Lowerable(s, scopes, d > 0)
    decreases s, 0
  {
    hide Known, Hoistable, IsSource, CheckExpr, HoistablePair, Covered;
    KnownPush(scopes, seen, None);
    assert Push(scopes, BinderTop(None)) == Push(scopes, []) && seen + BinderNames(None) == seen;
    match s
    case Let(x, e, _) =>
      AcceptedIsSource(e, c, d);
      ResidualIsMentioned(e);
      KnownFree(x, scopes, seen);
    case Assign(_, e) => AcceptedIsSource(e, c, d);
    case ExprStmt(e) => AcceptedIsSource(e, c, d);
    case Return(None) =>
    case Return(Some(e)) => AcceptedIsSource(e, c, d);
    case If(cond, thn, els) =>
      AcceptedIsSource(cond, c, d);
      var c1 := CheckExpr(cond, c, d).value.ctx;
      AllOrdinaryAreLowerable(thn, seen, Push(scopes, []), c1 + [], |c1|, d);
      OrdinaryElseIsLowerable(els, seen, scopes, c1, start, d);
    case While(cond, body) =>
      AcceptedIsSource(cond, c, d);
      var c1 := CheckExpr(cond, c, d).value.ctx;
      AllOrdinaryAreLowerable(body, seen, Push(scopes, []), c1 + [], |c1|, d + 1);
    case For(x, lo, hi, _, body) =>
      AcceptedIsSource(lo, c, d);
      var c1 := CheckExpr(lo, c, d).value.ctx;
      AcceptedIsSource(hi, c1, d);
      var c2 := CheckExpr(hi, c1, d).value.ctx;
      KnownFree(x, scopes, seen);
      KnownMore(Push(scopes, []), seen, seen + {x});
      AllOrdinaryAreLowerable(body, seen + {x}, Push(scopes, []), c2 + [Info(x, None, false, 0)], |c2|, d + 1);
    case Block(body) => AllOrdinaryAreLowerable(body, seen, Push(scopes, []), c + [], |c|, d);
    case Break =>
    case Continue =>
    case Defer(e) => AcceptedIsSource(e, c, d);
    case Match(subject, variants, arms) =>
      CheckMatchParts(s, c, start, d);
      AcceptedIsSource(subject, c, d);
      var t := CheckExpr(subject, c, d).value;
      OrdinaryArmsAreLowerable(arms, variants, t.ty, seen, scopes, t.ctx, d);
  }

  lemma {:induction false} KnownFree(x: Name, scopes: Scopes, seen: set<Name>)
    requires Known(scopes, seen) && x !in seen
    ensures Free(x, scopes)
  {
  }

  lemma {:induction false} AllOrdinaryAreLowerable(ss: Stmts, seen: set<Name>, scopes: Scopes, c: seq<Info>, start: nat, d: nat)
    requires |scopes| > 0 && Known(scopes, seen) && AllOrdinary(ss, seen) && CheckStmts(ss, c, start, d).Accepted?
    ensures LowerableStmts(ss, scopes, d > 0)
    decreases ss, 0
  {
    hide Known, CheckStmt, Ordinary, Lowerable;
    match ss
    case Done =>
    case Then(s, rest) =>
      OrdinaryIsLowerable(s, seen, scopes, c, start, d);
      KnownAfter(s, scopes, seen);
      AllOrdinaryAreLowerable(rest, SeenAfter(s, seen), SetTop(scopes, TopAfter(s, Top(scopes))), CheckStmt(s, c, start, d).value, start, d);
  }

  lemma {:induction false} OrdinaryElseIsLowerable(els: Else, seen: set<Name>, scopes: Scopes, c: seq<Info>, start: nat, d: nat)
    requires |scopes| > 0 && Known(scopes, seen) && OrdinaryElse(els, seen) && CheckElse(els, c, start, d).Accepted?
    ensures LowerableElse(els, scopes, d > 0)
    decreases els, 0
  {
    hide Known;
    match els
    case NoElse =>
    case ElseBlock(body) =>
      KnownPush(scopes, seen, None);
      assert Push(scopes, BinderTop(None)) == Push(scopes, []) && seen + BinderNames(None) == seen;
      AllOrdinaryAreLowerable(body, seen, Push(scopes, []), c + [], |c|, d);
    case ElseIf(chained) => OrdinaryIsLowerable(chained, seen, scopes, c, start, d);
  }

  lemma {:induction false} OrdinaryArmsAreLowerable(arms: Arms, variants: nat, subject: Ty, seen: set<Name>, scopes: Scopes, c: seq<Info>, d: nat)
    requires |scopes| > 0 && Known(scopes, seen) && OrdinaryArms(arms, seen) && CheckArms(arms, variants, subject, c, d).Accepted?
    ensures LowerableArms(arms, scopes, d > 0)
    decreases arms, 0
  {
    hide Known, ArmFits;
    match arms
    case NoArms =>
    case Arm(_, binder, body, rest) =>
      if binder.Some? { KnownFree(binder.value.name, scopes, seen); }
      KnownPush(scopes, seen, binder);
      var own := BinderInfo(binder, d);
      AllOrdinaryAreLowerable(body, seen + BinderNames(binder), Push(scopes, BinderTop(binder)), c + own, |c|, d);
      OrdinaryArmsAreLowerable(rest, variants, subject, seen, scopes, c, d);
  }

  function ParamNames(params: seq<Param>): set<Name> { set p <- params :: p.name }

  lemma {:induction false} ParamsKnown(params: seq<Param>)
    ensures Known([ParamTop(params)], ParamNames(params))
  {
    forall x | x !in ParamNames(params) ensures NoMention(x, ParamTop(params)) { ParamFree(params, x); }
  }

  lemma {:induction false} ParamFree(params: seq<Param>, x: Name)
    requires forall p | p in params :: p.name != x
    ensures NoMention(x, ParamTop(params))
  {
    if params != [] {
      var n := |params| - 1;
      ParamFree(params[..n], x);
      assert params[n] in params;
    }
  }

  /** Every function that the checker accepts, whose declarations take new names and whose `try`s can
      be hoisted, is one the meaning theorem speaks about. */
  lemma {:induction false} OrdinaryFunctionsAreLowerable(f: Function, types: seq<OwnType>)
    requires Accepts(f, types) && DistinctParams(f.params) && AllOrdinary(f.body, ParamNames(f.params))
    ensures LowerableFunction(f)
  {
    ParamsKnown(f.params);
    AllOrdinaryAreLowerable(f.body, ParamNames(f.params), [ParamTop(f.params)], ParamInfos(f.params, types), 0, 0);
  }
}
