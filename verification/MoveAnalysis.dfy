/** The checker's move analysis: which bindings may have been moved at each point, with snapshots
    merged over branches that can fall through and moves across loop iterations refused. */
module MoveAnalysis {
  import opened MortSyntax
  import opened CleanupLowering
  import opened CleanupProof
  import opened ReturnFlow

  /** What the checker knows of a binding; `depth` is the loop depth it was declared at. */
  datatype Info = Info(name: Name, ty: Option<OwnType>, moved: bool, depth: nat)

  datatype Ty = Copyable | Owns(ty: OwnType)

  datatype Checked<+T> = Rejected | Accepted(value: T)
  {
    predicate IsFailure() { Rejected? }
    function PropagateFailure<U>(): Checked<U> requires Rejected? { Rejected }
    function Extract(): T requires Accepted? { value }
  }

  datatype Typed = Typed(ty: Ty, ctx: seq<Info>)

  function Require(b: bool): Checked<()> { if b then Accepted(()) else Rejected }

  /** The innermost binding of x, or -1: then x is a global, which owns nothing. */
  function Lookup(c: seq<Info>, x: Name): (i: int)
    ensures -1 <= i < |c|
    ensures i >= 0 ==> c[i].name == x && forall j | i < j < |c| :: c[j].name != x
    ensures i < 0 ==> forall j | 0 <= j < |c| :: c[j].name != x
  {
    if c == [] then -1
    else if c[|c| - 1].name == x then |c| - 1
    else Lookup(c[..|c| - 1], x)
  }

  predicate IsPlain(c: seq<Info>, x: Name)
  {
    Lookup(c, x) < 0 || c[Lookup(c, x)].ty.None?
  }

  predicate WellTagged(ty: OwnType, tag: nat)
  {
    ty.OwningEnum? ==> tag < |ty.payloads|
  }

  // ----- expressions -----

  function CheckExpr(e: Expr, c: seq<Info>, d: nat): Checked<Typed>
  {
    match e
    case IntLit(_) => Accepted(Typed(Copyable, c))
    case BoolLit(_) => Accepted(Typed(Copyable, c))
    case Local(x) =>
      var _ :- Require(IsPlain(c, x));
      Accepted(Typed(Copyable, c))
    case Borrow(x) =>
      var i := Lookup(c, x);
      var _ :- Require(i >= 0 && c[i].ty.Some? && !c[i].moved);
      Accepted(Typed(Copyable, c))
    case Move(x) =>
      var i := Lookup(c, x);
      var _ :- Require(i >= 0 && c[i].ty.Some? && !c[i].moved);
      // a resource declared outside a repeating loop cannot be moved inside it
      var _ :- Require(d == 0 || c[i].depth >= d);
      Accepted(Typed(Owns(c[i].ty.value), c[i := c[i].(moved := true)]))
    case New(ty, tag) =>
      var _ :- Require(WellTagged(ty, tag));
      Accepted(Typed(Owns(ty), c))
    case Binary(_, l, r) =>
      var t :- PlainOnly(CheckExpr(l, c, d));
      PlainOnly(CheckExpr(r, t.ctx, d))
    case AndAlso(l, r) =>
      var t :- PlainOnly(CheckExpr(l, c, d));
      PlainOnly(CheckExpr(r, t.ctx, d))
    case OrElse(l, r) =>
      var t :- PlainOnly(CheckExpr(l, c, d));
      PlainOnly(CheckExpr(r, t.ctx, d))
    case Not(o) => PlainOnly(CheckExpr(o, c, d))
    case Call(_, a) =>
      var t :- CheckExpr(a, c, d);
      Accepted(Typed(Copyable, t.ctx))
    case StoreTo(x, a) =>
      var _ :- Require(IsPlain(c, x));
      PlainOnly(CheckExpr(a, c, d))
    case Try(o) => PlainOnly(CheckExpr(o, c, d))
    case _ => Rejected
  }

  /** Operands of operators are plain: an owner can only be bound, passed, returned or matched. */
  function PlainOnly(r: Checked<Typed>): Checked<Typed>
  {
    if r.Accepted? && r.value.ty.Copyable? then r else Rejected
  }

  // ----- statements -----

  predicate NoMove(e: Expr)
  {
    match e
    case Move(_) => false
    case Binary(_, l, r) => NoMove(l) && NoMove(r)
    case AndAlso(l, r) => NoMove(l) && NoMove(r)
    case OrElse(l, r) => NoMove(l) && NoMove(r)
    case Not(o) => NoMove(o)
    case Call(_, a) => NoMove(a)
    case StoreTo(_, a) => NoMove(a)
    case Try(o) => NoMove(o)
    case _ => true
  }

  /** A second declaration of a name in the scope that starts at index `start` is an error. */
  predicate Fresh(c: seq<Info>, start: nat, x: Name)
  {
    forall i | start <= i < |c| :: c[i].name != x
  }

  function OwnedType(t: Ty): Option<OwnType>
  {
    match t
    case Copyable => None
    case Owns(ty) => Some(ty)
  }

  // snapshots: only the moved flags of the bindings that exist before the branches can differ

  function Keep(c: seq<Info>, n: nat): seq<Info>
  {
    if n <= |c| then c[..n] else c
  }

  function Merge(a: seq<Info>, b: seq<Info>): seq<Info>
  {
    if a == [] || b == [] then []
    else Merge(a[..|a| - 1], b[..|b| - 1]) + [a[|a| - 1].(moved := a[|a| - 1].moved || b[|b| - 1].moved)]
  }

  /** The state after two branches; a branch that always returns does not reach it. */
  function Join(before: seq<Info>, a: seq<Info>, aReturns: bool, b: seq<Info>, bReturns: bool): seq<Info>
  {
    if aReturns && bReturns then before
    else if aReturns then b
    else if bReturns then a
    else Merge(a, b)
  }

  function BinderInfo(b: Option<Binder>, d: nat): seq<Info>
  {
    match b
    case None => []
    case Some(Binder(x, owner)) => [Info(x, if owner then Some(ResourceStruct) else None, false, d)]
  }

  /** `match move x` must name variants; an arm binds a payload exactly when its variant has one. */
  predicate ArmFits(subject: Ty, variants: nat, pattern: Option<nat>, binder: Option<Binder>)
  {
    match subject
    case Copyable => (binder.Some? ==> !binder.value.owner) && (variants > 0 && pattern.Some? ==> pattern.value < variants)
    case Owns(ResourceStruct) => false
    case Owns(OwningEnum(payloads)) =>
      && variants == |payloads| && pattern.Some? && pattern.value < variants
      && (binder.Some? <==> payloads[pattern.value]) && (binder.Some? ==> binder.value.owner)
  }

  /** A wildcard arm comes last, so there is at most one. */
  predicate WildcardLast(arms: Arms)
  {
    arms.Arm? ==> (arms.pattern.None? ==> arms.rest.NoArms?) && WildcardLast(arms.rest)
  }

  predicate SubjectFits(subject: Expr, ty: Ty, variants: nat)
  {
    ty.Owns? ==> subject.Move? && ty.ty.OwningEnum? && |ty.ty.payloads| == variants > 0
  }

  function CheckStmt(s: Stmt, c: seq<Info>, start: nat, d: nat): Checked<seq<Info>>
    decreases s, 0
  {
    match s
    case Let(x, e, owner) =>
      var t :- CheckExpr(e, c, d);
      var _ :- Require(Fresh(c, start, x) && owner == t.ty.Owns?);
      Accepted(t.ctx + [Info(x, OwnedType(t.ty), false, d)])
    case Assign(x, e) =>
      var _ :- Require(IsPlain(c, x));
      var t :- PlainOnly(CheckExpr(e, c, d));
      Accepted(t.ctx)
    case ExprStmt(e) =>
      var t :- PlainOnly(CheckExpr(e, c, d));
      Accepted(t.ctx)
    case Return(None) => Accepted(c)
    case Return(Some(e)) =>
      var t :- CheckExpr(e, c, d);
      Accepted(t.ctx)
    case If(cond, thn, els) =>
      var t :- PlainOnly(CheckExpr(cond, c, d));
      var a :- CheckScope(thn, t.ctx, [], d);
      var b :- CheckElse(els, t.ctx, start, d);
      Accepted(Join(t.ctx, a, AlwaysReturns(thn), b, ElseReturns(els)))
    case While(cond, body) =>
      var t :- PlainOnly(CheckExpr(cond, c, d));
      CheckScope(body, t.ctx, [], d + 1)
    case For(x, lo, hi, _, body) =>
      var t :- PlainOnly(CheckExpr(lo, c, d));
      var u :- PlainOnly(CheckExpr(hi, t.ctx, d));
      CheckScope(body, u.ctx, [Info(x, None, false, 0)], d + 1)
    case Block(body) => CheckScope(body, c, [], d)
    case Break =>
      var _ :- Require(d > 0);
      Accepted(c)
    case Continue =>
      var _ :- Require(d > 0);
      Accepted(c)
    case Defer(e) =>
      var _ :- Require(!HasTry(e));
      var t :- PlainOnly(CheckExpr(e, c, d));
      Accepted(t.ctx)
    case Match(subject, variants, arms) =>
      var t :- CheckExpr(subject, c, d);
      var _ :- Require(SubjectFits(subject, t.ty, variants) && Covered(variants, arms) && WildcardLast(arms));
      var r :- CheckArms(arms, variants, t.ty, t.ctx, d);
      Accepted(if r.Some? then r.value else t.ctx)
  }

  function CheckStmts(ss: Stmts, c: seq<Info>, start: nat, d: nat): Checked<seq<Info>>
    decreases ss, 0
  {
    match ss
    case Done => Accepted(c)
    case Then(s, rest) =>
      var c1 :- CheckStmt(s, c, start, d);
      CheckStmts(rest, c1, start, d)
  }

  /** A nested scope: its own bindings disappear, its moves of outer bindings stay. */
  function CheckScope(body: Stmts, c: seq<Info>, own: seq<Info>, d: nat): Checked<seq<Info>>
    decreases body, 1
  {
    var c1 :- CheckStmts(body, c + own, |c|, d);
    Accepted(Keep(c1, |c|))
  }

  function CheckElse(els: Else, c: seq<Info>, start: nat, d: nat): Checked<seq<Info>>
    decreases els, 0
  {
    match els
    case NoElse => Accepted(c)
    case ElseBlock(body) => CheckScope(body, c, [], d)
    case ElseIf(chained) =>
      var _ :- Require(chained.If?);
      CheckStmt(chained, c, start, d)
  }

  /** Every arm starts from the same state; arms that always return are left out of the merge. */
  function CheckArms(arms: Arms, variants: nat, subject: Ty, c: seq<Info>, d: nat): Checked<Option<seq<Info>>>
    decreases arms, 0
  {
    match arms
    case NoArms => Accepted(None)
    case Arm(pattern, binder, body, rest) =>
      var _ :- Require(ArmFits(subject, variants, pattern, binder));
      var a :- CheckScope(body, c, BinderInfo(binder, d), d);
      var b :- CheckArms(rest, variants, subject, c, d);
      Accepted(if AlwaysReturns(body) then b else if b.Some? then Some(Merge(a, b.value)) else Some(a))
  }

  // ----- functions -----

  function ParamInfos(params: seq<Param>, types: seq<OwnType>): seq<Info>
    requires |types| == |params|
  {
    if params == [] then []
    else
      var n := |params| - 1;
      ParamInfos(params[..n], types[..n])
      + [Info(params[n].name, if params[n].owner then Some(types[n]) else None, false, 0)]
  }

  /** The checker accepts f; `types` gives the types of its owning parameters. */
  predicate Accepts(f: Function, types: seq<OwnType>)
  {
    && |types| == |f.params|
    && CheckStmts(f.body, ParamInfos(f.params, types), 0, 0).Accepted?
    && (!f.isVoid ==> AlwaysReturns(f.body))
  }
}
