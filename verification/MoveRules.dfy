/** What the move checker accepts. An expression is a row of uses of names, each of which is fine or
    not by what its innermost binding is; a body is a set of routes, and the checker accepts it
    exactly when every single route is fine, so that merging the branches costs no precision. */
module MoveRules {
  import opened MortSyntax
  import opened CleanupLowering
  import opened CleanupProof
  import opened ReturnFlow
  import opened MoveAnalysis
  import opened CheckerFacts

  // ----- the uses of an expression -----

  /** A name that is read or written as a plain value, read through an owner, or moved. */
  datatype Use = Plain(x: Name) | Lend(x: Name) | Give(x: Name)

  /** In evaluation order. */
  function Uses(e: Expr): seq<Use>
  {
    match e
    case Local(x) => [Plain(x)]
    case Borrow(x) => [Lend(x)]
    case Move(x) => [Give(x)]
    case Binary(_, l, r) => Uses(l) + Uses(r)
    case AndAlso(l, r) => Uses(l) + Uses(r)
    case OrElse(l, r) => Uses(l) + Uses(r)
    case Not(o) => Uses(o)
    case Call(_, a) => Uses(a)
    case StoreTo(x, a) => [Plain(x)] + Uses(a)
    case Try(o) => Uses(o)
    case _ => []
  }

  predicate YieldsOwner(e: Expr) { e.Move? || e.New? }

  /** Owners are no operands, new enums name one of their variants, and no temporaries occur. */
  predicate Shaped(e: Expr)
  {
    match e
    case New(ty, tag) => ty.OwningEnum? ==> tag < |ty.payloads|
    case Binary(_, l, r) => Shaped(l) && Shaped(r) && !YieldsOwner(l) && !YieldsOwner(r)
    case AndAlso(l, r) => Shaped(l) && Shaped(r) && !YieldsOwner(l) && !YieldsOwner(r)
    case OrElse(l, r) => Shaped(l) && Shaped(r) && !YieldsOwner(l) && !YieldsOwner(r)
    case Not(o) => Shaped(o) && !YieldsOwner(o)
    case Call(_, a) => Shaped(a)
    case StoreTo(_, a) => Shaped(a) && !YieldsOwner(a)
    case Try(o) => Shaped(o) && !YieldsOwner(o)
    case _ => !e.TempVar? && !e.IsErr? && !e.OkOf? && !e.TagIs? && !e.PayloadOf?
  }

  predicate Innermost(c: seq<Info>, x: Name, i: nat)
  {
    i < |c| && c[i].name == x && forall j | i < j < |c| :: c[j].name != x
  }

  lemma {:induction false} InnermostIsLookup(c: seq<Info>, x: Name, i: nat)
    ensures Innermost(c, x, i) <==> Lookup(c, x) == i
  {
  }

  /** The k-th use, after those before it, in the bindings c at loop depth d. */
  ghost predicate UseOk(us: seq<Use>, k: nat, c: seq<Info>, d: nat)
    requires k < |us|
  {
    match us[k]
    case Plain(x) => forall i: nat | Innermost(c, x, i) :: c[i].ty.None?
    case Lend(x) => exists i: nat :: Innermost(c, x, i) && c[i].ty.Some? && !c[i].moved && Give(x) !in us[..k]
    case Give(x) =>
      exists i: nat :: Innermost(c, x, i) && c[i].ty.Some? && !c[i].moved && Give(x) !in us[..k] && c[i].depth >= d
  }

  ghost predicate UsesOk(us: seq<Use>, c: seq<Info>, d: nat)
  {
    forall k: nat | k < |us| :: UseOk(us, k, c, d)
  }

  /** The bindings after these uses: those that were given away are moved, and nothing else changes. */
  ghost predicate After(us: seq<Use>, c: seq<Info>, c1: seq<Info>)
  {
    && |c1| == |c|
    && forall i | 0 <= i < |c| :: c1[i] == c[i].(moved := c[i].moved || (Innermost(c, c[i].name, i) && Give(c[i].name) in us))
  }

  /** Bindings that differ at most in their flags. */
  predicate Alike(a: seq<Info>, b: seq<Info>)
  {
    |a| == |b| && forall i | 0 <= i < |a| :: a[i] == b[i].(moved := a[i].moved)
  }

  lemma {:induction false} AlikeInnermost(a: seq<Info>, b: seq<Info>, x: Name, i: nat)
    requires Alike(a, b)
    ensures Innermost(a, x, i) <==> Innermost(b, x, i)
  {
  }

  lemma {:induction false} AfterIsAlike(us: seq<Use>, c: seq<Info>, c1: seq<Info>)
    requires After(us, c, c1)
    ensures Alike(c1, c)
  {
  }

  lemma {:induction false} UseOkCat(us: seq<Use>, vs: seq<Use>, k: nat, c: seq<Info>, c1: seq<Info>, d: nat)
    requires After(us, c, c1) && k < |vs|
    ensures UseOk(us + vs, |us| + k, c, d) <==> UseOk(vs, k, c1, d)
  {
    AfterIsAlike(us, c, c1);
    forall x, i: nat ensures Innermost(c1, x, i) <==> Innermost(c, x, i) { AlikeInnermost(c1, c, x, i); }
    assert (us + vs)[..|us| + k] == us + vs[..k];
    var x := vs[k].x;
    if vs[k].Plain? {
      assert forall i: nat | Innermost(c, x, i) :: c1[i].ty == c[i].ty;
    } else {
      if i: nat :| Innermost(c, x, i) {
        assert c1[i] == c[i].(moved := c[i].moved || Give(x) in us);
        assert UseOk(us + vs, |us| + k, c, d) ==> c[i].ty.Some?;
      }
    }
  }

  lemma {:induction false} UseOkHead(us: seq<Use>, vs: seq<Use>, k: nat, c: seq<Info>, d: nat)
    requires k < |us|
    ensures UseOk(us + vs, k, c, d) <==> UseOk(us, k, c, d)
  {
    assert (us + vs)[..k] == us[..k];
  }

  lemma {:induction false} UsesOkCat(us: seq<Use>, vs: seq<Use>, c: seq<Info>, c1: seq<Info>, d: nat)
    requires After(us, c, c1)
    ensures UsesOk(us + vs, c, d) <==> UsesOk(us, c, d) && UsesOk(vs, c1, d)
  {
    hide UseOk, After;
    forall k: nat | k < |us| ensures UseOk(us + vs, k, c, d) <==> UseOk(us, k, c, d) { UseOkHead(us, vs, k, c, d); }
    forall k: nat | k < |vs| ensures UseOk(us + vs, |us| + k, c, d) <==> UseOk(vs, k, c1, d) { UseOkCat(us, vs, k, c, c1, d); }
    if UsesOk(us + vs, c, d) {
      forall k: nat | k < |vs| ensures UseOk(vs, k, c1, d) { assert UseOk(us + vs, |us| + k, c, d); }
    }
    if UsesOk(us, c, d) && UsesOk(vs, c1, d) {
      forall k: nat | k < |us + vs| ensures UseOk(us + vs, k, c, d) {
        if k >= |us| { assert UseOk(vs, k - |us|, c1, d); assert k == |us| + (k - |us|); }
      }
    }
  }

  lemma {:induction false} AfterCat(us: seq<Use>, vs: seq<Use>, c: seq<Info>, c1: seq<Info>, c2: seq<Info>)
    requires After(us, c, c1) && After(vs, c1, c2)
    ensures After(us + vs, c, c2)
  {
    AfterIsAlike(us, c, c1);
    forall i | 0 <= i < |c|
      ensures c2[i] == c[i].(moved := c[i].moved || (Innermost(c, c[i].name, i) && Give(c[i].name) in us + vs))
    {
      AlikeInnermost(c1, c, c[i].name, i);
    }
  }

  /** What the value of an expression is: an owner moved or built, or something that is copied. */
  function TypeIn(e: Expr, c: seq<Info>): Ty
  {
    match e
    case Move(x) =>
      var i := Lookup(c, x);
      if i >= 0 && c[i].ty.Some? then Owns(c[i].ty.value) else Copyable
    case New(ty, _) => Owns(ty)
    case _ => Copyable
  }

  /** What the checker accepts, and what it then knows. */
  ghost predicate Judged(e: Expr, c: seq<Info>, d: nat, r: Checked<Typed>)
  {
    && (r.Accepted? <==> Shaped(e) && UsesOk(Uses(e), c, d))
    && (r.Accepted? ==> r.value.ty == TypeIn(e, c) && After(Uses(e), c, r.value.ctx))
  }

  /** The checker accepts an expression exactly when it is well shaped and every one of its uses is
      fine, and marks exactly what was given away. */
  lemma {:induction false} ExprAcceptedIff(e: Expr, c: seq<Info>, d: nat)
    ensures Judged(e, c, d, CheckExpr(e, c, d))
    decreases e, 1
  {
    match e
    case Local(x) => PlainJudged(x, c, d);
    case Borrow(x) => LendJudged(x, c, d);
    case Move(x) => GiveJudged(x, c, d);
    case New(_, _) => NothingJudged(c, d);
    case Binary(_, l, r) => PairJudged(e, l, r, c, d);
    case AndAlso(l, r) => PairJudged(e, l, r, c, d);
    case OrElse(l, r) => PairJudged(e, l, r, c, d);
    case Not(o) => ExprAcceptedIff(o, c, d);
    case Call(_, a) => ExprAcceptedIff(a, c, d);
    case StoreTo(x, a) =>
      ExprAcceptedIff(a, c, d);
      StoreJudged(x, a, c, d);
    case Try(o) => ExprAcceptedIff(o, c, d);
    case _ => NothingJudged(c, d);
  }

  lemma {:induction false} NothingJudged(c: seq<Info>, d: nat)
    ensures UsesOk([], c, d) && After([], c, c)
  {
  }

  lemma {:induction false} PlainJudged(x: Name, c: seq<Info>, d: nat)
    ensures UsesOk([Plain(x)], c, d) <==> IsPlain(c, x)
    ensures After([Plain(x)], c, c)
  {
    var us := [Plain(x)];
    assert UsesOk(us, c, d) <==> UseOk(us, 0, c, d);
    forall i: nat ensures Innermost(c, x, i) <==> Lookup(c, x) == i { InnermostIsLookup(c, x, i); }
  }

  lemma {:induction false} LendJudged(x: Name, c: seq<Info>, d: nat)
    ensures Judged(Borrow(x), c, d, CheckExpr(Borrow(x), c, d))
  {
    var us := [Lend(x)];
    assert UsesOk(us, c, d) <==> UseOk(us, 0, c, d);
    forall i: nat ensures Innermost(c, x, i) <==> Lookup(c, x) == i { InnermostIsLookup(c, x, i); }
  }

  lemma {:induction false} GiveJudged(x: Name, c: seq<Info>, d: nat)
    ensures Judged(Move(x), c, d, CheckExpr(Move(x), c, d))
  {
    var us := [Give(x)];
    assert UsesOk(us, c, d) <==> UseOk(us, 0, c, d);
    forall i: nat ensures Innermost(c, x, i) <==> Lookup(c, x) == i { InnermostIsLookup(c, x, i); }
    forall i: nat | i < |c| && Give(c[i].name) in us && Innermost(c, c[i].name, i) ensures i == Lookup(c, x) {}
  }

  lemma {:induction false} StoreJudged(x: Name, a: Expr, c: seq<Info>, d: nat)
    requires Judged(a, c, d, CheckExpr(a, c, d))
    ensures Judged(StoreTo(x, a), c, d, CheckExpr(StoreTo(x, a), c, d))
  {
    hide UsesOk, After;
    PlainJudged(x, c, d);
    UsesOkCat([Plain(x)], Uses(a), c, c, d);
    var r := CheckExpr(a, c, d);
    if r.Accepted? { AfterCat([Plain(x)], Uses(a), c, c, r.value.ctx); }
    OwnerIsSeen(a, c, d);
  }

  /** An accepted expression has an owner as its value exactly if it is a move or a new value. */
  lemma {:induction false} OwnerIsSeen(e: Expr, c: seq<Info>, d: nat)
    ensures CheckExpr(e, c, d).Accepted? ==> (CheckExpr(e, c, d).value.ty.Owns? <==> YieldsOwner(e))
  {
  }

  lemma {:induction false} PairJudged(e: Expr, l: Expr, r: Expr, c: seq<Info>, d: nat)
    requires l < e && r < e
    ensures var t := PlainOnly(CheckExpr(l, c, d));
      var u := if t.Accepted? then PlainOnly(CheckExpr(r, t.value.ctx, d)) else Rejected;
      && (u.Accepted? <==> Shaped(l) && Shaped(r) && !YieldsOwner(l) && !YieldsOwner(r) && UsesOk(Uses(l) + Uses(r), c, d))
      && (u.Accepted? ==> u.value.ty == Copyable && After(Uses(l) + Uses(r), c, u.value.ctx))
    decreases e, 0
  {
    ExprAcceptedIff(l, c, d);
    OperandJudged(l, c, d);
    var t := PlainOnly(CheckExpr(l, c, d));
    hide UsesOk, After, PlainOnly, CheckExpr, Shaped, Uses;
    if t.Accepted? {
      var c1 := t.value.ctx;
      ExprAcceptedIff(r, c1, d);
      OperandJudged(r, c1, d);
      UsesOkCat(Uses(l), Uses(r), c, c1, d);
      var u := PlainOnly(CheckExpr(r, c1, d));
      if u.Accepted? { AfterCat(Uses(l), Uses(r), c, c1, u.value.ctx); }
    } else if UsesOk(Uses(l) + Uses(r), c, d) {
      PrefixOk(Uses(l), Uses(r), c, d);
    }
  }

  lemma {:induction false} OperandJudged(e: Expr, c: seq<Info>, d: nat)
    requires Judged(e, c, d, CheckExpr(e, c, d))
    ensures var t := PlainOnly(CheckExpr(e, c, d));
      && (t.Accepted? <==> Shaped(e) && !YieldsOwner(e) && UsesOk(Uses(e), c, d))
      && (t.Accepted? ==> t.value.ty == Copyable && After(Uses(e), c, t.value.ctx))
  {
    OwnerIsSeen(e, c, d);
  }

  lemma {:induction false} PrefixOk(us: seq<Use>, vs: seq<Use>, c: seq<Info>, d: nat)
    requires UsesOk(us + vs, c, d)
    ensures UsesOk(us, c, d)
  {
    forall k: nat | k < |us| ensures UseOk(us, k, c, d) {
      assert UseOk(us + vs, k, c, d);
      UseOkHead(us, vs, k, c, d);
    }
  }

  /** A move is accepted exactly when the innermost binding of the name is an owner that has not been
      moved and was declared at this loop depth or further in; then its flag is set and no other. */
  lemma {:induction false} MoveAcceptedIff(x: Name, c: seq<Info>, d: nat)
    ensures CheckExpr(Move(x), c, d).Accepted? <==>
      exists i: nat :: Innermost(c, x, i) && c[i].ty.Some? && !c[i].moved && c[i].depth >= d
    ensures forall i: nat | CheckExpr(Move(x), c, d).Accepted? && Innermost(c, x, i) ::
      CheckExpr(Move(x), c, d).value == Typed(Owns(c[i].ty.value), c[i := c[i].(moved := true)])
  {
    forall i: nat ensures Innermost(c, x, i) <==> Lookup(c, x) == i { InnermostIsLookup(c, x, i); }
  }
}
