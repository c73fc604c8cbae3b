/** Conservation of resources by expressions and by cleanup: at every point, the resources held by
    live bindings, those given away or destroyed, and the value in flight add up to those created. */
module OwnershipFacts {
  import opened MortSyntax
  import opened MortSemantics
  import opened EvaluationFacts
  import opened SourceFacts
  import opened MoveAnalysis

  // ----- the ledger: how often the resource k is accounted for -----

  function Held(v: Value, k: nat): nat
  {
    if v.Own? then multiset(v.ids)[k] else 0
  }

  function HeldBy(r: Evald, k: nat): nat
  {
    if r.Got? then Held(r.v, k) else 0
  }

  function CellHeld(c: Cell, k: nat): nat
  {
    if c.flag == Live then Held(c.value, k) else 0
  }

  function LiveHeld(env: seq<Cell>, k: nat): nat
  {
    if env == [] then 0 else LiveHeld(env[..|env| - 1], k) + CellHeld(env[|env| - 1], k)
  }

  /** A resource leaves the function's hands when it is passed to a call or destroyed. */
  function EventReleases(e: Event, k: nat): nat
  {
    match e
    case Called(_, v) => Held(v, k)
    case Dropped(v) => Held(v, k)
  }

  function Released(trace: seq<Event>, k: nat): nat
  {
    if trace == [] then 0 else Released(trace[..|trace| - 1], k) + EventReleases(trace[|trace| - 1], k)
  }

  function Balance(st: State, k: nat): nat
  {
    LiveHeld(st.env, k) + Released(st.trace, k)
  }

  /** Whether k was issued between two readings of the creation counter. */
  function Created(from: nat, to: nat, k: nat): nat
  {
    if from <= k < to then 1 else 0
  }

  lemma FreshIdsAre(start: nat, n: nat, k: nat)
    ensures multiset(FreshIds(start, n))[k] == Created(start, start + n, k)
  {
  }

  lemma ReleasedAppend(trace: seq<Event>, e: Event, k: nat)
    ensures Released(trace + [e], k) == Released(trace, k) + EventReleases(e, k)
  {
    assert (trace + [e])[..|trace|] == trace;
  }

  lemma LiveHeldAppend(env: seq<Cell>, c: Cell, k: nat)
    ensures LiveHeld(env + [c], k) == LiveHeld(env, k) + CellHeld(c, k)
  {
    assert (env + [c])[..|env|] == env;
  }

  lemma {:induction false} LiveHeldUpdate(env: seq<Cell>, i: nat, c: Cell, k: nat)
    requires i < |env|
    ensures LiveHeld(env[i := c], k) + CellHeld(env[i], k) == LiveHeld(env, k) + CellHeld(c, k)
  {
    var n := |env| - 1;
    if i == n {
      assert env[i := c][..n] == env[..n];
    } else {
      assert env[i := c][..n] == env[..n][i := c];
      LiveHeldUpdate(env[..n], i, c, k);
    }
  }

  lemma LiveHeldNone(env: seq<Cell>, k: nat)
    requires forall i | 0 <= i < |env| :: env[i].flag == NoFlag
    ensures LiveHeld(env, k) == 0
  {
  }

  // ----- the checker's view against the machine -----

  predicate HasType(v: Value, ty: OwnType)
  {
    && v.Own?
    && (ty.OwningEnum? ==> v.tag < |ty.payloads| && (!ty.payloads[v.tag] ==> v.ids == []))
  }

  predicate CellFits(info: Info, cell: Cell)
  {
    && info.name == cell.name
    && (info.ty.Some? <==> cell.flag != NoFlag)
    && (info.ty.Some? ==> HasType(cell.value, info.ty.value))
    && (info.ty.None? ==> !cell.value.Own?)
  }

  /** The bindings above the globals are those the checker knows; globals own nothing. */
  predicate Shape(c: seq<Info>, env: seq<Cell>, base: nat)
  {
    && |env| == base + |c|
    && (forall i | 0 <= i < base :: env[i].flag == NoFlag && !env[i].value.Own?)
    && (forall i | 0 <= i < |c| :: CellFits(c[i], env[base + i]))
  }

  /** What the checker holds as not moved is live at run time. */
  predicate Tracks(c: seq<Info>, env: seq<Cell>, base: nat)
  {
    && Shape(c, env, base)
    && forall i | 0 <= i < |c| && c[i].ty.Some? && !c[i].moved :: env[base + i].flag == Live
  }

  /** The same bindings; more of them may be moved, but none declared outside the current loop. */
  predicate MovedMore(a: seq<Info>, b: seq<Info>, d: nat)
  {
    && |a| == |b|
    && forall i | 0 <= i < |a| ::
         && b[i] == a[i].(moved := b[i].moved)
         && (a[i].moved ==> b[i].moved)
         && (a[i].depth < d ==> b[i].moved == a[i].moved)
  }

  /** The flags of bindings declared outside the current loop are untouched. */
  predicate OuterFlagsKept(c: seq<Info>, a: seq<Cell>, b: seq<Cell>, base: nat, d: nat)
  {
    |a| >= base + |c| && |b| >= base + |c| &&
    forall i | 0 <= i < |c| && c[i].depth < d :: b[base + i].flag == a[base + i].flag
  }

  lemma {:induction false} LookupFind(c: seq<Info>, env: seq<Cell>, base: nat, x: Name)
    requires Shape(c, env, base)
    ensures Lookup(c, x) >= 0 ==> Find(env, x) == base + Lookup(c, x)
    ensures Lookup(c, x) < 0 ==> Find(env, x) < base
  {
    var i := Find(env, x);
    if i >= base {
      assert c[i - base].name == x;
    }
    var j := Lookup(c, x);
    if j >= 0 {
      assert env[base + j].name == x;
      assert i >= base + j;
    }
  }

  lemma {:induction false} LookupFlag(c: seq<Info>, env: seq<Cell>, base: nat, x: Name)
    requires Shape(c, env, base) && Lookup(c, x) >= 0 && c[Lookup(c, x)].ty.Some?
    ensures FindFlag(env, x) == base + Lookup(c, x)
  {
    LookupFind(c, env, base, x);
    FlagAtFind(env, x);
  }

  lemma {:induction false} FlagAtFind(env: seq<Cell>, x: Name)
    requires Find(env, x) >= 0 && env[Find(env, x)].flag != NoFlag
    ensures FindFlag(env, x) == Find(env, x)
  {
    if env[|env| - 1].name != x { FlagAtFind(env[..|env| - 1], x); }
  }

  lemma MovedMoreTrans(a: seq<Info>, b: seq<Info>, c: seq<Info>, d: nat)
    requires MovedMore(a, b, d) && MovedMore(b, c, d)
    ensures MovedMore(a, c, d)
  {
    forall i | 0 <= i < |a|
      ensures c[i] == a[i].(moved := c[i].moved)
      ensures a[i].moved ==> c[i].moved
      ensures a[i].depth < d ==> c[i].moved == a[i].moved
    {
      assert b[i] == a[i].(moved := b[i].moved);
      assert c[i] == b[i].(moved := c[i].moved);
    }
  }

  lemma {:induction false} OuterFlagsTrans(c: seq<Info>, c1: seq<Info>, x: seq<Cell>, y: seq<Cell>, z: seq<Cell>, base: nat, d: nat)
    requires MovedMore(c, c1, d) && OuterFlagsKept(c, x, y, base, d) && OuterFlagsKept(c1, y, z, base, d)
    ensures OuterFlagsKept(c, x, z, base, d)
  {
    forall i | 0 <= i < |c| && c[i].depth < d ensures z[base + i].flag == x[base + i].flag {
      assert c1[i] == c[i].(moved := c1[i].moved);
    }
  }

  lemma TracksMoved(c: seq<Info>, c1: seq<Info>, env: seq<Cell>, base: nat, d: nat)
    requires Tracks(c, env, base) && MovedMore(c, c1, d)
    ensures Tracks(c1, env, base)
  {
  }

  // ----- expressions -----

  predicate ValueFits(t: Ty, v: Value)
  {
    match t
    case Copyable => !v.Own?
    case Owns(ty) => HasType(v, ty)
  }

  /** What evaluating an accepted expression guarantees. */
  predicate ExprOwns(t: Typed, c: seq<Info>, d: nat, base: nat, st: State, r: Evald, st1: State, k: nat)
  {
    && MovedMore(c, t.ctx, d)
    && Tracks(t.ctx, st1.env, base)
    && OuterFlagsKept(c, st.env, st1.env, base, d)
    && (r.Got? ==> ValueFits(t.ty, r.v))
    && st.nextId <= st1.nextId
    && Balance(st1, k) + HeldBy(r, k) == Balance(st, k) + Created(st.nextId, st1.nextId, k)
    && st1.fault == st.fault
  }

  lemma {:induction false} ReadPlainOwns(x: Name, c: seq<Info>, d: nat, base: nat, st: State, k: nat)
    requires Tracks(c, st.env, base) && IsPlain(c, x)
    ensures ExprOwns(Typed(Copyable, c), c, d, base, st, Got(ReadCell(st, x)), NoteRead(st, x), k)
  {
    LookupFind(c, st.env, base, x);
  }

  lemma {:induction false} MoveOwns(x: Name, c: seq<Info>, d: nat, base: nat, st: State, k: nat)
    requires Tracks(c, st.env, base) && CheckExpr(Move(x), c, d).Accepted?
    ensures ExprOwns(CheckExpr(Move(x), c, d).value, c, d, base, st, Eval(Move(x), st).0, Eval(Move(x), st).1, k)
  {
    var i := Lookup(c, x);
    LookupFind(c, st.env, base, x);
    LookupFlag(c, st.env, base, x);
    assert CellFits(c[i], st.env[base + i]);
    LiveHeldUpdate(st.env, base + i, st.env[base + i].(flag := Dead), k);
    var t := CheckExpr(Move(x), c, d).value;
    var st1 := Eval(Move(x), st).1;
    assert st1.env == st.env[base + i := st.env[base + i].(flag := Dead)];
    forall n | 0 <= n < |c| ensures CellFits(t.ctx[n], st1.env[base + n]) {
      assert CellFits(c[n], st.env[base + n]);
    }
  }

  lemma {:induction false} NewOwns(ty: OwnType, tag: nat, c: seq<Info>, d: nat, base: nat, st: State, k: nat)
    requires Tracks(c, st.env, base) && WellTagged(ty, tag)
    ensures ExprOwns(Typed(Owns(ty), c), c, d, base, st, Eval(New(ty, tag), st).0, Eval(New(ty, tag), st).1, k)
  {
    FreshIdsAre(st.nextId, FreshCount(ty, tag), k);
  }

  lemma {:induction false} CallOwns(f: Name, v: Value, t: Typed, c: seq<Info>, d: nat, base: nat, st: State, st1: State, k: nat)
    requires ExprOwns(t, c, d, base, st, Got(v), st1, k)
    ensures ExprOwns(Typed(Copyable, t.ctx), c, d, base, st, Got(CallOut(f, v, st1).0), CallOut(f, v, st1).1, k)
  {
    ReleasedAppend(st1.trace, Called(f, v), k);
  }

  /** Writing a plain binding moves no resource and touches no flag. */
  lemma {:induction false} WritePlain(x: Name, v: Value, c: seq<Info>, base: nat, st: State, k: nat)
    requires Shape(c, st.env, base) && IsPlain(c, x) && !v.Own?
    ensures var st1 := WriteCell(st, x, v);
      && Shape(c, st1.env, base)
      && (forall n | 0 <= n < |st.env| :: st1.env[n].flag == st.env[n].flag)
      && Balance(st1, k) == Balance(st, k) && st1 == st.(env := st1.env)
  {
    LookupFind(c, st.env, base, x);
    var i := Find(st.env, x);
    if i >= 0 {
      if i >= base { assert CellFits(c[i - base], st.env[i]); }
      LiveHeldUpdate(st.env, i, st.env[i].(value := v), k);
      var env2 := st.env[i := st.env[i].(value := v)];
      forall n | 0 <= n < |c| ensures CellFits(c[n], env2[base + n]) {
        assert CellFits(c[n], st.env[base + n]);
      }
    }
  }

  lemma {:induction false} StoreOwns(x: Name, v: Value, t: Typed, c: seq<Info>, d: nat, base: nat, st: State, st1: State, k: nat)
    requires ExprOwns(t, c, d, base, st, Got(v), st1, k) && t.ty.Copyable? && IsPlain(c, x)
    ensures ExprOwns(Typed(Copyable, t.ctx), c, d, base, st, Got(Num(0)), WriteCell(st1, x, v), k)
  {
    hide WriteCell, Balance, IsPlain, MovedMore, CellFits;
    LookupMoved(c, t.ctx, d, x);
    WritePlain(x, v, t.ctx, base, st1, k);
  }

  lemma {:induction false} LookupMoved(c: seq<Info>, c1: seq<Info>, d: nat, x: Name)
    requires MovedMore(c, c1, d)
    ensures Lookup(c, x) == Lookup(c1, x)
    ensures IsPlain(c, x) == IsPlain(c1, x)
  {
    SameLookup(c, c1, x);
    var i := Lookup(c, x);
    if i >= 0 { assert c1[i] == c[i].(moved := c1[i].moved); }
  }

  lemma {:induction false} SameLookup(c: seq<Info>, c1: seq<Info>, x: Name)
    requires |c| == |c1| && forall i | 0 <= i < |c| :: c[i].name == c1[i].name
    ensures Lookup(c, x) == Lookup(c1, x)
  {
  }

  /** Two evaluations in a row. */
  lemma {:induction false} ThenOwns(t: Typed, u: Typed, c: seq<Info>, d: nat, base: nat, st: State, a: Evald, st1: State, b: Evald, st2: State, k: nat)
    requires ExprOwns(t, c, d, base, st, a, st1, k) && ExprOwns(u, t.ctx, d, base, st1, b, st2, k)
    requires HeldBy(a, k) == 0
    ensures ExprOwns(u, c, d, base, st, b, st2, k)
  {
    MovedMoreTrans(c, t.ctx, u.ctx, d);
    OuterFlagsTrans(c, t.ctx, st.env, st1.env, st2.env, base, d);
  }

  lemma {:induction false} PairChecks(e: Expr, l: Expr, r: Expr, c: seq<Info>, d: nat)
    requires e == AndAlso(l, r) || e == OrElse(l, r) || (e.Binary? && e.left == l && e.right == r)
    requires CheckExpr(e, c, d).Accepted?
    ensures var t := CheckExpr(l, c, d);
      && t.Accepted? && t.value.ty.Copyable?
      && CheckExpr(r, t.value.ctx, d).Accepted? && CheckExpr(r, t.value.ctx, d).value.ty.Copyable?
      && CheckExpr(e, c, d) == CheckExpr(r, t.value.ctx, d)
  {
  }

  lemma {:induction false} PairEvals(e: Expr, l: Expr, r: Expr, st: State)
    requires e == AndAlso(l, r) || e == OrElse(l, r) || (e.Binary? && e.left == l && e.right == r)
    ensures var (a, st1) := Eval(l, st);
      var b := Eval(r, st1);
      || Eval(e, st) == (a, st1)
      || (a.Got? && Eval(e, st) == (b.0, b.1))
      || (a.Got? && b.0.Got? && e.Binary? && Eval(e, st) == (Got(Apply(e.op, a.v, b.0.v)), b.1))
  {
    hide Eval;
    if e.Binary? {
      var op := e.op;
      assert e == Binary(op, l, r);
      EvalBinary(op, l, r, st);
      var (a, st1) := Eval(l, st);
      var (b, st2) := Eval(r, st1);
      assert Eval(e, st) == if a.Failed? then (a, st1) else if b.Failed? then (b, st2) else (Got(Apply(op, a.v, b.v)), st2);
      if a.Got? && b.Got? { assert Eval(e, st) == (Got(Apply(e.op, a.v, b.v)), st2); }
    } else {
      EvalLazy(e.AndAlso?, l, r, st);
      assert e == Lazy(e.AndAlso?, l, r);
    }
  }

  /** Stopping after the first of two evaluations the checker went through. */
  lemma {:induction false} StopOwns(t: Typed, u: Typed, c: seq<Info>, d: nat, base: nat, st: State, a: Evald, st1: State, k: nat)
    requires ExprOwns(t, c, d, base, st, a, st1, k) && MovedMore(t.ctx, u.ctx, d)
    requires a.Got? ==> ValueFits(u.ty, a.v)
    ensures ExprOwns(u, c, d, base, st, a, st1, k)
  {
    MovedMoreTrans(c, t.ctx, u.ctx, d);
    TracksMoved(t.ctx, u.ctx, st1.env, base, d);
  }

  lemma {:induction false} CheckMovesMore(e: Expr, c: seq<Info>, d: nat)
    requires CheckExpr(e, c, d).Accepted?
    ensures MovedMore(c, CheckExpr(e, c, d).value.ctx, d)
    decreases e, 1
  {
    match e
    case Binary(_, l, r) => CheckPairMovesMore(e, l, r, c, d);
    case AndAlso(l, r) => CheckPairMovesMore(e, l, r, c, d);
    case OrElse(l, r) => CheckPairMovesMore(e, l, r, c, d);
    case Not(o) => CheckMovesMore(o, c, d);
    case Call(_, a) => CheckMovesMore(a, c, d);
    case StoreTo(_, a) => CheckMovesMore(a, c, d);
    case Try(o) => CheckMovesMore(o, c, d);
    case _ =>
  }

  lemma {:induction false} CheckPairMovesMore(e: Expr, l: Expr, r: Expr, c: seq<Info>, d: nat)
    requires l < e && r < e && CheckExpr(l, c, d).Accepted?
    requires CheckExpr(r, CheckExpr(l, c, d).value.ctx, d).Accepted?
    ensures MovedMore(c, CheckExpr(r, CheckExpr(l, c, d).value.ctx, d).value.ctx, d)
    decreases e, 0
  {
    var t := CheckExpr(l, c, d).value;
    CheckMovesMore(l, c, d);
    CheckMovesMore(r, t.ctx, d);
    MovedMoreTrans(c, t.ctx, CheckExpr(r, t.ctx, d).value.ctx, d);
  }

  lemma {:induction false} EvalOwns(e: Expr, c: seq<Info>, d: nat, base: nat, st: State, k: nat)
    requires CheckExpr(e, c, d).Accepted? && Tracks(c, st.env, base)
    ensures ExprOwns(CheckExpr(e, c, d).value, c, d, base, st, Eval(e, st).0, Eval(e, st).1, k)
    decreases e, 1
  {
    hide Tracks, MovedMore, OuterFlagsKept, Balance, Shape;
    match e
    case IntLit(_) => StillOwns(c, d, base, st, Num(0), k); 
    case BoolLit(_) => StillOwns(c, d, base, st, Num(0), k);
    case Local(x) => ReadPlainOwns(x, c, d, base, st, k);
    case Borrow(x) => BorrowOwns(x, c, d, base, st, k);
    case Move(x) => MoveOwns(x, c, d, base, st, k);
    case New(ty, tag) => NewOwns(ty, tag, c, d, base, st, k);
    case Binary(op, l, r) => PairOwns(e, l, r, c, d, base, st, k);
    case AndAlso(l, r) => PairOwns(e, l, r, c, d, base, st, k);
    case OrElse(l, r) => PairOwns(e, l, r, c, d, base, st, k);
    case Not(o) => EvalOwns(o, c, d, base, st, k);
    case Call(f, a) =>
      EvalOwns(a, c, d, base, st, k);
      var (r, st1) := Eval(a, st);
      if r.Got? { CallOwns(f, r.v, CheckExpr(a, c, d).value, c, d, base, st, st1, k); }
    case StoreTo(x, a) =>
      EvalOwns(a, c, d, base, st, k);
      var (r, st1) := Eval(a, st);
      if r.Got? { StoreOwns(x, r.v, CheckExpr(a, c, d).value, c, d, base, st, st1, k); }
    case Try(o) => EvalOwns(o, c, d, base, st, k);
  }

  lemma {:induction false} StillOwns(c: seq<Info>, d: nat, base: nat, st: State, v: Value, k: nat)
    requires Tracks(c, st.env, base) && !v.Own?
    ensures MovedMore(c, c, d) && OuterFlagsKept(c, st.env, st.env, base, d)
    ensures ExprOwns(Typed(Copyable, c), c, d, base, st, Got(v), st, k)
  {
  }

  lemma {:induction false} BorrowOwns(x: Name, c: seq<Info>, d: nat, base: nat, st: State, k: nat)
    requires Tracks(c, st.env, base) && CheckExpr(Borrow(x), c, d).Accepted?
    ensures ExprOwns(Typed(Copyable, c), c, d, base, st, Eval(Borrow(x), st).0, Eval(Borrow(x), st).1, k)
  {
    LookupFind(c, st.env, base, x);
  }

  lemma {:induction false} PairOwns(e: Expr, l: Expr, r: Expr, c: seq<Info>, d: nat, base: nat, st: State, k: nat)
    requires e == AndAlso(l, r) || e == OrElse(l, r) || (e.Binary? && e.left == l && e.right == r)
    requires CheckExpr(e, c, d).Accepted? && Tracks(c, st.env, base)
    ensures ExprOwns(CheckExpr(e, c, d).value, c, d, base, st, Eval(e, st).0, Eval(e, st).1, k)
    decreases e, 0
  {
    hide Tracks, MovedMore, OuterFlagsKept, Balance, Shape, Eval, CheckExpr;
    PairChecks(e, l, r, c, d);
    PairEvals(e, l, r, st);
    var t := CheckExpr(l, c, d).value;
    var u := CheckExpr(r, t.ctx, d).value;
    EvalOwns(l, c, d, base, st, k);
    var (a, st1) := Eval(l, st);
    CheckMovesMore(r, t.ctx, d);
    StopOwns(t, u, c, d, base, st, a, st1, k);
    EvalOwns(r, t.ctx, d, base, st1, k);
    var (b, st2) := Eval(r, st1);
    ThenOwns(t, u, c, d, base, st, a, st1, b, st2, k);
  }
}
