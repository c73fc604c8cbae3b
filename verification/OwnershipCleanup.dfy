/** Leaving a scope destroys exactly the resources its own bindings still hold. */
module OwnershipCleanup {
  import opened MortSyntax
  import opened MortSemantics
  import opened EvaluationFacts
  import opened SourceFacts
  import opened MoveAnalysis
  import opened OwnershipFacts

  // ----- deferred expressions -----

  /** Well typed by names and types alone, and transferring no binding. */
  predicate Quiet(e: Expr, c: seq<Info>)
  {
    match e
    case Local(x) => IsPlain(c, x)
    case Move(_) => false
    case New(ty, tag) => WellTagged(ty, tag)
    case Binary(_, l, r) => (!l.New? && Quiet(l, c)) && (!r.New? && Quiet(r, c))
    case AndAlso(l, r) => (!l.New? && Quiet(l, c)) && (!r.New? && Quiet(r, c))
    case OrElse(l, r) => (!l.New? && Quiet(l, c)) && (!r.New? && Quiet(r, c))
    case Not(o) => (!o.New? && Quiet(o, c))
    case Call(_, a) => Quiet(a, c)
    case StoreTo(x, a) => IsPlain(c, x) && (!a.New? && Quiet(a, c))
    case Try(o) => (!o.New? && Quiet(o, c))
    case IntLit(_) => true
    case BoolLit(_) => true
    case Borrow(_) => true
    case _ => false
  }

  predicate NoBorrow(e: Expr)
  {
    match e
    case Borrow(_) => false
    case Binary(_, l, r) => NoBorrow(l) && NoBorrow(r)
    case AndAlso(l, r) => NoBorrow(l) && NoBorrow(r)
    case OrElse(l, r) => NoBorrow(l) && NoBorrow(r)
    case Not(o) => NoBorrow(o)
    case Call(_, a) => NoBorrow(a)
    case StoreTo(_, a) => NoBorrow(a)
    case Try(o) => NoBorrow(o)
    case _ => true
  }

  lemma {:induction false} CheckedIsQuiet(e: Expr, c: seq<Info>, d: nat)
    requires NoMove(e) && CheckExpr(e, c, d).Accepted?
    ensures Quiet(e, c)
    ensures CheckExpr(e, c, d).value.ctx == c
    ensures CheckExpr(e, c, d).value.ty.Owns? <==> e.New?
  {
    match e
    case Binary(_, l, r) => CheckedIsQuiet(l, c, d); CheckedIsQuiet(r, c, d);
    case AndAlso(l, r) => CheckedIsQuiet(l, c, d); CheckedIsQuiet(r, c, d);
    case OrElse(l, r) => CheckedIsQuiet(l, c, d); CheckedIsQuiet(r, c, d);
    case Not(o) => CheckedIsQuiet(o, c, d);
    case Call(_, a) => CheckedIsQuiet(a, c, d);
    case StoreTo(_, a) => CheckedIsQuiet(a, c, d);
    case Try(o) => CheckedIsQuiet(o, c, d);
    case _ =>
  }

  lemma {:induction false} QuietMoved(e: Expr, c: seq<Info>, c1: seq<Info>, d: nat)
    requires Quiet(e, c) && MovedMore(c, c1, d)
    ensures Quiet(e, c1)
  {
    match e
    case Local(x) => LookupMoved(c, c1, d, x);
    case Binary(_, l, r) => QuietMoved(l, c, c1, d); QuietMoved(r, c, c1, d);
    case AndAlso(l, r) => QuietMoved(l, c, c1, d); QuietMoved(r, c, c1, d);
    case OrElse(l, r) => QuietMoved(l, c, c1, d); QuietMoved(r, c, c1, d);
    case Not(o) => QuietMoved(o, c, c1, d);
    case Call(_, a) => QuietMoved(a, c, c1, d);
    case StoreTo(x, a) => LookupMoved(c, c1, d, x); QuietMoved(a, c, c1, d);
    case Try(o) => QuietMoved(o, c, c1, d);
    case _ =>
  }

  /** Owning cells are untouched, flags are untouched. */
  predicate OwnersKept(a: seq<Cell>, b: seq<Cell>)
  {
    |a| == |b| && forall i | 0 <= i < |a| :: b[i].flag == a[i].flag && (a[i].flag != NoFlag ==> b[i] == a[i])
  }

  /** A quiet evaluation gives away only what it creates itself. */
  predicate QuietStep(c: seq<Info>, base: nat, st: State, r: Evald, st1: State, k: nat)
  {
    && Shape(c, st1.env, base) && OwnersKept(st.env, st1.env)
    && st.nextId <= st1.nextId
    && Balance(st1, k) + HeldBy(r, k) == Balance(st, k) + Created(st.nextId, st1.nextId, k)
  }

  lemma {:induction false} QuietStore(x: Name, v: Value, c: seq<Info>, base: nat, st: State, st1: State, k: nat)
    requires Shape(c, st.env, base) && QuietStep(c, base, st, Got(v), st1, k) && IsPlain(c, x) && !v.Own?
    ensures QuietStep(c, base, st, Got(Num(0)), WriteCell(st1, x, v), k)
    ensures WriteCell(st1, x, v).fault == st1.fault
  {
    hide Balance;
    LookupFind(c, st1.env, base, x);
    WritePlain(x, v, c, base, st1, k);
    var i := Find(st1.env, x);
    if i >= base { assert CellFits(c[i - base], st1.env[i]); }
  }

  lemma {:induction false} QuietEval(e: Expr, c: seq<Info>, base: nat, st: State, k: nat)
    requires Quiet(e, c) && Shape(c, st.env, base)
    ensures QuietStep(c, base, st, Eval(e, st).0, Eval(e, st).1, k)
    ensures Eval(e, st).0.Got? && !e.New? ==> !Eval(e, st).0.v.Own?
    ensures NoBorrow(e) ==> Eval(e, st).1.fault == st.fault
    decreases e, 1
  {
    hide Balance, Shape, OwnersKept, Eval;
    match e
    case Binary(_, l, r) => QuietPair(e, l, r, c, base, st, k);
    case AndAlso(l, r) => QuietPair(e, l, r, c, base, st, k);
    case OrElse(l, r) => QuietPair(e, l, r, c, base, st, k);
    case Not(o) => QuietEval(o, c, base, st, k); QuietUnary(e, o, c, base, st, k);
    case Call(_, o) => QuietEval(o, c, base, st, k); QuietUnary(e, o, c, base, st, k);
    case StoreTo(_, o) => QuietEval(o, c, base, st, k); QuietUnary(e, o, c, base, st, k);
    case Try(o) => QuietEval(o, c, base, st, k); QuietUnary(e, o, c, base, st, k);
    case _ => QuietLeaf(e, c, base, st, k);
  }

  lemma {:induction false} QuietLeaf(e: Expr, c: seq<Info>, base: nat, st: State, k: nat)
    requires Quiet(e, c) && Shape(c, st.env, base)
    requires e.Local? || e.New? || e.IntLit? || e.BoolLit? || e.Borrow?
    ensures QuietStep(c, base, st, Eval(e, st).0, Eval(e, st).1, k)
    ensures Eval(e, st).0.Got? && !e.New? ==> !Eval(e, st).0.v.Own?
    ensures NoBorrow(e) ==> Eval(e, st).1.fault == st.fault
  {
    hide Balance, Shape, OwnersKept;
    OwnersRefl(st.env);
    match e
    case Local(x) => QuietRead(x, c, base, st, k);
    case New(ty, tag) => FreshIdsAre(st.nextId, FreshCount(ty, tag), k); NewBalance(ty, tag, st, k);
    case Borrow(x) => FaultBalance(st, x, k);
    case IntLit(_) =>
    case BoolLit(_) =>
  }

  /** One operand, already evaluated, then the operation. */
  lemma {:induction false} QuietUnary(e: Expr, o: Expr, c: seq<Info>, base: nat, st: State, k: nat)
    requires OperandIs(e, o) && Quiet(e, c) && Quiet(o, c) && Shape(c, st.env, base)
    requires QuietStep(c, base, st, Eval(o, st).0, Eval(o, st).1, k)
    requires Eval(o, st).0.Got? && !o.New? ==> !Eval(o, st).0.v.Own?
    ensures QuietStep(c, base, st, Eval(e, st).0, Eval(e, st).1, k)
    ensures Eval(e, st).0.Got? ==> !Eval(e, st).0.v.Own?
    ensures Eval(o, st).1.fault == st.fault ==> Eval(e, st).1.fault == st.fault
  {
    hide Balance, Shape, OwnersKept, Eval;
    EvalUnary(e, o, st);
    var (r, st1) := Eval(o, st);
    if r.Got? {
      match e
      case Call(f, _) => CallBalance(f, r.v, st1, k);
      case StoreTo(x, _) => QuietStore(x, r.v, c, base, st, st1, k);
      case _ =>
    }
  }

  lemma {:induction false} OwnersRefl(a: seq<Cell>)
    ensures OwnersKept(a, a)
  {
  }

  lemma {:induction false} OwnersTrans(a: seq<Cell>, b: seq<Cell>, c: seq<Cell>)
    requires OwnersKept(a, b) && OwnersKept(b, c)
    ensures OwnersKept(a, c)
  {
  }

  lemma {:induction false} FaultBalance(st: State, x: Name, k: nat)
    ensures Balance(NoteRead(st, x), k) == Balance(st, k) && NoteRead(st, x).env == st.env && NoteRead(st, x).nextId == st.nextId
  {
  }

  lemma {:induction false} NewBalance(ty: OwnType, tag: nat, st: State, k: nat)
    ensures Balance(Eval(New(ty, tag), st).1, k) == Balance(st, k)
  {
  }

  lemma {:induction false} CallBalance(f: Name, v: Value, st: State, k: nat)
    ensures var (w, st1) := CallOut(f, v, st);
      !w.Own? && st1.env == st.env && st1.nextId == st.nextId && st1.fault == st.fault && Balance(st1, k) == Balance(st, k) + Held(v, k)
  {
    ReleasedAppend(st.trace, Called(f, v), k);
  }

  lemma {:induction false} QuietRead(x: Name, c: seq<Info>, base: nat, st: State, k: nat)
    requires Shape(c, st.env, base) && IsPlain(c, x)
    ensures QuietStep(c, base, st, Eval(Local(x), st).0, Eval(Local(x), st).1, k)
    ensures !Eval(Local(x), st).0.v.Own? && Eval(Local(x), st).1.fault == st.fault
  {
    LookupFind(c, st.env, base, x);
  }

  lemma {:induction false} QuietPair(e: Expr, l: Expr, r: Expr, c: seq<Info>, base: nat, st: State, k: nat)
    requires e == AndAlso(l, r) || e == OrElse(l, r) || (e.Binary? && e.left == l && e.right == r)
    requires !l.New? && Quiet(l, c) && !r.New? && Quiet(r, c) && Shape(c, st.env, base)
    ensures QuietStep(c, base, st, Eval(e, st).0, Eval(e, st).1, k)
    ensures Eval(e, st).0.Got? ==> !Eval(e, st).0.v.Own?
    ensures NoBorrow(e) ==> Eval(e, st).1.fault == st.fault
    decreases e, 0
  {
    hide Balance, Shape, OwnersKept, Eval;
    EvalPair(e, l, r, st);
    QuietEval(l, c, base, st, k);
    var (a, st1) := Eval(l, st);
    QuietEval(r, c, base, st1, k);
    OwnersTrans(st.env, st1.env, Eval(r, st1).1.env);
  }

  /** The first operand alone, or both, one after the other. */
  lemma {:induction false} EvalPair(e: Expr, l: Expr, r: Expr, st: State)
    requires e == AndAlso(l, r) || e == OrElse(l, r) || (e.Binary? && e.left == l && e.right == r)
    ensures var b := Eval(r, Eval(l, st).1);
      || Eval(e, st) == Eval(l, st)
      || (Eval(l, st).0.Got? && Eval(e, st) == b)
      || (Eval(l, st).0.Got? && b.0.Got? && Eval(e, st).1 == b.1 && Eval(e, st).0.Got? && Eval(e, st).0.v.Num?)
  {
  }

  // ----- the cleanup of a scope -----

  /** The drops that belong to the owning bindings from index `start` on, in order. */
  function OwnerPending(c: seq<Info>, start: nat, base: nat): seq<Pending>
  {
    if |c| <= start then []
    else
      var n := |c| - 1;
      OwnerPending(c[..n], start, base) + (if c[n].ty.Some? then [Pending(base + n + 1, Drop(c[n].name))] else [])
  }

  function DropsOf(pend: seq<Pending>): seq<Pending>
  {
    if pend == [] then []
    else
      var n := |pend| - 1;
      DropsOf(pend[..n]) + (if pend[n].act.Drop? then [pend[n]] else [])
  }

  /** A deferred expression registered when the first `depth - base` bindings existed. */
  predicate DeferOk(q: Pending, c: seq<Info>, base: nat, strict: bool)
  {
    && base <= q.depth <= base + |c|
    && (q.act.Run? ==> !q.act.e.New? && Quiet(q.act.e, c[..q.depth - base]) && (strict ==> NoBorrow(q.act.e)))
    && (q.act.Drop? ==> q.depth > base && c[q.depth - base - 1].name == q.act.x && c[q.depth - base - 1].ty.Some?)
  }

  predicate PendOk(pend: seq<Pending>, c: seq<Info>, start: nat, base: nat, strict: bool)
  {
    && DropsOf(pend) == OwnerPending(c, start, base)
    && forall i | 0 <= i < |pend| :: DeferOk(pend[i], c, base, strict)
  }

  function DropSum(drops: seq<Pending>, env: seq<Cell>, k: nat): nat
  {
    if drops == [] then 0
    else
      var q := drops[|drops| - 1];
      DropSum(drops[..|drops| - 1], env, k) + (if 1 <= q.depth <= |env| then CellHeld(env[q.depth - 1], k) else 0)
  }

  lemma {:induction false} ShapePrefix(c: seq<Info>, env: seq<Cell>, base: nat, n: nat)
    requires Shape(c, env, base) && n <= |c|
    ensures Shape(c[..n], env[..base + n], base)
  {
    forall i | 0 <= i < n ensures CellFits(c[..n][i], env[..base + n][base + i]) {
      assert CellFits(c[i], env[base + i]);
    }
  }

  lemma {:induction false} DropSumKept(drops: seq<Pending>, a: seq<Cell>, b: seq<Cell>, k: nat)
    requires OwnersKept(a, b)
    ensures DropSum(drops, a, k) == DropSum(drops, b, k)
  {
    if drops != [] { DropSumKept(drops[..|drops| - 1], a, b, k); }
  }

  /** One cleanup action: what it drops leaves the bindings' hands, and nothing else changes hands. */
  predicate ActionOwns(q: Pending, c: seq<Info>, base: nat, st: State, st1: State, strict: bool, k: nat)
  {
    && Shape(c, st1.env, base) && OwnersKept(st.env, st1.env) && st.nextId <= st1.nextId
    && Released(st1.trace, k) == Released(st.trace, k) + Created(st.nextId, st1.nextId, k) + DropSum(DropsOf([q]), st.env, k)
    && (strict ==> st1.fault == st.fault)
  }

  lemma {:induction false} OneDrop(q: Pending, env: seq<Cell>, k: nat)
    ensures DropSum(DropsOf([q]), env, k) == if q.act.Drop? && 1 <= q.depth <= |env| then CellHeld(env[q.depth - 1], k) else 0
  {
    assert [q][..0] == [];
    assert DropsOf([q]) == DropsOf([]) + (if q.act.Drop? then [q] else []);
    if q.act.Drop? {
      assert DropsOf([q]) == [q];
      assert DropSum([q], env, k) == DropSum([q][..0], env, k) + (if 1 <= q.depth <= |env| then CellHeld(env[q.depth - 1], k) else 0);
    }
  }

  lemma {:induction false} PerformDrop(q: Pending, c: seq<Info>, base: nat, st: State, strict: bool, k: nat)
    requires Shape(c, st.env, base) && DeferOk(q, c, base, strict) && q.act.Drop?
    ensures ActionOwns(q, c, base, st, PerformPending(q, st), strict, k)
  {
    hide Shape, Find, FindFlag, PerformPending, OwnersKept, DropSum, DropsOf, Released;
    OwnerOnTop(q, c, base, st.env, strict);
    OneDropRuns(q, st);
    ReleasedAppend(st.trace, Dropped(st.env[q.depth - 1].value), k);
    OwnersRefl(st.env);
    OneDrop(q, st.env, k);
  }

  /** The binding a drop was registered for is the last one it sees. */
  lemma {:induction false} OwnerOnTop(q: Pending, c: seq<Info>, base: nat, env: seq<Cell>, strict: bool)
    requires Shape(c, env, base) && DeferOk(q, c, base, strict) && q.act.Drop?
    ensures 1 <= q.depth <= |env| && env[q.depth - 1].name == q.act.x && env[q.depth - 1].flag != NoFlag
  {
    assert CellFits(c[q.depth - base - 1], env[q.depth - 1]);
  }

  lemma {:induction false} OneDropRuns(q: Pending, st: State)
    requires q.act.Drop? && 1 <= q.depth <= |st.env| && st.env[q.depth - 1].name == q.act.x && st.env[q.depth - 1].flag != NoFlag
    ensures PerformPending(q, st) ==
      if st.env[q.depth - 1].flag == Live then st.(trace := st.trace + [Dropped(st.env[q.depth - 1].value)]) else st
  {
    var inner := st.(env := st.env[..q.depth]);
    assert Find(inner.env, q.act.x) == q.depth - 1 && FindFlag(inner.env, q.act.x) == q.depth - 1;
    hide Find, FindFlag;
    assert inner.env + st.env[q.depth..] == st.env;
  }

  lemma {:induction false} PerformRun(q: Pending, c: seq<Info>, base: nat, st: State, strict: bool, k: nat)
    requires Shape(c, st.env, base) && DeferOk(q, c, base, strict) && q.act.Run?
    ensures ActionOwns(q, c, base, st, PerformPending(q, st), strict, k)
  {
    hide Shape, OwnersKept, Quiet, Eval;
    ShapeLength(c, st.env, base);
    var n := q.depth - base;
    var inner := st.(env := st.env[..q.depth]);
    ShapePrefix(c, st.env, base, n);
    QuietEval(q.act.e, c[..n], base, inner, k);
    var done := Eval(q.act.e, inner).1;
    PrefixReplaced(c, base, n, st.env, done.env, k);
    SameHeld(inner.env, done.env, k);
    OneDrop(q, st.env, k);
  }

  lemma {:induction false} ShapeLength(c: seq<Info>, env: seq<Cell>, base: nat)
    requires Shape(c, env, base)
    ensures |env| == base + |c|
  {
  }

  lemma {:induction false} PerformOwns(q: Pending, c: seq<Info>, base: nat, st: State, strict: bool, k: nat)
    requires Shape(c, st.env, base) && DeferOk(q, c, base, strict)
    ensures ActionOwns(q, c, base, st, PerformPending(q, st), strict, k)
  {
    if q.act.Drop? { PerformDrop(q, c, base, st, strict, k); } else { PerformRun(q, c, base, st, strict, k); }
  }

  /** A whole scope's cleanup releases what its drops find live, and what deferred calls create. */
  lemma {:induction false} PerformAllOwns(pend: seq<Pending>, c: seq<Info>, base: nat, st: State, strict: bool, k: nat)
    requires Shape(c, st.env, base) && forall i | 0 <= i < |pend| :: DeferOk(pend[i], c, base, strict)
    ensures var st1 := PerformAll(pend, st);
      && Shape(c, st1.env, base) && OwnersKept(st.env, st1.env) && st.nextId <= st1.nextId
      && Released(st1.trace, k) == Released(st.trace, k) + Created(st.nextId, st1.nextId, k) + DropSum(DropsOf(pend), st.env, k)
      && (strict ==> st1.fault == st.fault)
  {
    hide Shape, OwnersKept, Quiet, DropSum, PerformPending, Released, DeferOk;
    if pend == [] {
      EmptyDrops(st.env, k);
      OwnersRefl(st.env);
    } else {
      var n := |pend| - 1;
      var q := pend[n];
      PerformOwns(q, c, base, st, strict, k);
      var st1 := PerformPending(q, st);
      PerformAllOwns(pend[..n], c, base, st1, strict, k);
      OwnersTrans(st.env, st1.env, PerformAll(pend[..n], st1).env);
      DropSumKept(DropsOf(pend[..n]), st.env, st1.env, k);
      DropsSplit(pend, st.env, k);
    }
  }

  lemma {:induction false} EmptyDrops(env: seq<Cell>, k: nat)
    ensures DropSum(DropsOf([]), env, k) == 0
  {
  }

  lemma {:induction false} DropsSplit(pend: seq<Pending>, env: seq<Cell>, k: nat)
    requires pend != []
    ensures DropSum(DropsOf(pend), env, k) ==
      DropSum(DropsOf(pend[..|pend| - 1]), env, k) + DropSum(DropsOf([pend[|pend| - 1]]), env, k)
  {
    var rest, q := pend[..|pend| - 1], pend[|pend| - 1];
    OneDrop(q, env, k);
    if q.act.Drop? {
      assert DropsOf(pend) == DropsOf(rest) + [q];
      DropSumLast(DropsOf(rest), q, env, k);
    } else {
      assert DropsOf(pend) == DropsOf(rest) + [];
      assert DropsOf(rest) + [] == DropsOf(rest);
    }
  }

  lemma {:induction false} DropSumLast(drops: seq<Pending>, q: Pending, env: seq<Cell>, k: nat)
    ensures DropSum(drops + [q], env, k) ==
      DropSum(drops, env, k) + (if 1 <= q.depth <= |env| then CellHeld(env[q.depth - 1], k) else 0)
  {
    assert (drops + [q])[..|drops|] == drops;
  }

  /** The drops of a scope add up to what its bindings hold. */
  lemma {:induction false} OwnerPendingSum(c: seq<Info>, start: nat, env: seq<Cell>, base: nat, k: nat)
    requires Shape(c, env, base) && start <= |c|
    ensures LiveHeld(env, k) == LiveHeld(env[..base + start], k) + DropSum(OwnerPending(c, start, base), env, k)
  {
    hide Shape, DropSum, LiveHeld, OwnerPending, CellHeld;
    ShapeLength(c, env, base);
    if |c| == start {
      assert env[..base + start] == env;
      EmptyOwnerPending(c, start, env, base, k);
    } else {
      var n := |c| - 1;
      ShapePrefix(c, env, base, n);
      var inner := env[..base + n];
      OwnerPendingSum(c[..n], start, inner, base, k);
      assert inner[..base + start] == env[..base + start];
      OwnerPendingDepths(c[..n], start, base);
      DropSumPrefix(OwnerPending(c[..n], start, base), env, base + n, k);
      ShapeLast(c, env, base, k);
      OwnerPendingStep(c, start, env, base, k);
    }
  }

  lemma {:induction false} EmptyOwnerPending(c: seq<Info>, start: nat, env: seq<Cell>, base: nat, k: nat)
    requires |c| <= start
    ensures DropSum(OwnerPending(c, start, base), env, k) == 0
  {
  }

  lemma {:induction false} ShapeLast(c: seq<Info>, env: seq<Cell>, base: nat, k: nat)
    requires Shape(c, env, base) && |c| > 0
    ensures LiveHeld(env, k) == LiveHeld(env[..base + |c| - 1], k) + CellHeld(env[base + |c| - 1], k)
    ensures c[|c| - 1].ty.None? ==> CellHeld(env[base + |c| - 1], k) == 0
  {
    assert CellFits(c[|c| - 1], env[base + |c| - 1]);
  }

  lemma {:induction false} OwnerPendingStep(c: seq<Info>, start: nat, env: seq<Cell>, base: nat, k: nat)
    requires start < |c| && |env| == base + |c|
    ensures DropSum(OwnerPending(c, start, base), env, k) == DropSum(OwnerPending(c[..|c| - 1], start, base), env, k)
      + if c[|c| - 1].ty.Some? then CellHeld(env[base + |c| - 1], k) else 0
  {
    hide DropSum, CellHeld;
    var n := |c| - 1;
    var front, q := OwnerPending(c[..n], start, base), Pending(base + n + 1, Drop(c[n].name));
    assert OwnerPending(c, start, base) == front + (if c[n].ty.Some? then [q] else []);
    if c[n].ty.Some? {
      DropSumLast(front, q, env, k);
    } else {
      assert front + [] == front;
    }
  }

  lemma {:induction false} OwnerPendingDepths(c: seq<Info>, start: nat, base: nat)
    ensures forall i | 0 <= i < |OwnerPending(c, start, base)| :: OwnerPending(c, start, base)[i].depth <= base + |c|
  {
    if |c| > start { OwnerPendingDepths(c[..|c| - 1], start, base); }
  }

  lemma {:induction false} DropSumPrefix(drops: seq<Pending>, env: seq<Cell>, m: nat, k: nat)
    requires m <= |env| && forall i | 0 <= i < |drops| :: drops[i].depth <= m
    ensures DropSum(drops, env[..m], k) == DropSum(drops, env, k)
  {
    if drops != [] { DropSumPrefix(drops[..|drops| - 1], env, m, k); }
  }

  /** Leaving a scope: its resources are released once each, everything else is as before. */
  lemma {:induction false} ExitOwns(pend: seq<Pending>, c: seq<Info>, start: nat, base: nat, st: State, strict: bool, k: nat)
    requires Shape(c, st.env, base) && start <= |c| && PendOk(pend, c, start, base, strict)
    ensures var st1 := ExitScope(pend, base + start, st);
      && Shape(c[..start], st1.env, base)
      && st.nextId <= st1.nextId
      && Balance(st1, k) == Balance(st, k) + Created(st.nextId, st1.nextId, k)
      && (forall i | 0 <= i < base + start :: st1.env[i].flag == st.env[i].flag)
      && (strict ==> st1.fault == st.fault)
  {
    PerformAllOwns(pend, c, base, st, strict, k);
    var done := PerformAll(pend, st);
    OwnerPendingSum(c, start, st.env, base, k);
    ShapePrefix(c, done.env, base, start);
    OwnersPrefix(st.env, done.env, base + start);
    SameHeld(st.env[..base + start], done.env[..base + start], k);
  }

  lemma {:induction false} OwnersPrefix(a: seq<Cell>, b: seq<Cell>, n: nat)
    requires OwnersKept(a, b) && n <= |a|
    ensures OwnersKept(a[..n], b[..n])
    ensures forall i | 0 <= i < n :: b[..n][i].flag == a[i].flag
  {
  }

  lemma {:induction false} PrefixReplaced(c: seq<Info>, base: nat, n: nat, env: seq<Cell>, prefix: seq<Cell>, k: nat)
    requires Shape(c, env, base) && n <= |c| && Shape(c[..n], prefix, base) && OwnersKept(env[..base + n], prefix)
    ensures Shape(c, prefix + env[base + n..], base) && OwnersKept(env, prefix + env[base + n..])
    ensures LiveHeld(prefix + env[base + n..], k) == LiveHeld(env, k)
  {
    var env1 := prefix + env[base + n..];
    forall i | 0 <= i < |c| ensures CellFits(c[i], env1[base + i]) {
      if i < n { assert CellFits(c[..n][i], prefix[base + i]); } else { assert CellFits(c[i], env[base + i]); }
    }
    forall i | 0 <= i < |env| ensures env1[i].flag == env[i].flag && (env[i].flag != NoFlag ==> env1[i] == env[i]) {
      if i < base + n { assert env[..base + n][i] == env[i]; }
    }
    SameHeld(env, env1, k);
  }

  lemma {:induction false} SameHeld(a: seq<Cell>, b: seq<Cell>, k: nat)
    requires OwnersKept(a, b)
    ensures LiveHeld(a, k) == LiveHeld(b, k)
  {
    if a != [] { SameHeld(a[..|a| - 1], b[..|b| - 1], k); }
  }
}
