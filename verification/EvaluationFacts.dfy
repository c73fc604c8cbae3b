/** How evaluation depends on the state: temporaries are invisible to source expressions, and
    bindings an expression does not mention can be cut off and put back. */
module EvaluationFacts {
  import opened MortSyntax
  import opened MortSemantics

  /** Equal up to generated temporaries; the target reads nothing it must not that the source does not. */
  predicate Same(s: State, t: State)
  {
    s.env == t.env && SameWorld(s, t)
  }

  predicate SameWorld(s: State, t: State)
  {
    s.trace == t.trace && s.replies == t.replies && s.nextId == t.nextId && (t.fault ==> s.fault)
  }

  /** The same bindings in the same places; only their contents may differ. */
  predicate SameNames(a: seq<Cell>, b: seq<Cell>)
  {
    |a| == |b| && forall i | 0 <= i < |a| :: a[i].name == b[i].name && (a[i].flag == NoFlag <==> b[i].flag == NoFlag)
  }

  predicate Absent(x: Name, env: seq<Cell>)
  {
    forall i | 0 <= i < |env| :: env[i].name != x
  }

  predicate NoneOf(names: set<Name>, env: seq<Cell>)
  {
    forall i | 0 <= i < |env| :: env[i].name !in names
  }

  lemma EvalKeepsTemps(e: Expr, s: State)
    ensures Eval(e, s).1.temps == s.temps
  {
  }

  /** An expression that evaluates nothing below itself. */
  predicate IsLeaf(e: Expr)
  {
    !(e.Binary? || e.AndAlso? || e.OrElse? || e.Not? || e.Call? || e.StoreTo? || e.Try?)
  }

  predicate AgreeTemps(e: Expr, s: State, t: State)
  {
    forall x | x in TempsOf(e) :: ReadTemp(s, x) == ReadTemp(t, x)
  }

  lemma SourceHasNoTemps(e: Expr)
    requires IsSource(e)
    ensures TempsOf(e) == {}
  {
  }

  lemma LeafCongruent(e: Expr, s: State, t: State)
    requires IsLeaf(e) && Same(s, t) && AgreeTemps(e, s, t)
    ensures Eval(e, s).0 == Eval(e, t).0
    ensures Same(Eval(e, s).1, Eval(e, t).1)
  {
  }

  lemma {:induction false} CongruentOnTemps(e: Expr, s: State, t: State)
    requires Same(s, t) && AgreeTemps(e, s, t)
    ensures Eval(e, s).0 == Eval(e, t).0
    ensures Same(Eval(e, s).1, Eval(e, t).1)
    decreases e, 1
  {
    match e
    case Binary(_, l, r) => CongruentStep(e, l, r, s, t);
    case AndAlso(l, r) => CongruentStep(e, l, r, s, t);
    case OrElse(l, r) => CongruentStep(e, l, r, s, t);
    case Not(o) => assert TempsOf(o) <= TempsOf(e); CongruentOnTemps(o, s, t);
    case Call(_, a) => assert TempsOf(a) <= TempsOf(e); CongruentOnTemps(a, s, t);
    case StoreTo(_, a) => assert TempsOf(a) <= TempsOf(e); CongruentOnTemps(a, s, t);
    case Try(o) => assert TempsOf(o) <= TempsOf(e); CongruentOnTemps(o, s, t);
    case _ => LeafCongruent(e, s, t);
  }

  lemma {:induction false} CongruentStep(e: Expr, l: Expr, r: Expr, s: State, t: State)
    requires l < e && r < e && TempsOf(e) == TempsOf(l) + TempsOf(r)
    requires Same(s, t) && AgreeTemps(e, s, t)
    ensures Eval(l, s).0 == Eval(l, t).0
    ensures Same(Eval(l, s).1, Eval(l, t).1)
    ensures Eval(r, Eval(l, s).1).0 == Eval(r, Eval(l, t).1).0
    ensures Same(Eval(r, Eval(l, s).1).1, Eval(r, Eval(l, t).1).1)
    decreases e, 0
  {
    hide Eval;
    assert AgreeTemps(l, s, t) && AgreeTemps(r, s, t);
    CongruentOnTemps(l, s, t);
    EvalKeepsTemps(l, s);
    EvalKeepsTemps(l, t);
    assert AgreeTemps(r, Eval(l, s).1, Eval(l, t).1);
    CongruentOnTemps(r, Eval(l, s).1, Eval(l, t).1);
  }

  lemma EvalCongruent(e: Expr, s: State, t: State)
    requires Same(s, t)
    requires IsSource(e) || s.temps == t.temps
    ensures Eval(e, s).0 == Eval(e, t).0
    ensures Same(Eval(e, s).1, Eval(e, t).1)
  {
    if IsSource(e) { SourceHasNoTemps(e); }
    CongruentOnTemps(e, s, t);
  }

  // ----- one step of evaluation, for proofs that should not look further -----

  /** A one-operand expression once its operand has delivered r. */
  function Finish(e: Expr, r: Evald, st: State): (Evald, State)
  {
    if r.Failed? then (r, st)
    else match e
      case Not(_) => (Got(FromBool(!Truthy(r.v))), st)
      case Call(f, _) => var (v, st1) := CallOut(f, r.v, st); (Got(v), st1)
      case StoreTo(x, _) => (Got(Num(0)), WriteCell(st, x, r.v))
      case Try(_) => if r.v.ResultErr? then (Failed(r.v.n), st) else (Got(OkPayload(r.v)), st)
      case _ => (r, st)
  }

  predicate OperandIs(e: Expr, o: Expr)
  {
    match e
    case Not(a) => a == o
    case Call(_, a) => a == o
    case StoreTo(_, a) => a == o
    case Try(a) => a == o
    case _ => false
  }

  lemma EvalUnary(e: Expr, o: Expr, s: State)
    requires OperandIs(e, o)
    ensures Eval(e, s) == Finish(e, Eval(o, s).0, Eval(o, s).1)
  {
  }

  lemma FinishCongruent(e: Expr, r: Evald, s: State, t: State)
    requires Same(s, t)
    ensures Finish(e, r, s).0 == Finish(e, r, t).0
    ensures Same(Finish(e, r, s).1, Finish(e, r, t).1)
  {
  }

  function Lazy(conjunction: bool, l: Expr, r: Expr): Expr
  {
    if conjunction then AndAlso(l, r) else OrElse(l, r)
  }

  lemma EvalLazy(conjunction: bool, l: Expr, r: Expr, s: State)
    ensures var (a, s1) := Eval(l, s);
      Eval(Lazy(conjunction, l, r), s) == if a.Got? && Truthy(a.v) == conjunction then Eval(r, s1) else (a, s1)
  {
    var (a, s1) := Eval(l, s);
    if conjunction {
      assert Eval(AndAlso(l, r), s) == if a.Failed? || !Truthy(a.v) then (a, s1) else Eval(r, s1);
    } else {
      assert Eval(OrElse(l, r), s) == if a.Failed? || Truthy(a.v) then (a, s1) else Eval(r, s1);
    }
  }

  lemma EvalBinary(op: BinOp, l: Expr, r: Expr, s: State)
    ensures var (a, s1) := Eval(l, s);
      var (b, s2) := Eval(r, s1);
      Eval(Binary(op, l, r), s) ==
        if a.Failed? then (a, s1) else if b.Failed? then (b, s2) else (Got(Apply(op, a.v, b.v)), s2)
  {
  }

  lemma WithoutTryNeverFails(e: Expr, s: State)
    requires !HasTry(e)
    ensures Eval(e, s).0.Got?
  {
  }

  lemma {:induction false} EvalKeepsNames(e: Expr, s: State)
    ensures SameNames(s.env, Eval(e, s).1.env)
  {
    match e
    case Binary(_, l, r) => EvalKeepsNames(l, s); EvalKeepsNames(r, Eval(l, s).1);
    case AndAlso(l, r) => EvalKeepsNames(l, s); EvalKeepsNames(r, Eval(l, s).1);
    case OrElse(l, r) => EvalKeepsNames(l, s); EvalKeepsNames(r, Eval(l, s).1);
    case Not(o) => EvalKeepsNames(o, s);
    case Call(_, a) => EvalKeepsNames(a, s);
    case StoreTo(x, a) => EvalKeepsNames(a, s);
    case Try(o) => EvalKeepsNames(o, s);
    case _ =>
  }

  lemma FindInPrefix(env: seq<Cell>, suffix: seq<Cell>, x: Name)
    requires Absent(x, suffix)
    ensures Find(env + suffix, x) == Find(env, x)
    ensures FindFlag(env + suffix, x) == FindFlag(env, x)
  {
    if suffix == [] {
      assert env + suffix == env;
    } else {
      var n := |suffix| - 1;
      assert (env + suffix)[..|env| + n] == env + suffix[..n];
      assert (env + suffix)[|env| + n] == suffix[n];
      FindInPrefix(env, suffix[..n], x);
    }
  }

  function Extend(s: State, suffix: seq<Cell>): State
  {
    s.(env := s.env + suffix)
  }

  lemma AccessInPrefix(s: State, suffix: seq<Cell>, x: Name, v: Value)
    requires Absent(x, suffix)
    ensures ReadCell(Extend(s, suffix), x) == ReadCell(s, x)
    ensures NoteRead(Extend(s, suffix), x) == Extend(NoteRead(s, x), suffix)
    ensures WriteCell(Extend(s, suffix), x, v) == Extend(WriteCell(s, x, v), suffix)
    ensures ClearFlag(Extend(s, suffix), x) == Extend(ClearFlag(s, x), suffix)
    ensures DropCell(Extend(s, suffix), x) == Extend(DropCell(s, x), suffix)
  {
    FindInPrefix(s.env, suffix, x);
    var i := Find(s.env, x);
    if i >= 0 {
      assert (s.env + suffix)[i := s.env[i].(value := v)] == s.env[i := s.env[i].(value := v)] + suffix;
    }
    var j := FindFlag(s.env, x);
    if j >= 0 {
      assert (s.env + suffix)[j := s.env[j].(flag := Dead)] == s.env[j := s.env[j].(flag := Dead)] + suffix;
    }
  }

  lemma {:induction false} EvalInPrefix(e: Expr, s: State, suffix: seq<Cell>)
    requires NoneOf(Mentions(e), suffix)
    ensures Eval(e, Extend(s, suffix)) == (Eval(e, s).0, Extend(Eval(e, s).1, suffix))
  {
    match e
    case Local(x) => AccessInPrefix(s, suffix, x, Num(0));
    case Borrow(x) => AccessInPrefix(s, suffix, x, Num(0));
    case Move(x) =>
      AccessInPrefix(s, suffix, x, Num(0));
      AccessInPrefix(NoteRead(s, x), suffix, x, Num(0));
    case Binary(_, l, r) =>
      EvalInPrefix(l, s, suffix);
      EvalInPrefix(r, Eval(l, s).1, suffix);
    case AndAlso(l, r) =>
      EvalInPrefix(l, s, suffix);
      EvalInPrefix(r, Eval(l, s).1, suffix);
    case OrElse(l, r) =>
      EvalInPrefix(l, s, suffix);
      EvalInPrefix(r, Eval(l, s).1, suffix);
    case Not(o) => EvalInPrefix(o, s, suffix);
    case Call(_, a) => EvalInPrefix(a, s, suffix);
    case StoreTo(x, a) =>
      EvalInPrefix(a, s, suffix);
      var (r, s1) := Eval(a, s);
      if r.Got? { AccessInPrefix(s1, suffix, x, r.v); }
    case Try(o) => EvalInPrefix(o, s, suffix);
    case _ =>
  }

  lemma {:induction false} UnmentionedIsUntouched(e: Expr, x: Name, s: State)
    requires x !in Mentions(e)
    ensures !Touches(e, x, s)
  {
    match e
    case Binary(_, l, r) => UnmentionedIsUntouched(l, x, s); UnmentionedIsUntouched(r, x, Eval(l, s).1);
    case AndAlso(l, r) => UnmentionedIsUntouched(l, x, s); UnmentionedIsUntouched(r, x, Eval(l, s).1);
    case OrElse(l, r) => UnmentionedIsUntouched(l, x, s); UnmentionedIsUntouched(r, x, Eval(l, s).1);
    case Not(o) => UnmentionedIsUntouched(o, x, s);
    case Call(_, a) => UnmentionedIsUntouched(a, x, s);
    case StoreTo(_, a) => UnmentionedIsUntouched(a, x, s);
    case Try(o) => UnmentionedIsUntouched(o, x, s);
    case _ =>
  }

  /** An initializer that does not come to its own variable is evaluated as if that were not there. */
  lemma {:induction false} EvalUntouched(e: Expr, x: Name, v: Value, s: State)
    requires !Touches(e, x, DeclareCell(s, x, v, NoFlag))
    ensures Eval(e, DeclareCell(s, x, v, NoFlag)) == (Eval(e, s).0, DeclareCell(Eval(e, s).1, x, v, NoFlag))
  {
    var suffix := [Cell(x, v, NoFlag)];
    assert DeclareCell(s, x, v, NoFlag) == Extend(s, suffix);
    match e
    case Local(y) => AccessInPrefix(s, suffix, y, v);
    case Borrow(y) => AccessInPrefix(s, suffix, y, v);
    case Move(y) =>
      AccessInPrefix(s, suffix, y, v);
      AccessInPrefix(NoteRead(s, y), suffix, y, v);
    case Binary(_, l, r) => EvalUntouched(l, x, v, s); if Eval(l, s).0.Got? { EvalUntouched(r, x, v, Eval(l, s).1); }
    case AndAlso(l, r) =>
      EvalUntouched(l, x, v, s);
      if Eval(l, s).0.Got? && Truthy(Eval(l, s).0.v) { EvalUntouched(r, x, v, Eval(l, s).1); }
    case OrElse(l, r) =>
      EvalUntouched(l, x, v, s);
      if Eval(l, s).0.Got? && !Truthy(Eval(l, s).0.v) { EvalUntouched(r, x, v, Eval(l, s).1); }
    case Not(o) => EvalUntouched(o, x, v, s);
    case Call(_, a) => EvalUntouched(a, x, v, s);
    case StoreTo(y, a) =>
      EvalUntouched(a, x, v, s);
      var (r, s1) := Eval(a, s);
      if r.Got? { AccessInPrefix(s1, suffix, y, r.v); }
    case Try(o) => EvalUntouched(o, x, v, s);
    case _ =>
  }

  /** A C declaration whose initializer does not use the declared variable does what it looks like. */
  lemma {:induction false} DeclareInitIs(s: State, x: Name, e: Expr)
    requires !Touches(e, x, DeclareCell(s, x, Num(0), NoFlag))
    ensures DeclareInit(s, x, e) == DeclareCell(Eval(e, s).1, x, ValueOf(Eval(e, s).0), NoFlag)
  {
    hide Eval, Touches;
    EvalUntouched(e, x, Num(0), s);
    var (r, s1) := Eval(e, s);
    var n := |s1.env|;
    assert (s1.env + [Cell(x, Num(0), NoFlag)])[n := Cell(x, ValueOf(r), NoFlag)] == s1.env + [Cell(x, ValueOf(r), NoFlag)];
  }

  lemma PerformInPrefix(a: Action, s: State, suffix: seq<Cell>)
    requires NoneOf(ActionMentions(a), suffix)
    ensures Perform(a, Extend(s, suffix)) == Extend(Perform(a, s), suffix)
    ensures SameNames(s.env, Perform(a, s).env)
  {
    match a
    case Drop(x) => AccessInPrefix(s, suffix, x, Num(0));
    case Run(e) => EvalInPrefix(e, s, suffix); EvalKeepsNames(e, s);
  }

  lemma PerformCongruent(a: Action, s: State, t: State)
    requires Same(s, t) && (a.Run? ==> IsSource(a.e))
    ensures Same(Perform(a, s), Perform(a, t))
    ensures Perform(a, t).temps == t.temps
  {
    match a
    case Drop(x) =>
    case Run(e) => EvalCongruent(e, s, t); EvalKeepsTemps(e, t);
  }

  // ----- expressions without effects -----

  /** Reads only: no call, store, move, creation or propagation. */
  predicate Pure(e: Expr)
  {
    match e
    case Binary(_, l, r) => Pure(l) && Pure(r)
    case AndAlso(l, r) => Pure(l) && Pure(r)
    case OrElse(l, r) => Pure(l) && Pure(r)
    case Not(o) => Pure(o)
    case Move(_) => false
    case New(_, _) => false
    case Call(_, _) => false
    case StoreTo(_, _) => false
    case Try(_) => false
    case _ => true
  }

  function TempsOf(e: Expr): set<Temp>
  {
    match e
    case Binary(_, l, r) => TempsOf(l) + TempsOf(r)
    case AndAlso(l, r) => TempsOf(l) + TempsOf(r)
    case OrElse(l, r) => TempsOf(l) + TempsOf(r)
    case Not(o) => TempsOf(o)
    case Call(_, a) => TempsOf(a)
    case StoreTo(_, a) => TempsOf(a)
    case Try(o) => TempsOf(o)
    case TempVar(t) => {t}
    case IsErr(t) => {t}
    case OkOf(t) => {t}
    case TagIs(t, _, _) => {t}
    case PayloadOf(t) => {t}
    case _ => {}
  }

  /** Bindings of the given names agree, whatever the others hold. */
  predicate AgreeOn(names: set<Name>, a: seq<Cell>, b: seq<Cell>)
  {
    SameNames(a, b) && forall i | 0 <= i < |a| && a[i].name in names :: a[i] == b[i]
  }

  predicate UnchangedOutside(written: set<Name>, a: seq<Cell>, b: seq<Cell>)
  {
    SameNames(a, b) && forall i | 0 <= i < |a| && a[i].name !in written :: a[i] == b[i]
  }

  lemma FindSameNames(a: seq<Cell>, b: seq<Cell>, x: Name)
    requires SameNames(a, b)
    ensures Find(a, x) == Find(b, x)
  {
  }

  /** What has been read cannot be unread. */
  lemma {:induction false} FaultStays(e: Expr, s: State)
    ensures s.fault ==> Eval(e, s).1.fault
  {
    match e
    case Binary(_, l, r) => FaultStays(l, s); FaultStays(r, Eval(l, s).1);
    case AndAlso(l, r) => FaultStays(l, s); FaultStays(r, Eval(l, s).1);
    case OrElse(l, r) => FaultStays(l, s); FaultStays(r, Eval(l, s).1);
    case Not(o) => FaultStays(o, s);
    case Call(_, a) => FaultStays(a, s);
    case StoreTo(_, a) => FaultStays(a, s);
    case Try(o) => FaultStays(o, s);
    case _ =>
  }

  /** At most the read monitor goes up. */
  lemma PureHasNoEffect(e: Expr, s: State)
    requires Pure(e)
    ensures var t := Eval(e, s).1; t == s.(fault := t.fault) && Same(t, s)
    ensures Eval(e, s).0.Got?
  {
  }

  lemma {:induction false} PureReads(e: Expr, s: State, t: State)
    requires Pure(e) && AgreeOn(Mentions(e), s.env, t.env)
    requires forall x | x in TempsOf(e) :: ReadTemp(s, x) == ReadTemp(t, x)
    ensures Eval(e, s).0 == Eval(e, t).0
    ensures Eval(e, t).1.fault ==> t.fault || Eval(e, s).1.fault
    decreases e, 1
  {
    match e
    case Local(x) => FindSameNames(s.env, t.env, x);
    case Borrow(x) => FindSameNames(s.env, t.env, x);
    case Binary(_, l, r) => PureReadsPair(e, l, r, s, t);
    case AndAlso(l, r) => PureReadsPair(e, l, r, s, t);
    case OrElse(l, r) => PureReadsPair(e, l, r, s, t);
    case Not(o) => PureReads(o, s, t);
    case _ =>
  }

  lemma {:induction false} PureReadsPair(e: Expr, l: Expr, r: Expr, s: State, t: State)
    requires e == AndAlso(l, r) || e == OrElse(l, r) || (e.Binary? && e.left == l && e.right == r)
    requires Pure(e) && AgreeOn(Mentions(e), s.env, t.env)
    requires forall x | x in TempsOf(e) :: ReadTemp(s, x) == ReadTemp(t, x)
    ensures Eval(e, s).0 == Eval(e, t).0
    ensures Eval(e, t).1.fault ==> t.fault || Eval(e, s).1.fault
    decreases e, 0
  {
    hide Eval;
    assert TempsOf(l) <= TempsOf(e) && TempsOf(r) <= TempsOf(e);
    PureReads(l, s, t);
    PureHasNoEffect(l, s);
    PureHasNoEffect(l, t);
    PureReads(r, Eval(l, s).1, Eval(l, t).1);
    FaultStays(r, Eval(l, s).1);
    if e.Binary? {
      EvalBinary(e.op, l, r, s);
      EvalBinary(e.op, l, r, t);
    } else {
      EvalLazy(e.AndAlso?, l, r, s);
      EvalLazy(e.AndAlso?, l, r, t);
    }
  }

  /** The names an expression may overwrite or move away. */
  function Writes(e: Expr): set<Name>
  {
    match e
    case Binary(_, l, r) => Writes(l) + Writes(r)
    case AndAlso(l, r) => Writes(l) + Writes(r)
    case OrElse(l, r) => Writes(l) + Writes(r)
    case Not(o) => Writes(o)
    case Call(_, a) => Writes(a)
    case StoreTo(x, a) => {x} + Writes(a)
    case Move(x) => {x}
    case Try(o) => Writes(o)
    case _ => {}
  }

  lemma {:induction false} EvalWrites(e: Expr, s: State)
    ensures UnchangedOutside(Writes(e), s.env, Eval(e, s).1.env)
  {
    hide UnchangedOutside, Writes;
    WritesParts(e);
    match e
    case Binary(_, l, r) =>
      EvalWrites(l, s);
      EvalWrites(r, Eval(l, s).1);
      PairWrites(l, r, s);
    case AndAlso(l, r) =>
      EvalWrites(l, s);
      EvalWrites(r, Eval(l, s).1);
      PairWrites(l, r, s);
    case OrElse(l, r) =>
      EvalWrites(l, s);
      EvalWrites(r, Eval(l, s).1);
      PairWrites(l, r, s);
    case Not(o) => EvalWrites(o, s);
    case Call(_, a) => EvalWrites(a, s);
    case StoreTo(x, a) =>
      EvalWrites(a, s);
      WidenWrites(Writes(a), Writes(e), s.env, Eval(a, s).1.env);
      StoreWrites(x, a, s);
    case Try(o) => EvalWrites(o, s);
    case _ => LeafWrites(e, s);
  }

  lemma {:induction false} WritesParts(e: Expr)
    ensures e.Binary? ==> Writes(e) == Writes(e.left) + Writes(e.right)
    ensures e.AndAlso? ==> Writes(e) == Writes(e.left) + Writes(e.right)
    ensures e.OrElse? ==> Writes(e) == Writes(e.left) + Writes(e.right)
    ensures e.Not? ==> Writes(e) == Writes(e.operand)
    ensures e.Try? ==> Writes(e) == Writes(e.operand)
    ensures e.Call? ==> Writes(e) == Writes(e.arg)
    ensures e.StoreTo? ==> Writes(e) == {e.x} + Writes(e.arg)
  {
  }

  lemma {:induction false} WidenWrites(w: set<Name>, w1: set<Name>, a: seq<Cell>, b: seq<Cell>)
    requires UnchangedOutside(w, a, b) && w <= w1
    ensures UnchangedOutside(w1, a, b)
  {
  }

  lemma {:induction false} LeafWrites(e: Expr, s: State)
    requires !e.Binary? && !e.AndAlso? && !e.OrElse? && !e.Not? && !e.Call? && !e.StoreTo? && !e.Try?
    ensures UnchangedOutside(Writes(e), s.env, Eval(e, s).1.env)
  {
    if e.Move? { MoveWrites(e.x, s); } else { LeafKeepsEnv(e, s); }
  }

  lemma {:induction false} MoveWrites(x: Name, s: State)
    ensures UnchangedOutside({x}, s.env, ClearFlag(NoteRead(s, x), x).env)
  {
  }

  lemma {:induction false} LeafKeepsEnv(e: Expr, s: State)
    requires IsLeaf(e) && !e.Move?
    ensures Eval(e, s).1.env == s.env
  {
  }

  lemma {:induction false} StoreWrites(x: Name, a: Expr, s: State)
    requires UnchangedOutside(Writes(StoreTo(x, a)), s.env, Eval(a, s).1.env)
    ensures UnchangedOutside(Writes(StoreTo(x, a)), s.env, Eval(StoreTo(x, a), s).1.env)
  {
  }

  lemma {:induction false} PairWrites(l: Expr, r: Expr, s: State)
    requires var s1 := Eval(l, s).1;
      UnchangedOutside(Writes(l), s.env, s1.env) && UnchangedOutside(Writes(r), s1.env, Eval(r, s1).1.env)
    ensures UnchangedOutside(Writes(l) + Writes(r), s.env, Eval(l, s).1.env)
    ensures UnchangedOutside(Writes(l) + Writes(r), s.env, Eval(r, Eval(l, s).1).1.env)
  {
    hide Eval, Writes;
  }
}
