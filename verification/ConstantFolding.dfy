/** The checker's unbounded constant folder against the arithmetic the generated code performs. */
module ConstantFolding {
  import opened MortSyntax
  import opened FixedWidth
  import opened IntegerLowering

  /** A constant tree; a shift count has an integer type of its own. */
  datatype Const =
    | Literal(n: int)
    | Negate(operand: Const)
    | Invert(operand: Const)
    | Compute(op: ArithOp, left: Const, right: Const)
    | ShiftUp(left: Const, right: Const, countType: IntType)
    | ShiftDown(left: Const, right: Const, countType: IntType)

  /** `_const_value`: arbitrary precision, with a cap on huge shifts. */
  function Fold(e: Const): Option<int>
  {
    match e
    case Literal(n) => Some(n)
    case Negate(o) =>
      var v := Fold(o);
      if v.None? then None else Some(-v.value)
    case Invert(o) =>
      var v := Fold(o);
      if v.None? then None else Some(-1 - v.value)
    case Compute(op, l, r) =>
      var a, b := Fold(l), Fold(r);
      if a.None? || b.None? || ((op.Div? || op.Rem?) && b.value == 0) then None
      else Some(Exact(op, a.value, b.value))
    case ShiftUp(l, r, _) =>
      var a, b := Fold(l), Fold(r);
      if a.None? || b.None? || b.value < 0 then None
      else if a.value == 0 then Some(0)
      else if b.value > 64 then Some(Pow2(65))
      else Some(a.value * Pow2(b.value))
    case ShiftDown(l, r, _) =>
      var a, b := Fold(l), Fold(r);
      if a.None? || b.None? || b.value < 0 then None
      else Some(a.value / Pow2(b.value))
  }

  /** What the emitted operators compute when the same tree is evaluated at run time in type t. */
  function Evaluate(e: Const, t: IntType): Result<CValue>
    requires t.bits > 0
  {
    match e
    case Literal(n) => Val(CValue(Wrap(t, n), t))
    case Negate(o) =>
      var x :- Evaluate(o, t);
      FixedNegate(t, x)
    case Invert(o) =>
      var x :- Evaluate(o, t);
      FixedComplement(t, x)
    case Compute(op, l, r) =>
      var x :- Evaluate(l, t);
      var y :- Evaluate(r, t);
      if op.Div? || op.Rem? then DivHelper(t, op, x, y) else FixedBinary(t, op, x, y)
    case ShiftUp(l, r, ct) =>
      var x :- Evaluate(l, t);
      var y :- if ct.bits > 0 then Evaluate(r, ct) else Undefined;
      FixedShl(t, x, y)
    case ShiftDown(l, r, ct) =>
      var x :- Evaluate(l, t);
      var y :- if ct.bits > 0 then Evaluate(r, ct) else Undefined;
      FixedShr(t, x, y)
  }

  /** The folded value is one of t. */
  predicate FoldsInto(e: Const, t: IntType)
  {
    Fold(e).Some? && InRange(Fold(e).value, t)
  }

  /** The operands of / % and >> fold into the range of t, counts into that of their own type. */
  predicate Tame(e: Const, t: IntType)
  {
    match e
    case Literal(_) => true
    case Negate(o) => Tame(o, t)
    case Invert(o) => Tame(o, t)
    case Compute(op, l, r) =>
      && Tame(l, t) && Tame(r, t)
      && (op.Div? || op.Rem? ==> FoldsInto(l, t) && FoldsInto(r, t))
    case ShiftUp(l, r, ct) => Tame(l, t) && IsMortType(ct) && Tame(r, ct) && FoldsInto(r, ct)
    case ShiftDown(l, r, ct) => Tame(l, t) && FoldsInto(l, t) && IsMortType(ct) && Tame(r, ct) && FoldsInto(r, ct)
  }

  lemma {:induction false} ExactWraps(t: IntType, op: ArithOp, a: int, b: int)
    requires IsMortType(t) && !op.Div? && !op.Rem?
    ensures Wrap(t, Exact(op, Wrap(t, a), Wrap(t, b))) == Wrap(t, Exact(op, a, b))
  {
    WrapIsCongruent(t, a);
    WrapIsCongruent(t, b);
    ExactCongruent(op, Wrap(t, a), a, Wrap(t, b), b, t.bits);
    WrapCongruent(t, Exact(op, Wrap(t, a), Wrap(t, b)), Exact(op, a, b));
  }

  /** A shift up by any count, including the folder's cap, wraps to what the helper computes. */
  lemma {:induction false} ShiftUpWraps(t: IntType, a: int, count: nat)
    requires IsMortType(t)
    ensures Wrap(t, Wrap(t, a) * Pow2(count)) == Wrap(t, a * Pow2(count))
    ensures count > 64 ==> Wrap(t, a * Pow2(count)) == Wrap(t, Pow2(65))
  {
    WrapIsCongruent(t, a);
    assert Congruent(Pow2(count), Pow2(count), t.bits);
    CongruentMul(Wrap(t, a), a, Pow2(count), Pow2(count), t.bits);
    WrapCongruent(t, Wrap(t, a) * Pow2(count), a * Pow2(count));
    if count > 64 {
      ShiftedOut(a, count, t.bits);
      ShiftedOut(1, 65, t.bits);
      WrapCongruent(t, a * Pow2(count), Pow2(65));
    }
  }

  /** The value an evaluated subtree has. */
  lemma {:induction false} WrappedIs(t: IntType, v: int)
    requires IsMortType(t)
    ensures Is(CValue(Wrap(t, v), t), t)
    ensures InRange(v, t) ==> Wrap(t, v) == v
  {
    WrapIsCongruent(t, v);
    if InRange(v, t) { WrapInRange(t, v); }
  }

  lemma {:induction false} UnaryAgrees(e: Const, o: Const, t: IntType)
    requires (e == Negate(o) || e == Invert(o)) && IsMortType(t) && Fold(o).Some?
    requires Evaluate(o, t) == Val(CValue(Wrap(t, Fold(o).value), t))
    ensures Evaluate(e, t) == Val(CValue(Wrap(t, Fold(e).value), t))
  {
    hide Wrap, FixedNegate, FixedComplement, Congruent, InRange, Pow2;
    var v := Fold(o).value;
    var x := CValue(Wrap(t, v), t);
    WrappedIs(t, v);
    NegateCorrect(t, x);
    ComplementCorrect(t, x);
    ExactWraps(t, ArithOp.Sub, 0, v);
    ExactWraps(t, ArithOp.Sub, -1, v);
    WrapIsCongruent(t, v);
    CongruentRefl(0, t.bits);
    CongruentRefl(-1, t.bits);
    CongruentAdd(0, 0, x.v, v, t.bits);
    CongruentAdd(-1, -1, x.v, v, t.bits);
    WrapCongruent(t, 0 - x.v, 0 - v);
    WrapCongruent(t, -1 - x.v, -1 - v);
  }

  lemma {:induction false} ComputeAgrees(e: Const, t: IntType)
    requires e.Compute? && IsMortType(t) && Fold(e).Some? && Tame(e, t)
    requires Evaluate(e.left, t) == Val(CValue(Wrap(t, Fold(e.left).value), t))
    requires Evaluate(e.right, t) == Val(CValue(Wrap(t, Fold(e.right).value), t))
    ensures Evaluate(e, t) == Val(CValue(Wrap(t, Fold(e).value), t))
  {
    hide Wrap, Exact, DivHelper, FixedBinary;
    var a, b := Fold(e.left).value, Fold(e.right).value;
    WrappedIs(t, a);
    WrappedIs(t, b);
    var x, y := CValue(Wrap(t, a), t), CValue(Wrap(t, b), t);
    if e.op.Div? || e.op.Rem? {
      DivisionCorrect(t, e.op, x, y);
    } else {
      BinaryCorrect(t, e.op, x, y);
      ExactWraps(t, e.op, a, b);
    }
  }

  lemma {:induction false} ShiftUpAgrees(e: Const, t: IntType)
    requires e.ShiftUp? && IsMortType(t) && Fold(e).Some? && Tame(e, t)
    requires Evaluate(e.left, t) == Val(CValue(Wrap(t, Fold(e.left).value), t))
    requires Evaluate(e.right, e.countType) == Val(CValue(Wrap(e.countType, Fold(e.right).value), e.countType))
    ensures Evaluate(e, t) == Val(CValue(Wrap(t, Fold(e).value), t))
  {
    hide Wrap, FixedShl, Pow2;
    var a, b := Fold(e.left).value, Fold(e.right).value;
    WrappedIs(t, a);
    WrappedIs(e.countType, b);
    ShiftsCorrect(t, CValue(Wrap(t, a), t), CValue(b, e.countType));
    ShiftUpWraps(t, a, b);
  }

  lemma {:induction false} ShiftDownAgrees(e: Const, t: IntType)
    requires e.ShiftDown? && IsMortType(t) && Fold(e).Some? && Tame(e, t)
    requires Evaluate(e.left, t) == Val(CValue(Wrap(t, Fold(e.left).value), t))
    requires Evaluate(e.right, e.countType) == Val(CValue(Wrap(e.countType, Fold(e.right).value), e.countType))
    ensures Evaluate(e, t) == Val(CValue(Wrap(t, Fold(e).value), t))
  {
    hide Wrap, FixedShr, Pow2;
    var a, b := Fold(e.left).value, Fold(e.right).value;
    WrappedIs(t, a);
    WrappedIs(e.countType, b);
    ShiftsCorrect(t, CValue(Wrap(t, a), t), CValue(b, e.countType));
    ShiftInRange(a, b, t);
    WrappedIs(t, a / Pow2(b));
  }

  /** For every constant tree, type and nesting: wrapping the unbounded fold gives what the emitted
      operators give, with no trap and no undefined step. */
  lemma {:induction false} FoldAgreesWithRuntime(e: Const, t: IntType)
    requires IsMortType(t) && Fold(e).Some? && Tame(e, t)
    ensures Evaluate(e, t) == Val(CValue(Wrap(t, Fold(e).value), t))
    ensures FoldsInto(e, t) ==> Evaluate(e, t) == Val(CValue(Fold(e).value, t))
  {
    hide Wrap;
    match e {
      case Literal(_) =>
      case Negate(o) => FoldAgreesWithRuntime(o, t); UnaryAgrees(e, o, t);
      case Invert(o) => FoldAgreesWithRuntime(o, t); UnaryAgrees(e, o, t);
      case Compute(_, l, r) =>
        FoldAgreesWithRuntime(l, t);
        FoldAgreesWithRuntime(r, t);
        ComputeAgrees(e, t);
      case ShiftUp(l, r, ct) =>
        FoldAgreesWithRuntime(l, t);
        FoldAgreesWithRuntime(r, ct);
        ShiftUpAgrees(e, t);
      case ShiftDown(l, r, ct) =>
        FoldAgreesWithRuntime(l, t);
        FoldAgreesWithRuntime(r, ct);
        ShiftDownAgrees(e, t);
    }
    WrappedIs(t, Fold(e).value);
  }

  /** (a + b) / 2 */
  function HalfSum(a: int, b: int): Const
  {
    Compute(Div, Compute(ArithOp.Add, Literal(a), Literal(b)), Literal(2))
  }

  /** Without the range condition the two differ: the fold of (a + b) / 2 agrees with its run-time
      value exactly when a + b fits, although the fold itself always fits and is accepted. */
  lemma {:induction false} HalfSumAgreesIff(t: IntType, a: int, b: int)
    requires IsMortType(t) && !t.signed && InRange(a, t) && InRange(b, t)
    ensures FoldsInto(HalfSum(a, b), t)
    ensures Evaluate(HalfSum(a, b), t) == Val(CValue(Fold(HalfSum(a, b)).value, t)) <==> InRange(a + b, t)
  {
    hide Evaluate, Wrap, Congruent, HalfSum, Fold;
    FoldOfHalf(a, b);
    ValueOfHalf(t, a, b);
    WrappedIs(t, a + b);
    hide Pow2, InRange;
    HalfOfWrapped(t, a, b);
  }

  /** A sum that does not fit loses 2^n, so its half loses 2^(n-1). */
  lemma {:induction false} HalfOfWrapped(t: IntType, a: int, b: int)
    requires IsMortType(t) && !t.signed && InRange(a, t) && InRange(b, t)
    ensures Wrap(t, a + b) / 2 == (a + b) / 2 <==> InRange(a + b, t)
  {
    hide Wrap, Congruent;
    var n := Pow2(t.bits - 1);
    assert Pow2(t.bits) == 2 * n && n >= 1;
    if InRange(a + b, t) {
      WrapInRange(t, a + b);
    } else {
      CongruentBy(a + b - 2 * n, a + b, t.bits, -1);
      WrapIs(t, a + b, a + b - 2 * n);
      assert Wrap(t, a + b) / 2 == (a + b) / 2 - n;
    }
  }

  lemma {:induction false} FoldOfHalf(a: int, b: int)
    requires a >= 0 && b >= 0
    ensures Fold(HalfSum(a, b)) == Some((a + b) / 2)
  {
    assert Fold(Compute(ArithOp.Add, Literal(a), Literal(b))) == Some(a + b);
    assert Fold(Literal(2)) == Some(2);
  }

  lemma {:induction false} ValueOfHalf(t: IntType, a: int, b: int)
    requires IsMortType(t) && !t.signed && InRange(a, t) && InRange(b, t)
    ensures Evaluate(HalfSum(a, b), t) == Val(CValue(Wrap(t, a + b) / 2, t))
  {
    hide Wrap, FixedBinary, DivHelper, Congruent;
    var sum := Compute(ArithOp.Add, Literal(a), Literal(b));
    var s := CValue(Wrap(t, a + b), t);
    Powers();
    WrappedIs(t, a);
    WrappedIs(t, b);
    WrappedIs(t, 2);
    WrappedIs(t, a + b);
    HalvingIs(t, s.v);
    hide Pow2, InRange, TruncDiv;
    BinaryCorrect(t, ArithOp.Add, CValue(a, t), CValue(b, t));
    assert Evaluate(sum, t) == Val(s);
    assert Evaluate(Literal(2), t) == Val(CValue(2, t));
  }

  lemma {:induction false} HalvingIs(t: IntType, v: int)
    requires IsMortType(t) && !t.signed && InRange(v, t)
    ensures DivHelper(t, Div, CValue(v, t), CValue(2, t)) == Val(CValue(v / 2, t))
  {
    hide Wrap, FixedBinary, DivHelper, Congruent;
    Powers();
    DivisionCorrect(t, Div, CValue(v, t), CValue(2, t));
    assert TruncDiv(v, 2) == v / 2;
    WrappedIs(t, v / 2);
  }

  // ----- spelling a folded value in C -----

  /** `_c_int_literal`: the literal, with its suffix's type, before the final cast. */
  function Spelled(v: int): CValue
  {
    if v >= 0 then
      if v > 0x7fff_ffff_ffff_ffff then CValue(v, IntType(64, false))
      else if v > 0x7fff_ffff then CValue(v, IntType(64, true))
      else CValue(v, INT)
    else if -v > 0x7fff_ffff_ffff_ffff then CValue(v + 0x1_0000_0000_0000_0000, IntType(64, false))
    else if -v > 0x7fff_ffff then CValue(v, IntType(64, true))
    else CValue(v, INT)
  }

  /** Every value of every type is spelled by a literal its suffix can hold, also before a minus
      sign. The cast is defined, and then gives the value back, exactly if the value is not INT64_MIN:
      that one is spelled by its unsigned pattern, whose conversion to a signed type section 6.3.1.3
      leaves to the implementation. */
  lemma {:induction false} SpellingDenotes(v: int, t: IntType)
    requires IsMortType(t) && InRange(v, t)
    ensures var s := Spelled(v);
      && InRange(s.v, s.ty) && InRange(Abs(s.v), s.ty)
      && (Convert(s, t) == Val(CValue(v, t)) <==> v != -0x8000_0000_0000_0000)
      && (Convert(s, t) == Undefined <==> v == -0x8000_0000_0000_0000)
      && Congruent(s.v, v, 64)
  {
    Powers();
    if v == -0x8000_0000_0000_0000 {
      CongruentBy(Spelled(v).v, v, 64, 1);
    } else if !t.signed {
      SmallMod(v, t.bits);
    }
  }
}
