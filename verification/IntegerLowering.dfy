/** The C integer semantics the generated arithmetic relies on, and that arithmetic itself: every
    operator becomes unsigned C arithmetic or a helper, and no step is undefined. */
module IntegerLowering {
  import opened FixedWidth

  // ----- C integers (section 6 of ISO/IEC 9899:2011), `int` of 32 bits -----

  datatype CValue = CValue(v: int, ty: IntType)

  /** `Undefined` also stands for what the standard leaves to the implementation; `Trap` is the call
      of `mort_integer_failure`, which does not return. */
  datatype Result<+T> = Val(value: T) | Trap | Undefined
  {
    predicate IsFailure() { !Val? }
    function PropagateFailure<U>(): Result<U> requires !Val? { if Trap? then Trap else Undefined }
    function Extract(): T requires Val? { value }
  }

  const INT := IntType(32, true)

  function UnsignedOf(t: IntType): IntType { IntType(t.bits, false) }

  function ToUnsigned(x: CValue, bits: nat): CValue { CValue(x.v % Pow2(bits), IntType(bits, false)) }

  /** Section 6.3.1.3: to an unsigned type modulo 2^bits; to a signed type only what it can hold. */
  function Convert(x: CValue, t: IntType): Result<CValue>
  {
    if !t.signed then Val(ToUnsigned(x, t.bits))
    else if InRange(x.v, t) then Val(CValue(x.v, t)) else Undefined
  }

  /** Section 6.3.1.1: types narrower than int become int. */
  function Promote(x: CValue): CValue
  {
    if x.ty.bits < 32 then CValue(x.v, INT) else x
  }

  /** Section 6.3.1.8, for promoted operands: the wider type; at equal width, unsigned if either is. */
  function Common(a: IntType, b: IntType): IntType
  {
    if a.bits > b.bits then a
    else if a.bits < b.bits then b
    else IntType(a.bits, a.signed && b.signed)
  }

  datatype ArithOp = Add | Sub | Mul | Div | Rem | Bits(kind: BitKind)

  function Exact(op: ArithOp, a: int, b: int): int
    requires op.Div? || op.Rem? ==> b != 0
  {
    match op
    case Add => a + b
    case Sub => a - b
    case Mul => a * b
    case Div => TruncDiv(a, b)
    case Rem => TruncMod(a, b)
    case Bits(k) => Bitwise(k, a, b)
  }

  /** Sections 6.5.5, 6.5.6 and 6.5.10 to 6.5.12: unsigned results wrap; a signed result that does
      not fit, a zero divisor and a remainder whose quotient does not fit are undefined. */
  function Arith(op: ArithOp, a: CValue, b: CValue): Result<CValue>
  {
    var p, q := Promote(a), Promote(b);
    var t := Common(p.ty, q.ty);
    var x :- Convert(p, t);
    var y :- Convert(q, t);
    if (op.Div? || op.Rem?) && y.v == 0 then Undefined
    else if !t.signed then Val(CValue(Exact(op, x.v, y.v) % Pow2(t.bits), t))
    else if op.Rem? && !InRange(Exact(Div, x.v, y.v), t) then Undefined
    else if InRange(Exact(op, x.v, y.v), t) then Val(CValue(Exact(op, x.v, y.v), t)) else Undefined
  }

  /** Section 6.5.3.3: `~` of a promoted unsigned operand. */
  function Complement(a: CValue): Result<CValue>
  {
    var p := Promote(a);
    if !p.ty.signed then Val(CValue(Pow2(p.ty.bits) - 1 - p.v, p.ty)) else Val(CValue(-1 - p.v, p.ty))
  }

  /** Section 6.5.7: the promoted left operand gives the type; a count outside its width, a negative
      operand shifted and a signed result that does not fit are undefined. */
  function ShiftLeft(a: CValue, count: CValue): Result<CValue>
  {
    var p := Promote(a);
    if count.v < 0 || count.v >= p.ty.bits then Undefined
    else if !p.ty.signed then Val(CValue((p.v * Pow2(count.v)) % Pow2(p.ty.bits), p.ty))
    else if p.v >= 0 && InRange(p.v * Pow2(count.v), p.ty) then Val(CValue(p.v * Pow2(count.v), p.ty))
    else Undefined
  }

  function ShiftRight(a: CValue, count: CValue): Result<CValue>
  {
    var p := Promote(a);
    if count.v < 0 || count.v >= p.ty.bits || p.v < 0 then Undefined
    else Val(CValue(p.v / Pow2(count.v), p.ty))
  }

  // ----- literals and limits -----

  function IntLiteral(n: int): CValue { CValue(n, INT) }

  /** INTn_MAX and UINTn_MAX have the promoted type of their width. */
  function LimitType(t: IntType): IntType { if t.bits < 32 then INT else t }

  function MaxOf(t: IntType): CValue
    requires t.bits > 0
  {
    CValue(if t.signed then Pow2(t.bits - 1) - 1 else Pow2(t.bits) - 1, LimitType(t))
  }

  function MinOf(t: IntType): CValue
    requires t.bits > 0
  {
    CValue(-Pow2(t.bits - 1), LimitType(t))
  }

  // ----- the emitted helpers -----

  /** static inline intN_t mort_wrap_iN(uintN_t value) */
  function WrapHelper(t: IntType, value: CValue): Result<CValue>
    requires t.bits > 0
  {
    var max := ToUnsigned(MaxOf(t), t.bits);
    if value.v <= max.v then Convert(value, t)
    else
      var rest :- Arith(Sub, MaxOf(UnsignedOf(t)), value);
      var narrow :- Convert(rest, t);
      var below :- Arith(Sub, IntLiteral(-1), narrow);
      Convert(below, t)
  }

  /** `_fixed_wrap`: an unsigned bit pattern becomes a Mort integer. */
  function FixedWrap(t: IntType, code: CValue): Result<CValue>
    requires t.bits > 0
  {
    var u := ToUnsigned(code, t.bits);
    if t.signed then WrapHelper(t, u) else Val(u)
  }

  /** The type in which narrow arithmetic is done. */
  function Promoted(t: IntType): IntType { IntType(if t.bits <= 32 then 32 else 64, false) }

  function Widen(t: IntType, x: CValue): CValue
  {
    ToUnsigned(ToUnsigned(x, t.bits), Promoted(t).bits)
  }

  /** `_fixed_binary` for + - * & | ^. */
  function FixedBinary(t: IntType, op: ArithOp, left: CValue, right: CValue): Result<CValue>
    requires t.bits > 0
  {
    var x := Widen(t, left);
    var y := Widen(t, right);
    var code :- Arith(op, x, y);
    FixedWrap(t, code)
  }

  /** `_fixed_unary` for -. */
  function FixedNegate(t: IntType, operand: CValue): Result<CValue>
    requires t.bits > 0
  {
    var zero := ToUnsigned(IntLiteral(0), Promoted(t).bits);
    var x := Widen(t, operand);
    var code :- Arith(Sub, zero, x);
    FixedWrap(t, code)
  }

  /** `_fixed_unary` for ~. */
  function FixedComplement(t: IntType, operand: CValue): Result<CValue>
    requires t.bits > 0
  {
    var x := Widen(t, operand);
    var code :- Complement(x);
    FixedWrap(t, code)
  }

  /** mort_div_T and mort_rem_T. */
  function DivHelper(t: IntType, op: ArithOp, left: CValue, right: CValue): Result<CValue>
    requires t.bits > 0 && (op.Div? || op.Rem?)
  {
    if right.v == 0 then Trap
    else if t.signed && left.v == MinOf(t).v && right.v == -1 then
      Convert(if op.Div? then MinOf(t) else IntLiteral(0), t)
    else
      var q :- Arith(op, left, right);
      Convert(q, t)
  }

  /** The count as the helpers take it: uint64_t, after the sign check of signed counts. */
  function ShiftCount(right: CValue): Result<CValue>
  {
    if right.ty.signed then
      var count :- Convert(right, IntType(64, true));
      if count.v < 0 then Trap else Val(ToUnsigned(count, 64))
    else Val(ToUnsigned(right, 64))
  }

  /** mort_shl_T(value, count) */
  function ShlHelper(t: IntType, value: CValue, count: CValue): Result<CValue>
    requires t.bits > 0
  {
    if count.v >= t.bits then Convert(IntLiteral(0), t)
    else
      var x := Widen(t, value);
      var shifted :- ShiftLeft(x, count);
      if t.signed then
        WrapHelper(t, ToUnsigned(shifted, t.bits))
      else Convert(shifted, t)
  }

  /** mort_shr_T(value, count) */
  function ShrHelper(t: IntType, value: CValue, count: CValue): Result<CValue>
    requires t.bits > 0
  {
    if !t.signed then
      if count.v >= t.bits then Convert(IntLiteral(0), t)
      else
        var shifted :- ShiftRight(value, count);
        Convert(shifted, t)
    else if count.v >= t.bits then Convert(IntLiteral(if value.v < 0 then -1 else 0), t)
    else if count.v == 0 then Val(value)
    else
      var moved :- ShiftRight(ToUnsigned(value, t.bits), count);
      var shifted := ToUnsigned(moved, t.bits);
      if value.v < 0 then
        // shifted |= (uintN_t)(UINTN_MAX << (NU - count));
        var gap :- Arith(Sub, CValue(t.bits, IntType(32, false)), count);
        var mask :- ShiftLeft(MaxOf(UnsignedOf(t)), gap);
        var filled :- Arith(Bits(OrBits), shifted, ToUnsigned(mask, t.bits));
        WrapHelper(t, ToUnsigned(filled, t.bits))
      else WrapHelper(t, shifted)
  }

  function FixedShl(t: IntType, left: CValue, right: CValue): Result<CValue>
    requires t.bits > 0
  {
    var count :- ShiftCount(right);
    ShlHelper(t, left, count)
  }

  function FixedShr(t: IntType, left: CValue, right: CValue): Result<CValue>
    requires t.bits > 0
  {
    var count :- ShiftCount(right);
    ShrHelper(t, left, count)
  }

  // ----- correctness -----

  /** x is a value of the Mort type t. */
  predicate Is(x: CValue, t: IntType)
  {
    IsMortType(t) && x.ty == t && InRange(x.v, t)
  }

  lemma {:induction false} WrapHelperCorrect(t: IntType, value: CValue)
    requires IsMortType(t) && t.signed && Is(value, UnsignedOf(t))
    ensures WrapHelper(t, value) == Val(CValue(Wrap(t, value.v), t))
  {
    hide Wrap, Arith, Congruent, Pow2;
    Powers();
    var m := Pow2(t.bits);
    HalfRange(t);
    SmallMod(Pow2(t.bits - 1) - 1, t.bits);
    if value.v <= Pow2(t.bits - 1) - 1 {
      WrapInRange(t, value.v);
    } else {
      CongruentBy(value.v - m, value.v, t.bits, -1);
      WrapIs(t, value.v, value.v - m);
      SubtractFromMax(t, value);
    }
  }

  lemma {:induction false} HalfRange(t: IntType)
    requires IsMortType(t)
    ensures Pow2(t.bits) == 2 * Pow2(t.bits - 1) && Pow2(t.bits - 1) >= 1
  {
  }

  lemma {:induction false} SubtractFromMax(t: IntType, value: CValue)
    requires IsMortType(t) && t.signed && Is(value, UnsignedOf(t)) && value.v >= Pow2(t.bits - 1)
    ensures var rest := Arith(Sub, MaxOf(UnsignedOf(t)), value);
      && rest.Val? && rest.value.v == Pow2(t.bits) - 1 - value.v
      && Convert(rest.value, t) == Val(CValue(rest.value.v, t))
      && Arith(Sub, IntLiteral(-1), CValue(rest.value.v, t)) == Val(CValue(value.v - Pow2(t.bits), LimitType(t)))
  {
    hide Arith, Convert, InRange;
    var d := Pow2(t.bits) - 1 - value.v;
    SubtractRuns(t, value);
    SmallDifference(t, value, d);
    NegateRuns(t, d);
  }

  lemma {:induction false} SubtractRuns(t: IntType, value: CValue)
    requires IsMortType(t) && Is(value, UnsignedOf(t))
    ensures var rest := Arith(Sub, MaxOf(UnsignedOf(t)), value);
      rest.Val? && rest.value.v == Pow2(t.bits) - 1 - value.v
  {
    hide Pow2;
    Powers();
    SmallMod(Pow2(t.bits) - 1 - value.v, t.bits);
    SmallMod(Pow2(t.bits) - 1, t.bits);
    SmallMod(value.v, t.bits);
  }

  lemma {:induction false} SmallDifference(t: IntType, value: CValue, d: int)
    requires IsMortType(t) && t.signed && Is(value, UnsignedOf(t)) && value.v >= Pow2(t.bits - 1)
    requires d == Pow2(t.bits) - 1 - value.v
    ensures 0 <= d < Pow2(t.bits - 1) && forall ty :: Convert(CValue(d, ty), t) == Val(CValue(d, t))
  {
    assert Pow2(t.bits) == 2 * Pow2(t.bits - 1);
  }

  lemma {:induction false} NegateRuns(t: IntType, d: int)
    requires IsMortType(t) && t.signed && 0 <= d < Pow2(t.bits - 1)
    ensures Arith(Sub, IntLiteral(-1), CValue(d, t)) == Val(CValue(-1 - d, LimitType(t)))
  {
    hide Bitwise;
    Powers();
    if t.bits == 64 { assert LimitType(t).bits == 64; } else { assert LimitType(t).bits == 32; }
  }

  lemma {:induction false} FixedWrapCorrect(t: IntType, code: CValue)
    requires IsMortType(t)
    ensures FixedWrap(t, code) == Val(CValue(Wrap(t, code.v), t))
  {
    var u := code.v % Pow2(t.bits);
    CongruentMod(code.v, t.bits);
    WrapCongruent(t, u, code.v);
    if t.signed {
      WrapHelperCorrect(t, CValue(u, UnsignedOf(t)));
    } else {
      WrapInRange(t, u);
    }
  }

  lemma {:induction false} WidenIs(t: IntType, x: CValue)
    requires IsMortType(t)
    ensures Widen(t, x) == CValue(x.v % Pow2(t.bits), Promoted(t))
    ensures 0 <= x.v % Pow2(t.bits) < Pow2(Promoted(t).bits)
    ensures Congruent(x.v % Pow2(t.bits), x.v, t.bits)
  {
    hide Pow2, Congruent;
    var u := x.v % Pow2(t.bits);
    HalfRange(t);
    Pow2Monotone(t.bits, Promoted(t).bits);
    SmallMod(u, Promoted(t).bits);
    CongruentMod(x.v, t.bits);
  }

  lemma {:induction false} ExactCongruent(op: ArithOp, a: int, a1: int, b: int, b1: int, n: nat)
    requires !op.Div? && !op.Rem? && Congruent(a, a1, n) && Congruent(b, b1, n)
    ensures Congruent(Exact(op, a, b), Exact(op, a1, b1), n)
  {
    match op
    case Add => CongruentAdd(a, a1, b, b1, n);
    case Sub => CongruentAdd(a, a1, b, b1, n);
    case Mul => CongruentMul(a, a1, b, b1, n);
    case Bits(k) => CongruentBits(k, a, a1, b, b1, n);
  }

  /** Unsigned arithmetic in the promoted type never fails. */
  lemma {:induction false} UnsignedArith(op: ArithOp, a: int, b: int, t: IntType)
    requires IsMortType(t) && t.bits >= 32 && !t.signed && !op.Div? && !op.Rem?
    requires 0 <= a < Pow2(t.bits) && 0 <= b < Pow2(t.bits)
    ensures Arith(op, CValue(a, t), CValue(b, t)) == Val(CValue(Exact(op, a, b) % Pow2(t.bits), t))
  {
    hide Exact;
    SmallMod(a, t.bits);
    SmallMod(b, t.bits);
  }

  /** + - * & | ^ at run time: the exact result, wrapped, for all operands of all eight types. */
  lemma {:induction false} BinaryCorrect(t: IntType, op: ArithOp, left: CValue, right: CValue)
    requires Is(left, t) && Is(right, t) && !op.Div? && !op.Rem?
    ensures FixedBinary(t, op, left, right) == Val(CValue(Wrap(t, Exact(op, left.v, right.v)), t))
  {
    hide Exact, Arith, Widen, FixedWrap, Wrap;
    var p, n := Promoted(t), t.bits;
    WidenIs(t, left);
    WidenIs(t, right);
    var a, b := left.v % Pow2(n), right.v % Pow2(n);
    UnsignedArith(op, a, b, p);
    var code := Exact(op, a, b) % Pow2(p.bits);
    FixedWrapCorrect(t, CValue(code, p));
    CongruentMod(Exact(op, a, b), p.bits);
    CongruentNarrow(code, Exact(op, a, b), n, p.bits);
    ExactCongruent(op, a, left.v, b, right.v, n);
    WrapCongruent(t, code, Exact(op, left.v, right.v));
  }

  lemma {:induction false} NegateCorrect(t: IntType, x: CValue)
    requires Is(x, t)
    ensures FixedNegate(t, x) == Val(CValue(Wrap(t, -x.v), t))
  {
    hide Arith, Widen, FixedWrap, Wrap, Exact, Pow2, Congruent;
    var p, n := Promoted(t), t.bits;
    Pow2Monotone(0, p.bits);
    SmallMod(0, p.bits);
    WidenIs(t, x);
    var a := x.v % Pow2(n);
    UnsignedArith(Sub, 0, a, p);
    assert Exact(Sub, 0, a) == 0 - a && Exact(Sub, 0, x.v) == -x.v by { ExactSub(a); ExactSub(x.v); }
    var code := (0 - a) % Pow2(p.bits);
    FixedWrapCorrect(t, CValue(code, p));
    CongruentMod(0 - a, p.bits);
    CongruentNarrow(code, 0 - a, n, p.bits);
    CongruentRefl(0, n);
    ExactCongruent(Sub, 0, 0, a, x.v, n);
    WrapCongruent(t, code, -x.v);
  }

  lemma ExactSub(a: int)
    ensures Exact(Sub, 0, a) == 0 - a
  {
  }

  lemma {:induction false} ComplementCorrect(t: IntType, x: CValue)
    requires Is(x, t)
    ensures FixedComplement(t, x) == Val(CValue(Wrap(t, -1 - x.v), t))
  {
    hide Widen, FixedWrap, Wrap, Pow2, Congruent;
    var p, n := Promoted(t), t.bits;
    WidenIs(t, x);
    var a := x.v % Pow2(n);
    var code := Pow2(p.bits) - 1 - a;
    FixedWrapCorrect(t, CValue(code, p));
    CongruentBy(code, -1 - a, p.bits, 1);
    CongruentNarrow(code, -1 - a, n, p.bits);
    CongruentRefl(-1, n);
    CongruentAdd(-1, -1, a, x.v, n);
    WrapCongruent(t, code, -1 - x.v);
  }

  /** / and %: a zero divisor traps; otherwise truncating division, wrapped. */
  lemma {:induction false} DivisionCorrect(t: IntType, op: ArithOp, left: CValue, right: CValue)
    requires Is(left, t) && Is(right, t) && (op.Div? || op.Rem?)
    ensures DivHelper(t, op, left, right) ==
      if right.v == 0 then Trap else Val(CValue(Wrap(t, Exact(op, left.v, right.v)), t))
  {
    hide Arith, Wrap, TruncDiv, TruncMod, Pow2;
    if right.v != 0 {
      Powers();
      if t.signed && left.v == -Pow2(t.bits - 1) && right.v == -1 {
        OverflowingDivision(t, op, left.v);
      } else {
        QuotientFits(t, left.v, right.v);
        WrapInRange(t, Exact(op, left.v, right.v));
        DivisionRuns(t, op, left, right);
      }
    }
  }

  lemma {:induction false} OverflowingDivision(t: IntType, op: ArithOp, a: int)
    requires IsMortType(t) && t.signed && a == -Pow2(t.bits - 1) && (op.Div? || op.Rem?)
    ensures Wrap(t, Exact(op, a, -1)) == if op.Div? then a else 0
  {
    Powers();
    assert TruncDiv(a, -1) == -a;
    if op.Div? {
      CongruentBy(a, -a, t.bits, -1);
      WrapIs(t, -a, a);
    } else {
      WrapInRange(t, 0);
    }
  }

  lemma {:induction false} QuotientFits(t: IntType, a: int, b: int)
    requires IsMortType(t) && InRange(a, t) && InRange(b, t) && b != 0
    requires !(t.signed && a == -Pow2(t.bits - 1) && b == -1)
    ensures InRange(TruncDiv(a, b), t) && InRange(TruncMod(a, b), t)
  {
    TruncationIsExact(a, b);
    if !t.signed {
      QuotientBounds(a, b);
    } else if Abs(b) == 1 {
      assert Abs(a) / 1 == Abs(a);
    } else if a == 0 {
      assert 0 / Abs(b) == 0;
    }
  }

  /** Promotion to int changes no value, so the C operator computes the exact quotient. */
  lemma {:induction false} DivisionRuns(t: IntType, op: ArithOp, left: CValue, right: CValue)
    requires Is(left, t) && Is(right, t) && (op.Div? || op.Rem?) && right.v != 0
    requires InRange(TruncDiv(left.v, right.v), t) && InRange(TruncMod(left.v, right.v), t)
    ensures var q := Arith(op, left, right);
      q.Val? && Convert(q.value, t) == Val(CValue(Exact(op, left.v, right.v), t))
  {
    hide TruncDiv, TruncMod;
    Powers();
    var p := LimitType(t);
    RangeWidens(left.v, t, p);
    RangeWidens(right.v, t, p);
    RangeWidens(TruncDiv(left.v, right.v), t, p);
    RangeWidens(TruncMod(left.v, right.v), t, p);
  }

  lemma {:induction false} RangeWidens(v: int, t: IntType, p: IntType)
    requires IsMortType(t) && p == LimitType(t) && InRange(v, t)
    ensures InRange(v, p)
    ensures !p.signed ==> v % Pow2(p.bits) == v
    ensures !t.signed ==> v % Pow2(t.bits) == v
  {
    Powers();
    if !p.signed { SmallMod(v, p.bits); }
    if !t.signed { SmallMod(v, t.bits); }
  }

  // ----- shifts -----

  lemma {:induction false} CountCorrect(right: CValue)
    requires Is(right, right.ty)
    ensures ShiftCount(right) == if right.v < 0 then Trap else Val(CValue(right.v, IntType(64, false)))
  {
    Powers();
    if right.v >= 0 { SmallMod(right.v, 64); }
  }

  lemma {:induction false} ShiftedOut(v: int, c: nat, n: nat)
    requires c >= n
    ensures Congruent(v * Pow2(c), 0, n)
  {
    Pow2Add(c - n, n);
    assert v * (Pow2(c - n) * Pow2(n)) == (v * Pow2(c - n)) * Pow2(n);
    CongruentBy(v * Pow2(c), 0, n, v * Pow2(c - n));
  }

  /** << by any count: v * 2^count, wrapped. */
  lemma {:induction false} ShlCorrect(t: IntType, value: CValue, count: CValue)
    requires Is(value, t) && Is(count, IntType(64, false))
    ensures ShlHelper(t, value, count) == Val(CValue(Wrap(t, value.v * Pow2(count.v)), t))
  {
    hide Wrap, WrapHelper, Widen;
    var c, n, p := count.v, t.bits, Promoted(t);
    if c >= n {
      Powers();
      ShiftedOut(value.v, c, n);
      WrapIs(t, value.v * Pow2(c), 0);
      SmallMod(0, n);
    } else {
      WidenIs(t, value);
      var a := value.v % Pow2(n);
      var code := (a * Pow2(c)) % Pow2(p.bits);
      assert ShiftLeft(CValue(a, p), count) == Val(CValue(code, p));
      CongruentMod(a * Pow2(c), p.bits);
      CongruentNarrow(code, a * Pow2(c), n, p.bits);
      assert Congruent(Pow2(c), Pow2(c), n);
      CongruentMul(a, value.v, Pow2(c), Pow2(c), n);
      WrapCongruent(t, code, value.v * Pow2(c));
      FixedWrapCorrect(t, CValue(code, p));
      if !t.signed { assert FixedWrap(t, CValue(code, p)) == Val(ToUnsigned(CValue(code, p), n)); }
    }
  }

  lemma {:induction false} FloorBy(v: int, m: int, q: int, r: int)
    requires m > 0 && v == q * m + r && 0 <= r < m
    ensures v / m == q
  {
    DivModUnique(v, m, q, r);
  }

  lemma {:induction false} FloorBounds(v: int, m: int)
    requires m > 0
    ensures v >= 0 ==> 0 <= v / m <= v
    ensures v < 0 ==> v <= v / m <= -1
    ensures -m <= v < m ==> v / m == if v < 0 then -1 else 0
  {
    var q := v / m;
    assert v == q * m + v % m;
    Product(q, m);
    Product(q + 1, m);
    assert (q + 1) * m == q * m + m;
    if -m <= v < m { FloorBy(v, m, if v < 0 then -1 else 0, if v < 0 then v + m else v); }
  }

  /** Division by a power of two keeps a number's range. */
  lemma {:induction false} ShiftInRange(v: int, c: nat, t: IntType)
    requires IsMortType(t) && InRange(v, t)
    ensures InRange(v / Pow2(c), t)
    ensures c >= t.bits ==> v / Pow2(c) == if v < 0 then -1 else 0
  {
    FloorBounds(v, Pow2(c));
    if c >= t.bits {
      Pow2Monotone(t.bits, c);
      assert Pow2(t.bits) == 2 * Pow2(t.bits - 1);
    }
  }

  /** The mask of a sign-extending shift: g zeros below ones. */
  lemma {:induction false} MaskBits(n: nat, c: nat)
    requires c <= n
    ensures ((Pow2(n) - 1) * Pow2(n - c)) % Pow2(n) == (Pow2(c) - 1) * Pow2(n - c)
    ensures 0 <= (Pow2(c) - 1) * Pow2(n - c) < Pow2(n)
  {
    Pow2Add(c, n - c);
    MaskArithmetic(Pow2(n), Pow2(c), Pow2(n - c));
  }

  lemma {:induction false} MaskArithmetic(all: int, low: int, g: int)
    requires low >= 1 && g >= 1 && all == low * g
    ensures all > 0 && ((all - 1) * g) % all == (low - 1) * g && 0 <= (low - 1) * g < all
  {
    Product(low, g);
    Product(low - 1, g);
    assert (low - 1) * g == all - g;
    assert (all - 1) * g == (g - 1) * all + (all - g);
    DivModUnique((all - 1) * g, all, g - 1, all - g);
  }

  lemma {:induction false} ProductBound(a: int, a1: int, b: int, b1: int)
    requires 0 <= a <= a1 && 0 <= b <= b1
    ensures 0 <= a * b <= a1 * b1
  {
    assert 0 <= a * b <= a * b1 <= a1 * b1;
  }

  /** UINT8_MAX and UINT16_MAX are int: their shift by less than their width stays below 2^31. */
  lemma {:induction false} MaskRuns(t: IntType, g: CValue)
    requires IsMortType(t) && 0 < g.v < t.bits
    ensures var mask := ShiftLeft(MaxOf(UnsignedOf(t)), g);
      mask.Val? && mask.value.v % Pow2(t.bits) == (Pow2(t.bits) - 1) * Pow2(g.v) % Pow2(t.bits)
  {
    if t.bits < 32 { NarrowMask(t, g); } else { WideMask(t, g); }
  }

  /** An int shifted left: the product stays below 2^31. */
  lemma {:induction false} NarrowMask(t: IntType, g: CValue)
    requires (t.bits == 8 || t.bits == 16) && 0 < g.v < t.bits
    ensures ShiftLeft(MaxOf(UnsignedOf(t)), g) == Val(CValue((Pow2(t.bits) - 1) * Pow2(g.v), INT))
  {
    hide Pow2;
    MaskBound(t.bits, g.v);
  }

  lemma {:induction false} MaskBound(bits: nat, c: nat)
    requires (bits == 8 || bits == 16) && c < bits
    ensures Pow2(bits) >= 1 && 0 <= (Pow2(bits) - 1) * Pow2(c) && InRange((Pow2(bits) - 1) * Pow2(c), INT)
  {
    Powers();
    Pow2Monotone(c, 15);
    ProductBound(Pow2(bits) - 1, 0xffff, Pow2(c), 0x8000);
  }

  /** An unsigned operand as wide as the type: reduced modulo 2^n already. */
  lemma {:induction false} WideMask(t: IntType, g: CValue)
    requires (t.bits == 32 || t.bits == 64) && 0 < g.v < t.bits
    ensures var mask := ShiftLeft(MaxOf(UnsignedOf(t)), g);
      mask.Val? && mask.value.v % Pow2(t.bits) == (Pow2(t.bits) - 1) * Pow2(g.v) % Pow2(t.bits)
  {
    var x := (Pow2(t.bits) - 1) * Pow2(g.v);
    CongruentMod(x, t.bits);
    hide Pow2;
    assert ShiftLeft(MaxOf(UnsignedOf(t)), g) == Val(CValue(x % Pow2(t.bits), UnsignedOf(t)));
  }

  lemma {:induction false} GapRuns(t: IntType, count: CValue)
    requires IsMortType(t) && Is(count, IntType(64, false)) && 0 < count.v < t.bits
    ensures Arith(Sub, CValue(t.bits, IntType(32, false)), count) == Val(CValue(t.bits - count.v, IntType(64, false)))
  {
    Powers();
    SmallMod(t.bits, 64);
    SmallMod(count.v, 64);
    SmallMod(t.bits - count.v, 64);
  }

  lemma {:induction false} OrRuns(t: IntType, low: int, high: int)
    requires IsMortType(t) && 0 <= low < Pow2(t.bits) && 0 <= high < Pow2(t.bits)
    ensures var u := UnsignedOf(t); var r := Arith(Bits(OrBits), CValue(low, u), CValue(high, u));
      r.Val? && r.value.v == Bitwise(OrBits, low, high)
  {
    hide Bitwise;
    Powers();
    BitsInRange(OrBits, low, high, t.bits);
    SmallMod(low, t.bits);
    SmallMod(high, t.bits);
    SmallMod(Bitwise(OrBits, low, high), t.bits);
  }

  /** A negative value shifted right: the emptied high bits are filled with ones. */
  lemma {:induction false} SignFill(v: int, c: nat, n: nat)
    requires -Pow2(n) <= v < 0 && 0 < c < n
    ensures var low := (v + Pow2(n)) / Pow2(c); var high := (Pow2(c) - 1) * Pow2(n - c);
      0 <= low < Pow2(n) && Bitwise(OrBits, low, high) == v / Pow2(c) + Pow2(n)
  {
    Pow2Add(c, n - c);
    FillArithmetic(v, Pow2(c), Pow2(n - c));
    OrAdds((v + Pow2(n)) / Pow2(c), Pow2(c) - 1, n - c);
    Pow2Monotone(n - c, n);
  }

  lemma {:induction false} FillArithmetic(v: int, m: int, g: int)
    requires m > 0 && g > 0 && -(m * g) <= v < 0
    ensures (v + m * g) / m == v / m + g && 0 <= v / m + g < g
    ensures (m - 1) * g == m * g - g
  {
    var q := v / m;
    assert v == q * m + v % m;
    assert (q + g) * m == q * m + m * g;
    FloorBy(v + m * g, m, q + g, v % m);
    FloorBounds(v, m);
    FloorBounds(v + m * g, m);
  }

  lemma {:induction false} NegativeResidue(v: int, n: nat)
    requires -Pow2(n) <= v < 0
    ensures v % Pow2(n) == v + Pow2(n)
  {
    DivModUnique(v, Pow2(n), -1, v + Pow2(n));
  }

  /** >> by any count: floor(v / 2^count). */
  lemma {:induction false} ShrCorrect(t: IntType, value: CValue, count: CValue)
    requires Is(value, t) && Is(count, IntType(64, false))
    ensures ShrHelper(t, value, count) == Val(CValue(value.v / Pow2(count.v), t))
  {
    ShiftInRange(value.v, count.v, t);
    if t.signed { SignedShift(t, value, count); } else { UnsignedShift(t, value, count); }
  }

  lemma {:induction false} UnsignedShift(t: IntType, value: CValue, count: CValue)
    requires Is(value, t) && Is(count, IntType(64, false)) && !t.signed
    requires InRange(value.v / Pow2(count.v), t) && (count.v >= t.bits ==> value.v / Pow2(count.v) == 0)
    ensures ShrHelper(t, value, count) == Val(CValue(value.v / Pow2(count.v), t))
  {
    hide WrapHelper, Wrap, Arith, Bitwise;
    var r := value.v / Pow2(count.v);
    SmallMod(r, t.bits);
    if count.v < t.bits {
      assert ShiftRight(value, count) == Val(CValue(r, Promote(value).ty));
    }
  }

  lemma {:induction false} PositiveShift(t: IntType, value: CValue, count: CValue)
    requires Is(value, t) && Is(count, IntType(64, false)) && t.signed && value.v >= 0 && 0 < count.v < t.bits
    requires InRange(value.v / Pow2(count.v), t)
    ensures ShrHelper(t, value, count) == Val(CValue(value.v / Pow2(count.v), t))
  {
    hide WrapHelper, Wrap, Arith, Bitwise, ShiftLeft;
    var v, c, n := value.v, count.v, t.bits;
    FloorBounds(v, Pow2(c));
    assert v < Pow2(n) by { Powers(); }
    hide Pow2;
    SmallMod(v, n);
    SmallMod(v / Pow2(c), n);
    WrapHelperCorrect(t, CValue(v / Pow2(c), UnsignedOf(t)));
    WrapInRange(t, v / Pow2(c));
    assert ShiftRight(ToUnsigned(value, n), count) == Val(CValue(v / Pow2(c), Promote(ToUnsigned(value, n)).ty));
  }

  lemma {:induction false} SignedShift(t: IntType, value: CValue, count: CValue)
    requires Is(value, t) && Is(count, IntType(64, false)) && t.signed
    requires InRange(value.v / Pow2(count.v), t)
    requires count.v >= t.bits ==> value.v / Pow2(count.v) == if value.v < 0 then -1 else 0
    ensures ShrHelper(t, value, count) == Val(CValue(value.v / Pow2(count.v), t))
  {
    hide WrapHelper, Wrap, Arith, Bitwise, ShiftLeft;
    var v, c, n := value.v, count.v, t.bits;
    if 0 < c < n {
      if v < 0 {
        NegativeShift(t, value, count);
      } else {
        PositiveShift(t, value, count);
      }
    }
  }

  lemma {:induction false} LowestValue(t: IntType, value: CValue)
    requires Is(value, t) && t.signed
    ensures -Pow2(t.bits) <= value.v
  {
    Powers();
    if value.v < 0 { NegativeBound(value.v, t); }
  }

  lemma {:induction false} KnownWidth(t: IntType, value: CValue)
    requires Is(value, t)
    ensures IsMortType(t) && value.ty == t && InRange(value.v, t) && t.bits in {8, 16, 32, 64}
  {
  }

  lemma {:induction false} NegativeShift(t: IntType, value: CValue, count: CValue)
    requires Is(value, t) && Is(count, IntType(64, false)) && t.signed && value.v < 0 && 0 < count.v < t.bits
    requires InRange(value.v / Pow2(count.v), t)
    ensures ShrHelper(t, value, count) == Val(CValue(value.v / Pow2(count.v), t))
  {
    hide WrapHelper, Wrap, Arith, Bitwise, ShiftLeft, ShiftRight, MaxOf, ToUnsigned, InRange, Pow2, Is, IsMortType;
    var v, c, n := value.v, count.v, t.bits;
    LowestValue(t, value);
    KnownWidth(t, value);
    var low, high := (v + Pow2(n)) / Pow2(c), (Pow2(c) - 1) * Pow2(n - c);
    SignFill(v, c, n);
    LowBits(t, value, count);
    GapRuns(t, count);
    HighBits(t, c);
    MaskBits(n, c);
    OrRuns(t, low, high);
    FillWraps(t, v, c, Arith(Bits(OrBits), CValue(low, UnsignedOf(t)), CValue(high, UnsignedOf(t))).value);
  }

  lemma {:induction false} NegativeBound(v: int, t: IntType)
    requires IsMortType(t) && t.signed && InRange(v, t)
    ensures -Pow2(t.bits) <= v
  {
  }

  lemma {:induction false} LowBits(t: IntType, value: CValue, count: CValue)
    requires Is(value, t) && -Pow2(t.bits) <= value.v < 0 && 0 < count.v < t.bits
    requires 0 <= (value.v + Pow2(t.bits)) / Pow2(count.v) < Pow2(t.bits)
    ensures var low := (value.v + Pow2(t.bits)) / Pow2(count.v);
      var moved := ShiftRight(ToUnsigned(value, t.bits), count);
      moved.Val? && ToUnsigned(moved.value, t.bits) == CValue(low, UnsignedOf(t))
  {
    NegativeResidue(value.v, t.bits);
    SmallMod((value.v + Pow2(t.bits)) / Pow2(count.v), t.bits);
  }

  lemma {:induction false} HighBits(t: IntType, c: nat)
    requires IsMortType(t) && 0 < c < t.bits
    ensures var mask := ShiftLeft(MaxOf(UnsignedOf(t)), CValue(t.bits - c, IntType(64, false)));
      mask.Val? && ToUnsigned(mask.value, t.bits) == CValue((Pow2(c) - 1) * Pow2(t.bits - c), UnsignedOf(t))
  {
    hide ShiftLeft, MaxOf;
    MaskRuns(t, CValue(t.bits - c, IntType(64, false)));
    MaskBits(t.bits, c);
  }

  lemma {:induction false} FillWraps(t: IntType, v: int, c: nat, filled: CValue)
    requires IsMortType(t) && t.signed && InRange(v / Pow2(c), t) && filled.v == v / Pow2(c) + Pow2(t.bits)
    ensures WrapHelper(t, ToUnsigned(filled, t.bits)) == Val(CValue(v / Pow2(c), t))
  {
    hide WrapHelper, Wrap;
    CongruentBy(filled.v, v / Pow2(c), t.bits, 1);
    CongruentMod(filled.v, t.bits);
    WrapHelperCorrect(t, ToUnsigned(filled, t.bits));
    WrapIs(t, filled.v % Pow2(t.bits), v / Pow2(c));
  }

  /** The operators as emitted, with a count of any type: negative counts trap. */
  lemma {:induction false} ShiftsCorrect(t: IntType, left: CValue, right: CValue)
    requires Is(left, t) && Is(right, right.ty)
    ensures FixedShl(t, left, right) == if right.v < 0 then Trap else Val(CValue(Wrap(t, left.v * Pow2(right.v)), t))
    ensures FixedShr(t, left, right) == if right.v < 0 then Trap else Val(CValue(left.v / Pow2(right.v), t))
  {
    hide ShiftCount, ShlHelper, ShrHelper, Wrap;
    CountCorrect(right);
    if right.v >= 0 {
      Powers();
      ShlCorrect(t, left, CValue(right.v, IntType(64, false)));
      ShrCorrect(t, left, CValue(right.v, IntType(64, false)));
    }
  }
}
