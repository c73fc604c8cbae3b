/** What the operators of the fixed-width integers give, said bit by bit and with the arithmetic of the
    integers only. */
module ExactArithmetic {
  import opened MortSyntax
  import opened FixedWidth
  import opened IntegerLowering
  import opened ConstantFolding

  // ----- bits -----

  /** The i-th bit in two's complement, the sign repeated without end. */
  function Bit(a: int, i: nat): (b: int)
    ensures 0 <= b <= 1
    decreases i
  {
    if i == 0 then a % 2 else Bit(a / 2, i - 1)
  }

  lemma {:induction false} BitIsQuotient(a: int, i: nat)
    ensures Bit(a, i) == (a / Pow2(i)) % 2
    decreases i
  {
    if i == 0 {
      assert Pow2(0) == 1;
    } else {
      BitIsQuotient(a / 2, i - 1);
      HalfThenPower(a, i - 1);
    }
  }

  lemma {:induction false} HalfThenPower(a: int, n: nat)
    ensures (a / 2) / Pow2(n) == a / Pow2(n + 1)
  {
    var p, h := Pow2(n), a / 2;
    var q := h / p;
    assert h == q * p + h % p;
    assert a == 2 * h + a % 2;
    assert a == q * (2 * p) + (2 * (h % p) + a % 2) by { assert 2 * (q * p) == q * (2 * p); }
    DivModUnique(a, 2 * p, q, 2 * (h % p) + a % 2);
  }

  /** Every bit of the three operators. */
  lemma {:induction false} BitwiseBits(a: int, b: int, i: nat)
    ensures Bit(Bitwise(AndBits, a, b), i) == 1 <==> Bit(a, i) == 1 && Bit(b, i) == 1
    ensures Bit(Bitwise(OrBits, a, b), i) == 1 <==> Bit(a, i) == 1 || Bit(b, i) == 1
    ensures Bit(Bitwise(XorBits, a, b), i) == 1 <==> Bit(a, i) != Bit(b, i)
    decreases i
  {
    BitwiseHalves(AndBits, a, b);
    BitwiseHalves(OrBits, a, b);
    BitwiseHalves(XorBits, a, b);
    hide Bitwise;
    if i > 0 { BitwiseBits(a / 2, b / 2, i - 1); }
  }

  lemma {:induction false} BitwiseHalves(k: BitKind, a: int, b: int)
    ensures Bitwise(k, a, b) / 2 == Bitwise(k, a / 2, b / 2)
    ensures Bitwise(k, a, b) % 2 == BitOf(k, a % 2, b % 2)
  {
    BitwiseStep(k, a, b);
  }

  /** A number is its bits. */
  lemma {:induction false} BitsDetermine(a: int, b: int)
    requires forall i: nat :: Bit(a, i) == Bit(b, i)
    ensures a == b
    decreases Magnitude(a) + Magnitude(b)
  {
    assert Bit(a, 0) == Bit(b, 0);
    if Magnitude(a) == 0 && Magnitude(b) == 0 {
      assert a == -(a % 2) && b == -(b % 2);
    } else {
      forall i: nat ensures Bit(a / 2, i) == Bit(b / 2, i) { assert Bit(a, i + 1) == Bit(b, i + 1); }
      BitsDetermine(a / 2, b / 2);
    }
  }

  /** The carries and the sum without them. */
  lemma {:induction false} SumOfBits(a: int, b: int)
    ensures a + b == Bitwise(XorBits, a, b) + 2 * Bitwise(AndBits, a, b)
    ensures a + b == Bitwise(OrBits, a, b) + Bitwise(AndBits, a, b)
    decreases Magnitude(a) + Magnitude(b)
  {
    BitwiseStep(AndBits, a, b);
    BitwiseStep(OrBits, a, b);
    BitwiseStep(XorBits, a, b);
    if Magnitude(a) > 0 || Magnitude(b) > 0 { SumOfBits(a / 2, b / 2); }
  }

  // ----- the ranges -----

  lemma {:induction false} Ranges(v: int)
    ensures InRange(v, IntType(8, true)) <==> -0x80 <= v <= 0x7f
    ensures InRange(v, IntType(16, true)) <==> -0x8000 <= v <= 0x7fff
    ensures InRange(v, IntType(32, true)) <==> -0x8000_0000 <= v <= 0x7fff_ffff
    ensures InRange(v, IntType(64, true)) <==> -0x8000_0000_0000_0000 <= v <= 0x7fff_ffff_ffff_ffff
    ensures InRange(v, IntType(8, false)) <==> 0 <= v <= 0xff
    ensures InRange(v, IntType(16, false)) <==> 0 <= v <= 0xffff
    ensures InRange(v, IntType(32, false)) <==> 0 <= v <= 0xffff_ffff
    ensures InRange(v, IntType(64, false)) <==> 0 <= v <= 0xffff_ffff_ffff_ffff
  {
    Powers();
  }

  // ----- the operators -----

  /** The value of type t that differs from `exact` by a multiple of 2^bits; there is one. */
  predicate Yields(t: IntType, r: Result<CValue>, exact: int)
  {
    r.Val? && r.value.ty == t && InRange(r.value.v, t) && (r.value.v - exact) % Pow2(t.bits) == 0
  }

  lemma {:induction false} WrapYields(t: IntType, exact: int)
    requires t.bits > 0
    ensures Yields(t, Val(CValue(Wrap(t, exact), t)), exact)
  {
    WrapIsCongruent(t, exact);
    var q := CongruentGap(Wrap(t, exact), exact, t.bits);
    DivModUnique(Wrap(t, exact) - exact, Pow2(t.bits), q, 0);
  }

  /** All the operators give what integer arithmetic gives, wrapped; division truncates, and a zero
      divisor or a negative count stops the program. */
  lemma {:induction false} SumsMean(t: IntType, a: int, b: int)
    requires IsMortType(t) && InRange(a, t) && InRange(b, t)
    ensures var x, y := CValue(a, t), CValue(b, t);
      && Yields(t, FixedBinary(t, ArithOp.Add, x, y), a + b)
      && Yields(t, FixedBinary(t, ArithOp.Sub, x, y), a - b)
      && Yields(t, FixedBinary(t, ArithOp.Mul, x, y), a * b)
      && Yields(t, FixedNegate(t, x), -a)
      && Yields(t, FixedComplement(t, x), -a - 1)
  {
    hide FixedBinary, FixedNegate, FixedComplement, Wrap, Yields;
    var x, y := CValue(a, t), CValue(b, t);
    BinaryCorrect(t, ArithOp.Add, x, y);
    BinaryCorrect(t, ArithOp.Sub, x, y);
    BinaryCorrect(t, ArithOp.Mul, x, y);
    NegateCorrect(t, x);
    ComplementCorrect(t, x);
    WrapYields(t, a + b);
    WrapYields(t, a - b);
    WrapYields(t, a * b);
    WrapYields(t, -a);
    WrapYields(t, -a - 1);
  }

  predicate SameSign(m: int, a: int) { m == 0 || (m < 0 <==> a < 0) }

  lemma {:induction false} QuotientsMean(t: IntType, a: int, b: int) returns (q: int, m: int)
    requires IsMortType(t) && InRange(a, t) && InRange(b, t)
    ensures var x, y := CValue(a, t), CValue(b, t);
      if b == 0 then DivHelper(t, ArithOp.Div, x, y) == Trap && DivHelper(t, ArithOp.Rem, x, y) == Trap
      else
        && a == q * b + m && Abs(m) < Abs(b) && SameSign(m, a)
        && Yields(t, DivHelper(t, ArithOp.Div, x, y), q) && Yields(t, DivHelper(t, ArithOp.Rem, x, y), m)
  {
    hide DivHelper, Wrap, Yields, TruncDiv, TruncMod;
    var x, y := CValue(a, t), CValue(b, t);
    DivisionCorrect(t, ArithOp.Div, x, y);
    DivisionCorrect(t, ArithOp.Rem, x, y);
    if b == 0 {
      q, m := 0, 0;
    } else {
      q, m := TruncDiv(a, b), TruncMod(a, b);
      TruncationIsExact(a, b);
      WrapYields(t, q);
      WrapYields(t, m);
    }
  }

  /** At every bit that the type has. */
  lemma {:induction false} BitsMean(t: IntType, a: int, b: int, i: nat)
    requires IsMortType(t) && InRange(a, t) && InRange(b, t)
    ensures var x, y := CValue(a, t), CValue(b, t);
      var and, or, xor := FixedBinary(t, Bits(AndBits), x, y), FixedBinary(t, Bits(OrBits), x, y), FixedBinary(t, Bits(XorBits), x, y);
      && and.Val? && and.value.ty == t && InRange(and.value.v, t) && or.Val? && or.value.ty == t && InRange(or.value.v, t)
      && xor.Val? && xor.value.ty == t && InRange(xor.value.v, t)
      && (i < t.bits ==> (Bit(and.value.v, i) == 1 <==> Bit(a, i) == 1 && Bit(b, i) == 1))
      && (i < t.bits ==> (Bit(or.value.v, i) == 1 <==> Bit(a, i) == 1 || Bit(b, i) == 1))
      && (i < t.bits ==> (Bit(xor.value.v, i) == 1 <==> Bit(a, i) != Bit(b, i)))
  {
    hide FixedBinary, Wrap, InRange, Bit, Bitwise;
    BitwiseBits(a, b, i);
    OneBit(t, AndBits, a, b, i);
    OneBit(t, OrBits, a, b, i);
    OneBit(t, XorBits, a, b, i);
  }

  lemma {:induction false} OneBit(t: IntType, k: BitKind, a: int, b: int, i: nat)
    requires IsMortType(t) && InRange(a, t) && InRange(b, t)
    ensures var r := FixedBinary(t, Bits(k), CValue(a, t), CValue(b, t));
      r.Val? && r.value.ty == t && InRange(r.value.v, t) && (i < t.bits ==> Bit(r.value.v, i) == Bit(Bitwise(k, a, b), i))
  {
    hide FixedBinary, Bit, Bitwise;
    BinaryCorrect(t, Bits(k), CValue(a, t), CValue(b, t));
    WrapIsCongruent(t, Bitwise(k, a, b));
    if i < t.bits { CongruentBit(Wrap(t, Bitwise(k, a, b)), Bitwise(k, a, b), t.bits, i); }
  }

  lemma {:induction false} CongruentBit(a: int, b: int, n: nat, i: nat)
    requires Congruent(a, b, n) && i < n
    ensures Bit(a, i) == Bit(b, i)
    decreases n
  {
    CongruentHalf(a, b, n);
    if i > 0 { CongruentBit(a / 2, b / 2, n - 1, i - 1); }
  }

  /** A left shift multiplies, a right shift divides and rounds down. */
  lemma {:induction false} ShiftsMean(t: IntType, a: int, count: int, countType: IntType)
    requires IsMortType(t) && InRange(a, t) && IsMortType(countType) && InRange(count, countType)
    ensures var up, down := FixedShl(t, CValue(a, t), CValue(count, countType)), FixedShr(t, CValue(a, t), CValue(count, countType));
      if count < 0 then up == Trap && down == Trap
      else
        && Yields(t, up, a * Pow2(count))
        && down.Val? && down.value.ty == t && down.value.v * Pow2(count) <= a < (down.value.v + 1) * Pow2(count)
  {
    hide FixedShl, FixedShr, Wrap, Yields, Pow2;
    ShiftsCorrect(t, CValue(a, t), CValue(count, countType));
    if count >= 0 {
      WrapYields(t, a * Pow2(count));
      RoundsDown(a, Pow2(count));
    }
  }

  lemma {:induction false} RoundsDown(a: int, p: int)
    requires p > 0
    ensures (a / p) * p <= a < (a / p + 1) * p
  {
    assert a == (a / p) * p + a % p;
    assert (a / p + 1) * p == (a / p) * p + p;
  }

  // ----- what is folded -----

  function Parts(e: Const): set<Const>
  {
    {e} + match e
          case Literal(_) => {}
          case Negate(o) => Parts(o)
          case Invert(o) => Parts(o)
          case Compute(_, l, r) => Parts(l) + Parts(r)
          case ShiftUp(l, r, _) => Parts(l) + Parts(r)
          case ShiftDown(l, r, _) => Parts(l) + Parts(r)
  }

  /** A division by what folds to zero, or a shift by what folds to a negative count. */
  predicate Stuck(e: Const)
  {
    match e
    case Compute(op, _, r) => (op.Div? || op.Rem?) && Fold(r).Some? && Fold(r).value == 0
    case ShiftUp(_, r, _) => Fold(r).Some? && Fold(r).value < 0
    case ShiftDown(_, r, _) => Fold(r).Some? && Fold(r).value < 0
    case _ => false
  }

  /** A constant tree is folded exactly if nothing in it divides by zero or shifts by a negative count. */
  lemma {:induction false} FoldsIff(e: Const)
    ensures Fold(e).Some? <==> forall d | d in Parts(e) :: !Stuck(d)
  {
    match e
    case Literal(_) =>
    case Negate(o) => FoldsIff(o); PartsSplit(e, o, o);
    case Invert(o) => FoldsIff(o); PartsSplit(e, o, o);
    case Compute(_, l, r) => FoldsIff(l); FoldsIff(r); PartsSplit(e, l, r);
    case ShiftUp(l, r, _) => FoldsIff(l); FoldsIff(r); PartsSplit(e, l, r);
    case ShiftDown(l, r, _) => FoldsIff(l); FoldsIff(r); PartsSplit(e, l, r);
  }

  lemma {:induction false} PartsSplit(e: Const, l: Const, r: Const)
    requires Parts(e) == {e} + Parts(l) + Parts(r)
    ensures (forall d | d in Parts(e) :: !Stuck(d)) <==>
      !Stuck(e) && (forall d | d in Parts(l) :: !Stuck(d)) && (forall d | d in Parts(r) :: !Stuck(d))
  {
  }

  /** The folded values themselves: integers without a width. */
  lemma {:induction false} FoldMeans(l: Const, r: Const, a: int, b: int)
    requires Fold(l) == Some(a) && Fold(r) == Some(b)
    ensures Fold(Negate(l)) == Some(-a) && Fold(Invert(l)) == Some(-a - 1)
    ensures Fold(Compute(ArithOp.Add, l, r)) == Some(a + b)
    ensures Fold(Compute(ArithOp.Sub, l, r)) == Some(a - b)
    ensures Fold(Compute(ArithOp.Mul, l, r)) == Some(a * b)
    ensures b != 0 ==> Fold(Compute(ArithOp.Div, l, r)) == Some(TruncDiv(a, b)) && Fold(Compute(ArithOp.Rem, l, r)) == Some(TruncMod(a, b))
    ensures forall ty | 0 <= b <= 64 :: Fold(ShiftUp(l, r, ty)) == Some(a * Pow2(b))
    ensures forall ty | b >= 0 :: Fold(ShiftDown(l, r, ty)) == Some(a / Pow2(b))
  {
  }

  // ----- what C leaves undefined -----

  function Int(v: int): CValue { CValue(v, IntType(32, true)) }

  predicate FitsInt(v: int) { -0x8000_0000 <= v <= 0x7fff_ffff }

  /** Arithmetic on ints is defined exactly where the result is an int, and then it is the result; no
      operand narrower than int is computed with in its own type. */
  lemma {:induction false} IntArithmetic(a: int, b: int)
    requires FitsInt(a) && FitsInt(b)
    ensures Arith(ArithOp.Add, Int(a), Int(b)) == if FitsInt(a + b) then Val(Int(a + b)) else Undefined
    ensures Arith(ArithOp.Sub, Int(a), Int(b)) == if FitsInt(a - b) then Val(Int(a - b)) else Undefined
    ensures Arith(ArithOp.Mul, Int(a), Int(b)) == if FitsInt(a * b) then Val(Int(a * b)) else Undefined
    ensures b == 0 || (a == -0x8000_0000 && b == -1) ==>
      Arith(ArithOp.Div, Int(a), Int(b)) == Undefined && Arith(ArithOp.Rem, Int(a), Int(b)) == Undefined
  {
    hide Arith;
    IntResult(ArithOp.Add, a, b);
    IntResult(ArithOp.Sub, a, b);
    IntResult(ArithOp.Mul, a, b);
    if b == 0 || (a == -0x8000_0000 && b == -1) {
      NoQuotient(ArithOp.Div, a, b);
      NoQuotient(ArithOp.Rem, a, b);
    }
  }

  lemma {:induction false} IntIsInt(v: int)
    ensures InRange(v, IntType(32, true)) <==> FitsInt(v)
  {
    Powers();
  }

  lemma {:induction false} IntResult(op: ArithOp, a: int, b: int)
    requires FitsInt(a) && FitsInt(b) && !op.Div? && !op.Rem?
    ensures Arith(op, Int(a), Int(b)) == if FitsInt(Exact(op, a, b)) then Val(Int(Exact(op, a, b))) else Undefined
  {
    hide InRange, Exact;
    IntIsInt(a);
    IntIsInt(b);
    IntIsInt(Exact(op, a, b));
  }

  lemma {:induction false} NoQuotient(op: ArithOp, a: int, b: int)
    requires FitsInt(a) && (b == 0 || (a == -0x8000_0000 && b == -1)) && (op.Div? || op.Rem?)
    ensures Arith(op, Int(a), Int(b)) == Undefined
  {
    hide InRange;
    IntIsInt(a);
    IntIsInt(b);
    IntIsInt(0x8000_0000);
    if b == -1 { assert Exact(ArithOp.Div, a, b) == 0x8000_0000; }
  }

  lemma {:induction false} NarrowArithmetic(bits: nat, signed: bool, a: int, b: int, op: ArithOp)
    requires (bits == 8 || bits == 16) && InRange(a, IntType(bits, signed)) && InRange(b, IntType(bits, signed))
    ensures Arith(op, CValue(a, IntType(bits, signed)), CValue(b, IntType(bits, signed))) == Arith(op, Int(a), Int(b))
  {
  }

  /** So the square of the largest 16-bit value must not be computed with plain operators. */
  lemma {:induction false} PlainSquareIsUndefined()
    ensures Arith(ArithOp.Mul, CValue(0xffff, IntType(16, false)), CValue(0xffff, IntType(16, false))) == Undefined
  {
    Powers();
    NarrowArithmetic(16, false, 0xffff, 0xffff, ArithOp.Mul);
    IntArithmetic(0xffff, 0xffff);
  }

  /** Unsigned arithmetic of 32 and 64 bits is always defined, and wraps. */
  lemma {:induction false} UnsignedArithmetic(bits: nat, a: int, b: int)
    requires bits == 32 || bits == 64
    requires InRange(a, IntType(bits, false)) && InRange(b, IntType(bits, false))
    ensures var u := IntType(bits, false); var x, y := CValue(a, u), CValue(b, u);
      && Arith(ArithOp.Add, x, y) == Val(CValue((a + b) % Pow2(bits), u))
      && Arith(ArithOp.Sub, x, y) == Val(CValue((a - b) % Pow2(bits), u))
      && Arith(ArithOp.Mul, x, y) == Val(CValue((a * b) % Pow2(bits), u))
  {
    hide Pow2;
    SmallMod(a, bits);
    SmallMod(b, bits);
  }

  /** A shift of an int is defined only for counts 0 to 31 of a value that is not negative, to the left
      only where the result is an int. */
  lemma {:induction false} IntShifts(a: int, count: int)
    requires FitsInt(a) && FitsInt(count)
    ensures ShiftLeft(Int(a), Int(count)) ==
      if 0 <= count < 32 && a >= 0 && FitsInt(a * Pow2(count)) then Val(Int(a * Pow2(count))) else Undefined
    ensures ShiftRight(Int(a), Int(count)) == if 0 <= count < 32 && a >= 0 then Val(Int(a / Pow2(count))) else Undefined
  {
    hide InRange, Pow2;
    IntIsInt(a);
    if 0 <= count { IntIsInt(a * Pow2(count)); }
  }
}
