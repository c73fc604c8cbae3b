/** Mort's fixed-width integers as mathematics: ranges, wrapping, bits, and the exact operations
    whose wrapped results the language promises. */
module FixedWidth {

  function Pow2(n: nat): (p: int)
    ensures p >= 1
  {
    if n == 0 then 1 else 2 * Pow2(n - 1)
  }

  /** An integer type: one of i8..i64, u8..u64. */
  datatype IntType = IntType(bits: nat, signed: bool)

  predicate IsMortType(t: IntType)
  {
    t.bits == 8 || t.bits == 16 || t.bits == 32 || t.bits == 64
  }

  predicate InRange(v: int, t: IntType)
  {
    if t.signed then t.bits > 0 && -Pow2(t.bits - 1) <= v < Pow2(t.bits - 1) else 0 <= v < Pow2(t.bits)
  }

  /** The value of type t congruent to v modulo 2^bits. */
  function Wrap(t: IntType, v: int): int
    requires t.bits > 0
  {
    if t.signed then (v + Pow2(t.bits - 1)) % Pow2(t.bits) - Pow2(t.bits - 1) else v % Pow2(t.bits)
  }

  function Abs(a: int): nat { if a < 0 then -a else a }

  /** Division of magnitudes, negated when the signs differ: truncation toward zero. */
  function TruncDiv(a: int, b: int): int
    requires b != 0
  {
    var q := Abs(a) / Abs(b);
    if (a < 0) != (b < 0) then -q else q
  }

  function TruncMod(a: int, b: int): int
    requires b != 0
  {
    a - TruncDiv(a, b) * b
  }

  // ----- bits of unbounded integers, two's complement with infinite sign extension -----

  datatype BitKind = AndBits | OrBits | XorBits

  function BitOf(k: BitKind, a: int, b: int): int
  {
    match k
    case AndBits => if a == 1 && b == 1 then 1 else 0
    case OrBits => if a == 1 || b == 1 then 1 else 0
    case XorBits => if a != b then 1 else 0
  }

  function Magnitude(a: int): nat { if a < 0 then -a - 1 else a }

  function Bitwise(k: BitKind, a: int, b: int): int
    decreases Magnitude(a) + Magnitude(b)
  {
    if Magnitude(a) == 0 && Magnitude(b) == 0 then -BitOf(k, -a, -b)
    else 2 * Bitwise(k, a / 2, b / 2) + BitOf(k, a % 2, b % 2)
  }

  /** The recursion equation holds everywhere, also where the recursion stops. */
  lemma {:induction false} BitwiseStep(k: BitKind, a: int, b: int)
    ensures Bitwise(k, a, b) == 2 * Bitwise(k, a / 2, b / 2) + BitOf(k, a % 2, b % 2)
  {
    if Magnitude(a) == 0 && Magnitude(b) == 0 {
      assert a / 2 == a && b / 2 == b;
      assert a % 2 == -a && b % 2 == -b;
    }
  }

  // ----- arithmetic modulo powers of two -----

  /** How far from zero a product with a positive factor lies. */
  lemma {:induction false} Product(d: int, m: int)
    requires m > 0
    ensures d >= 1 ==> d * m >= m && d * m >= d
    ensures d <= -1 ==> d * m <= -m && d * m <= d
    ensures d >= 1 && m >= 2 ==> d * m >= 2 * d
    ensures d == 0 ==> d * m == 0
  {
    if d >= 1 {
      NotNegative(d - 1, m, d, m - 1);
      if m >= 2 { NotNegative(d, m - 2, 0, 0); }
    } else if d <= -1 {
      NotNegative(-d - 1, m, -d, m - 1);
    }
  }

  /** (a - 1) * b and a * (b - 1), spelled out. */
  lemma {:induction false} NotNegative(a: int, b: int, c: int, e: int)
    requires a >= 0 && b >= 0 && c >= 0 && e >= 0
    ensures a * b >= 0 && c * e >= 0
    ensures (a + 1) * b == a * b + b && a * (b + 2) == a * b + 2 * a && c * (e + 1) == c * e + c
    ensures (-a - 1) * b == -(a * b) - b && -c * (e + 1) == -(c * e) - c
  {
  }

  lemma {:induction false} DivModUnique(a: int, m: int, q: int, r: int)
    requires m > 0 && a == q * m + r && 0 <= r < m
    ensures a / m == q && a % m == r
  {
    var d := a / m - q;
    assert d * m == r - a % m by {
      assert a == (a / m) * m + a % m;
      assert d * m == (a / m) * m - q * m;
    }
    Product(d, m);
  }

  lemma {:induction false} SmallMod(a: int, n: nat)
    requires 0 <= a < Pow2(n)
    ensures a % Pow2(n) == a
  {
    DivModUnique(a, Pow2(n), 0, a);
  }

  lemma {:induction false} Pow2Add(a: nat, b: nat)
    ensures Pow2(a + b) == Pow2(a) * Pow2(b)
  {
    if b > 0 {
      Pow2Add(a, b - 1);
      assert Pow2(a + b) == 2 * (Pow2(a) * Pow2(b - 1)) == Pow2(a) * (2 * Pow2(b - 1));
    }
  }

  lemma {:induction false} Pow2Monotone(a: nat, b: nat)
    requires a <= b
    ensures Pow2(a) <= Pow2(b)
  {
    Pow2Add(a, b - a);
    assert Pow2(a) * Pow2(b - a) >= Pow2(a) * 1;
  }

  lemma Powers()
    ensures Pow2(7) == 0x80 && Pow2(8) == 0x100 && Pow2(15) == 0x8000 && Pow2(16) == 0x1_0000
    ensures Pow2(31) == 0x8000_0000 && Pow2(32) == 0x1_0000_0000
    ensures Pow2(63) == 0x8000_0000_0000_0000 && Pow2(64) == 0x1_0000_0000_0000_0000
  {
    assert Pow2(4) == 16 by { assert Pow2(2) == 4; }
    Pow2Add(4, 4);
    assert Pow2(3) == 8;
    Pow2Add(4, 3);
    Pow2Add(8, 8);
    Pow2Add(8, 7);
    Pow2Add(16, 16);
    Pow2Add(16, 15);
    Pow2Add(32, 32);
    Pow2Add(32, 31);
  }

  /** Equal modulo 2^n. */
  predicate Congruent(a: int, b: int, n: nat)
  {
    a % Pow2(n) == b % Pow2(n)
  }

  lemma CongruentRefl(a: int, n: nat)
    ensures Congruent(a, a, n)
  {
  }

  lemma {:induction false} CongruentBy(a: int, b: int, n: nat, q: int)
    requires a == b + q * Pow2(n)
    ensures Congruent(a, b, n)
  {
    var m := Pow2(n);
    assert a == (b / m + q) * m + b % m by {
      assert b == (b / m) * m + b % m;
      assert (b / m + q) * m == (b / m) * m + q * m;
    }
    DivModUnique(a, m, b / m + q, b % m);
  }

  /** The multiple of 2^n between two congruent numbers. */
  lemma {:induction false} CongruentGap(a: int, b: int, n: nat) returns (q: int)
    requires Congruent(a, b, n)
    ensures a == b + q * Pow2(n)
  {
    var m := Pow2(n);
    q := a / m - b / m;
    assert a == (a / m) * m + a % m && b == (b / m) * m + b % m;
    assert q * m == (a / m) * m - (b / m) * m;
  }

  lemma {:induction false} CongruentMod(a: int, n: nat)
    ensures Congruent(a % Pow2(n), a, n)
  {
    assert a == (a / Pow2(n)) * Pow2(n) + a % Pow2(n);
    CongruentBy(a, a % Pow2(n), n, a / Pow2(n));
  }

  lemma {:induction false} CongruentAdd(a: int, a1: int, b: int, b1: int, n: nat)
    requires Congruent(a, a1, n) && Congruent(b, b1, n)
    ensures Congruent(a + b, a1 + b1, n) && Congruent(a - b, a1 - b1, n)
  {
    var p := CongruentGap(a, a1, n);
    var q := CongruentGap(b, b1, n);
    assert (p + q) * Pow2(n) == p * Pow2(n) + q * Pow2(n);
    assert (p - q) * Pow2(n) == p * Pow2(n) - q * Pow2(n);
    CongruentBy(a + b, a1 + b1, n, p + q);
    CongruentBy(a - b, a1 - b1, n, p - q);
  }

  lemma {:induction false} CongruentMul(a: int, a1: int, b: int, b1: int, n: nat)
    requires Congruent(a, a1, n) && Congruent(b, b1, n)
    ensures Congruent(a * b, a1 * b1, n)
  {
    var p := CongruentGap(a, a1, n);
    var q := CongruentGap(b, b1, n);
    var m := Pow2(n);
    Expand(a1, b1, p, q, m);
    CongruentBy(a * b, a1 * b1, n, p * b1 + q * a1 + p * q * m);
  }

  lemma {:induction false} Expand(a: int, b: int, p: int, q: int, m: int)
    ensures (a + p * m) * (b + q * m) == a * b + (p * b + q * a + p * q * m) * m
  {
    assert (a + p * m) * (b + q * m) == a * b + a * (q * m) + (p * m) * b + (p * m) * (q * m);
    assert a * (q * m) == (q * a) * m && (p * m) * b == (p * b) * m;
    assert (p * m) * (q * m) == (p * q * m) * m;
    assert (p * b + q * a + p * q * m) * m == (p * b) * m + (q * a) * m + (p * q * m) * m;
  }

  /** Fewer bits see less. */
  lemma {:induction false} CongruentNarrow(a: int, b: int, n: nat, w: nat)
    requires Congruent(a, b, w) && n <= w
    ensures Congruent(a, b, n)
  {
    var q := CongruentGap(a, b, w);
    Pow2Add(n, w - n);
    assert q * (Pow2(n) * Pow2(w - n)) == (q * Pow2(w - n)) * Pow2(n);
    CongruentBy(a, b, n, q * Pow2(w - n));
  }

  lemma {:induction false} CongruentHalf(a: int, b: int, n: nat)
    requires n > 0 && Congruent(a, b, n)
    ensures Congruent(a / 2, b / 2, n - 1) && a % 2 == b % 2
  {
    var q := CongruentGap(a, b, n);
    assert q * Pow2(n) == 2 * (q * Pow2(n - 1));
    CongruentBy(a / 2, b / 2, n - 1, q);
  }

  lemma {:induction false} CongruentDouble(a: int, b: int, c: int, n: nat)
    requires n > 0 && Congruent(a, b, n - 1)
    ensures Congruent(2 * a + c, 2 * b + c, n)
  {
    var q := CongruentGap(a, b, n - 1);
    assert 2 * (q * Pow2(n - 1)) == q * Pow2(n);
    CongruentBy(2 * a + c, 2 * b + c, n, q);
  }

  /** The low bits of a bitwise operation depend only on the low bits of its operands. */
  lemma {:induction false} CongruentBits(k: BitKind, a: int, a1: int, b: int, b1: int, n: nat)
    requires Congruent(a, a1, n) && Congruent(b, b1, n)
    ensures Congruent(Bitwise(k, a, b), Bitwise(k, a1, b1), n)
    decreases n
  {
    if n > 0 {
      CongruentHalf(a, a1, n);
      CongruentHalf(b, b1, n);
      CongruentBits(k, a / 2, a1 / 2, b / 2, b1 / 2, n - 1);
      BitwiseStep(k, a, b);
      BitwiseStep(k, a1, b1);
      CongruentDouble(Bitwise(k, a / 2, b / 2), Bitwise(k, a1 / 2, b1 / 2), BitOf(k, a % 2, b % 2), n);
    }
  }

  /** Bitwise operations keep n-bit numbers n bits wide. */
  lemma {:induction false} BitsInRange(k: BitKind, a: int, b: int, n: nat)
    requires 0 <= a < Pow2(n) && 0 <= b < Pow2(n)
    ensures 0 <= Bitwise(k, a, b) < Pow2(n)
    decreases n
  {
    BitwiseStep(k, a, b);
    if n > 0 {
      BitsInRange(k, a / 2, b / 2, n - 1);
    }
  }

  /** Numbers with no bit in common: `|` adds them. */
  lemma {:induction false} OrAdds(low: int, high: int, k: nat)
    requires 0 <= low < Pow2(k)
    ensures Bitwise(OrBits, low, high * Pow2(k)) == low + high * Pow2(k)
    decreases k
  {
    if k == 0 {
      OrZero(high);
    } else {
      assert high * Pow2(k) == 2 * (high * Pow2(k - 1));
      OrAdds(low / 2, high, k - 1);
      BitwiseStep(OrBits, low, high * Pow2(k));
    }
  }

  lemma {:induction false} OrZero(a: int)
    ensures Bitwise(OrBits, 0, a) == a
    decreases Magnitude(a)
  {
    BitwiseStep(OrBits, 0, a);
    if Magnitude(a) > 0 { OrZero(a / 2); }
  }

  // ----- wrapping -----

  lemma {:induction false} WrapIsCongruent(t: IntType, v: int)
    requires t.bits > 0
    ensures InRange(Wrap(t, v), t) && Congruent(Wrap(t, v), v, t.bits)
  {
    var m, h := Pow2(t.bits), Pow2(t.bits - 1);
    if t.signed {
      CongruentMod(v + h, t.bits);
      CongruentAdd((v + h) % m, v + h, h, h, t.bits);
    } else {
      CongruentMod(v, t.bits);
    }
  }

  /** A type has one value for each residue. */
  lemma {:induction false} OneValuePerResidue(t: IntType, a: int, b: int)
    requires t.bits > 0 && InRange(a, t) && InRange(b, t) && Congruent(a, b, t.bits)
    ensures a == b
  {
    var q := CongruentGap(a, b, t.bits);
    var m := Pow2(t.bits);
    assert -m < a - b < m;
    Product(q, m);
  }

  /** How the lowered code earns its result: the right range and the right residue. */
  lemma {:induction false} WrapIs(t: IntType, v: int, r: int)
    requires t.bits > 0 && InRange(r, t) && Congruent(r, v, t.bits)
    ensures Wrap(t, v) == r
  {
    WrapIsCongruent(t, v);
    OneValuePerResidue(t, Wrap(t, v), r);
  }

  lemma {:induction false} WrapCongruent(t: IntType, a: int, b: int)
    requires t.bits > 0 && Congruent(a, b, t.bits)
    ensures Wrap(t, a) == Wrap(t, b)
  {
    WrapIsCongruent(t, b);
    WrapIs(t, a, Wrap(t, b));
  }

  lemma {:induction false} WrapInRange(t: IntType, v: int)
    requires t.bits > 0 && InRange(v, t)
    ensures Wrap(t, v) == v
  {
    WrapIs(t, v, v);
  }

  lemma {:induction false} QuotientBounds(x: nat, y: nat)
    requires y > 0
    ensures 0 <= x / y <= x
    ensures y > 1 && x > 0 ==> x / y < x
    ensures 0 <= x - (x / y) * y < y
  {
    var q := x / y;
    assert x == q * y + x % y;
    Product(q, y);
  }

  /** What truncating division means: the remainder has the dividend's sign and is smaller than the
      divisor; the quotient shrinks unless the divisor is 1 or -1. */
  lemma {:induction false} TruncationIsExact(a: int, b: int)
    requires b != 0
    ensures a == TruncDiv(a, b) * b + TruncMod(a, b)
    ensures Abs(TruncMod(a, b)) < Abs(b) && Abs(TruncMod(a, b)) <= Abs(a)
    ensures a >= 0 ==> TruncMod(a, b) >= 0
    ensures a <= 0 ==> TruncMod(a, b) <= 0
    ensures Abs(TruncDiv(a, b)) <= Abs(a)
    ensures Abs(b) > 1 && a != 0 ==> Abs(TruncDiv(a, b)) < Abs(a)
  {
    var x: int, y: int := Abs(a), Abs(b);
    QuotientBounds(x, y);
    var q: int := x / y;
    assert q * y >= 0;
    assert a < 0 ==> TruncDiv(a, b) * b == 0 - q * y;
    assert a >= 0 ==> TruncDiv(a, b) * b == q * y;
  }
}
