/** The order of binary64 values and of the integers the range indexes store for them. */
module F64Order {
  import opened Prelude
  import opened Keys

  const SIGN: nat := 0x8000_0000_0000_0000
  const HIDDEN: nat := 0x10_0000_0000_0000

  /** Exponent and significand fields together: the bits without the sign. */
  function Magnitude(x: F64): (m: nat)
    ensures m < SIGN
  {
    if SignNegative(x) then x - SIGN else x
  }

  function Pow2(k: nat): (p: nat)
    ensures p > 0
  {
    if k == 0 then 1 else 2 * Pow2(k - 1)
  }

  /** The absolute value of a finite number, in units of the smallest subnormal. */
  function Scaled(m: nat): nat
    requires m < SIGN
  {
    var e, f := m / 0x10_0000_0000_0000, m % 0x10_0000_0000_0000;
    if e == 0 then f else (HIDDEN + f) * Pow2(e - 1)
  }

  /** The value of a finite number, in units of the smallest subnormal. */
  function Value(x: F64): int
    requires Finite(x)
  {
    var v: int := Scaled(Magnitude(x));
    if SignNegative(x) then -v else v
  }

  lemma {:induction false} Pow2Grows(a: nat, b: nat)
    requires a < b
    ensures 2 * Pow2(a) <= Pow2(b)
  {
    if a + 1 < b {
      Pow2Grows(a, b - 1);
    }
  }

  lemma Significand(g: nat, a: nat, b: nat, p: nat)
    requires a < HIDDEN && p > 0 && 2 * p <= g
    ensures (HIDDEN + a) * p < (HIDDEN + b) * g
  {
    assert (HIDDEN + a) * p < 2 * HIDDEN * p by {
      assert (2 * HIDDEN - (HIDDEN + a)) * p > 0;
    }
    assert HIDDEN * (2 * p) <= HIDDEN * g;
    assert HIDDEN * g <= (HIDDEN + b) * g;
  }

  lemma Times(a: nat, b: nat, p: nat)
    requires a < b && p > 0
    ensures a * p < b * p
  {}

  /** A larger bit pattern is a larger absolute value. */
  lemma ScaledGrows(m: nat, n: nat)
    requires m < n < SIGN
    ensures Scaled(m) < Scaled(n)
  {
    var e, f := m / 0x10_0000_0000_0000, m % 0x10_0000_0000_0000;
    var g, h := n / 0x10_0000_0000_0000, n % 0x10_0000_0000_0000;
    if e == g {
      assert f < h;
      if e > 0 {
        Times(HIDDEN + f, HIDDEN + h, Pow2(e - 1));
      }
    } else if e == 0 {
      assert (HIDDEN + h) * Pow2(g - 1) >= HIDDEN + h by {
        assert (HIDDEN + h) * (Pow2(g - 1) - 1) >= 0;
      }
    } else {
      Pow2Grows(e - 1, g - 1);
      Significand(Pow2(g - 1), f, h, Pow2(e - 1));
    }
  }

  /** totalOrder of IEEE 754-2019 section 5.10: sign first, then the bits, reversed for negative values. */
  predicate TotalLe(a: F64, b: F64) {
    if SignNegative(a) != SignNegative(b) then SignNegative(a)
    else if SignNegative(a) then b <= a
    else a <= b
  }

  /** On finite numbers that is numeric order, with the two zeros apart. */
  lemma TotalIsNumeric(a: F64, b: F64)
    requires Finite(a) && Finite(b)
    ensures Value(a) < Value(b) ==> TotalLe(a, b)
    ensures TotalLe(a, b) ==> Value(a) <= Value(b)
    ensures Value(a) == Value(b) ==> a == b || (Value(a) == 0 && (TotalLe(a, b) <==> SignNegative(a)))
  {
    hide Scaled;
    var m, n := Magnitude(a), Magnitude(b);
    if m < n {
      ScaledGrows(m, n);
    } else if n < m {
      ScaledGrows(n, m);
    }
    ScaledSign(m);
    ScaledSign(n);
  }

  lemma ScaledSign(m: nat)
    requires m < SIGN
    ensures Scaled(m) == 0 <==> m == 0
  {
    if m > 0 {
      ScaledGrows(0, m);
    }
  }

  /** The stored integers sort in totalOrder. */
  lemma OrderedBitsSort(a: F64, b: F64)
    requires Finite(a) && Finite(b)
    ensures OrderedBits(a).value <= OrderedBits(b).value <==> TotalLe(a, b)
  {}

  // ---------------------------------------------------------------------
  // Range filters
  // ---------------------------------------------------------------------

  /** The lower limit of a scan; a bound that is not finite becomes 0. */
  function LowBits(lo: F64): u64 {
    if OrderedBits(lo).Some? then OrderedBits(lo).value else 0
  }

  /** The upper limit of a scan; a bound that is not finite becomes the largest integer. */
  function HighBits(hi: F64): u64 {
    if OrderedBits(hi).Some? then OrderedBits(hi).value else 0xFFFF_FFFF_FFFF_FFFF
  }

  /** What a range scan tests of a stored value. */
  predicate Scanned(lo: F64, hi: F64, x: F64)
    requires Finite(x)
  {
    LowBits(lo) <= OrderedBits(x).value <= HighBits(hi)
  }

  const POS_INF: F64 := 0x7FF0_0000_0000_0000
  const NEG_INF: F64 := 0xFFF0_0000_0000_0000

  /** A scan keeps `x` exactly when `lo <= x <= hi` in totalOrder, for the bounds that make sense. */
  lemma ScannedMeans(lo: F64, hi: F64, x: F64)
    requires Finite(x) && (Finite(lo) || SignNegative(lo)) && (Finite(hi) || !SignNegative(hi))
    ensures Scanned(lo, hi, x) <==> TotalLe(lo, x) && TotalLe(x, hi)
  {
    if Finite(lo) {
      OrderedBitsSort(lo, x);
    } else {
      NonFiniteOutside(lo, x);
    }
    if Finite(hi) {
      OrderedBitsSort(x, hi);
    } else {
      NonFiniteOutside(hi, x);
    }
  }

  /** Infinities and NaNs lie beyond every finite number on their side. */
  lemma NonFiniteOutside(y: F64, x: F64)
    requires Finite(x) && !Finite(y)
    ensures if SignNegative(y) then TotalLe(y, x) && !TotalLe(x, y) else TotalLe(x, y) && !TotalLe(y, x)
  {
    NonFiniteBits(y);
    FiniteBits(x);
  }

  lemma NonFiniteBits(y: F64)
    requires !Finite(y)
    ensures if SignNegative(y) then y >= NEG_INF else y >= POS_INF
  {}

  lemma FiniteBits(x: F64)
    requires Finite(x)
    ensures if SignNegative(x) then x < NEG_INF else x < POS_INF
  {}

  /**
   * A lower bound of +infinity (or a NaN with the sign of one) is taken for no bound at all, and so is an upper
   * bound of -infinity: those are exactly the bounds for which a scan and the order disagree.
   */
  lemma BoundsExact(lo: F64, hi: F64)
    ensures (forall x: F64 :: Finite(x) ==> (Scanned(lo, hi, x) <==> TotalLe(lo, x) && TotalLe(x, hi))) <==>
      (Finite(lo) || SignNegative(lo)) && (Finite(hi) || !SignNegative(hi))
  {
    if (Finite(lo) || SignNegative(lo)) && (Finite(hi) || !SignNegative(hi)) {
      forall x: F64 | Finite(x) ensures Scanned(lo, hi, x) <==> TotalLe(lo, x) && TotalLe(x, hi) {
        ScannedMeans(lo, hi, x);
      }
    } else {
      var x: F64 := if Finite(hi) then hi else if Finite(lo) then lo else 0;
      assert Finite(0);
      if !Finite(lo) {
        NonFiniteOutside(lo, x);
      }
      if !Finite(hi) {
        NonFiniteOutside(hi, x);
      }
      assert Scanned(lo, hi, x);
    }
  }
}
