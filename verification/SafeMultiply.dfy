/** `SafeMultiplies<size_t>`: it asserts exactly when a product does not fit. */
module SafeMultiply {
  import opened Arith
  import opened Wrappers

  const NBITS: nat := 64

  /** `size_t` arithmetic wraps at this. */
  const SIZE_LIMIT: nat := 0x1_0000_0000_0000_0000

  /** Leading zero bits; all of them for zero. */
  function Clz(x: nat): (n: nat)
    requires x < SIZE_LIMIT
    ensures n <= NBITS && x < Pow2(NBITS - n)
    ensures if x == 0 then n == NBITS else n < NBITS && Pow2(NBITS - 1 - n) <= x
  {
    PowNbits();
    LeadingZeros(x, NBITS)
  }

  function LeadingZeros(x: nat, bits: nat): (n: nat)
    requires x < Pow2(bits)
    ensures n <= bits && x < Pow2(bits - n)
    ensures if x == 0 then n == bits else n < bits && Pow2(bits - 1 - n) <= x
  {
    if bits == 0 || x >= Pow2(bits - 1) then 0 else 1 + LeadingZeros(x, bits - 1)
  }

  lemma PowNbits()
    ensures Pow2(NBITS) == SIZE_LIMIT
  {
    assert Pow2(4) == 16;
    Squared(4, 16);
    Squared(8, 0x100);
    Squared(16, 0x1_0000);
    Squared(32, 0x1_0000_0000);
    hide Pow2;
  }

  lemma Squared(i: nat, p: nat)
    requires Pow2(i) == p
    ensures Pow2(2 * i) == p * p
  {
    Pow2Sum(i, i);
  }

  /** `operator()`: every step wraps, and the assertion catches each way to overflow. */
  method Multiply(x: nat, y: nat) returns (r: Option<nat>)
    requires x < SIZE_LIMIT && y < SIZE_LIMIT
    ensures r == if x * y < SIZE_LIMIT then Some(x * y) else None
  {
    hide Pow2, Clz;
    var overflow := Clz(x) + Clz(y) + 2 <= NBITS;
    if overflow {
      FewZerosOverflow(x, y);
    } else {
      ManyZerosFit(x, y);
    }
    Doubled(x, y);
    r := DoubleAndAdd(x * (y / 2), x, y % 2 == 1, overflow);
  }

  /** Twice the product with half of `y`, and `x` once more if `y` is odd. */
  method DoubleAndAdd(half: nat, x: nat, odd: bool, flagged: bool) returns (r: Option<nat>)
    requires x < SIZE_LIMIT && (!flagged ==> half < SIZE_LIMIT)
    ensures var all := 2 * half + if odd then x else 0;
      r == if !flagged && all < SIZE_LIMIT then Some(all) else None
  {
    var t := half % SIZE_LIMIT;
    var overflow := flagged || t >= SIZE_LIMIT / 2;
    t := t * 2 % SIZE_LIMIT;
    if odd {
      t := (t + x) % SIZE_LIMIT;
      overflow := overflow || t < x;
    }
    return if overflow then None else Some(t);
  }

  lemma Doubled(x: nat, y: nat)
    ensures x * y == 2 * (x * (y / 2)) + if y % 2 == 1 then x else 0
    ensures x * (y / 2) >= 0
  {
    assert y == 2 * (y / 2) + y % 2;
    assert x * (2 * (y / 2) + y % 2) == 2 * (x * (y / 2)) + x * (y % 2);
  }

  lemma ProductAtLeast(x: nat, y: nat, a: nat, b: nat)
    requires Pow2(a) <= x && Pow2(b) <= y
    ensures Pow2(a + b) <= x * y
  {
    Pow2Sum(a, b);
    hide Pow2;
    MulLe(Pow2(a), x, Pow2(b));
    MulLe(Pow2(b), y, x);
  }

  lemma ProductBelow(x: nat, y: nat, a: nat, b: nat)
    requires x < Pow2(a) && y < Pow2(b)
    ensures x * y < Pow2(a + b)
  {
    Pow2Sum(a, b);
    hide Pow2;
    MulLe(x, Pow2(a), y);
    MulLt(y, Pow2(b), Pow2(a));
  }

  lemma FewZerosOverflow(x: nat, y: nat)
    requires x < SIZE_LIMIT && y < SIZE_LIMIT && Clz(x) + Clz(y) + 2 <= NBITS
    ensures x * y >= SIZE_LIMIT
  {
    hide Pow2, Clz;
    var a, b := NBITS - 1 - Clz(x), NBITS - 1 - Clz(y);
    ProductAtLeast(x, y, a, b);
    Pow2Monotone(NBITS, a + b);
    PowNbits();
  }

  lemma ManyZerosFit(x: nat, y: nat)
    requires x < SIZE_LIMIT && y < SIZE_LIMIT && Clz(x) + Clz(y) + 2 > NBITS
    ensures x * (y / 2) < SIZE_LIMIT
  {
    if y > 1 {
      var a, b := NBITS - Clz(x), NBITS - 1 - Clz(y);
      HalfBelow(y, b);
      hide Pow2, Clz;
      ProductBelow(x, y / 2, a, b);
      Pow2Monotone(a + b, NBITS);
      PowNbits();
    }
  }

  lemma HalfBelow(y: nat, b: nat)
    requires y < Pow2(b + 1)
    ensures y / 2 < Pow2(b)
  {
  }
}
