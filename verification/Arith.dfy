/** Division, remainder and product facts the layout proofs rest on. */
module Arith {

  /** Quotient and remainder are determined by the decomposition. */
  lemma DivModUnique(a: int, b: int, q: int, r: int)
    requires 0 <= r < b
    requires a == q * b + r
    ensures a / b == q && a % b == r
  {
    var q', r' := a / b, a % b;
    assert a == q' * b + r';
    assert (q' - q) * b == r - r';
    if q' > q {
      MulLe(1, q' - q, b);
    } else if q' < q {
      MulLe(1, q - q', b);
    }
  }

  lemma MulLe(x: int, y: int, b: int)
    requires x <= y && 0 <= b
    ensures x * b <= y * b
  {
  }

  lemma MulLt(x: int, y: int, b: int)
    requires x < y && 0 < b
    ensures x * b < y * b
  {
  }

  /** Multiplication by a positive factor reflects the order. */
  lemma MulCancelLt(x: int, y: int, b: int)
    requires x * b < y * b && 0 <= b
    ensures x < y
  {
  }

  lemma MulCancelEq(x: int, y: int, b: int)
    requires x * b == y * b && 0 < b
    ensures x == y
  {
  }

  /** A quotient stays below the other factor. */
  lemma DivBound(k: int, m: int, n: int)
    requires 0 <= m && 0 < n && 0 <= k < m * n
    ensures 0 <= k / n < m && 0 <= k % n < n
  {
  }

  lemma SelfDiv(p: int)
    requires 0 < p
    ensures p / p == 1 && p % p == 0
  {
  }

  /** Two successive divisions are one by the product, and the remainders split likewise. */
  lemma DivDiv(k: int, m: int, n: int)
    requires 0 <= k && 0 < m && 0 < n
    ensures m * n > 0
    ensures (k / n) / m == k / (m * n)
    ensures (k / n) % m == (k % (m * n)) / n
    ensures k % n == (k % (m * n)) % n
  {
    var q1, r1 := k / n, k % n;
    var q2, r2 := q1 / m, q1 % m;
    var r := r2 * n + r1;
    MixedRadix(r2, m, r1, n);
    assert k == q2 * (m * n) + r by {
      assert k == q1 * n + r1 && q1 == q2 * m + r2;
      MulDistrib(q2 * m, r2, n);
      MulAssoc(q2, m, n);
    }
    DivModUnique(k, m * n, q2, r);
    DivModUnique(r, n, r2, r1);
  }

  /** Order and cancellation with the common factor on the left. */
  lemma MulLtLeft(x: int, y: int, b: int)
    requires 0 < b
    ensures x < y <==> b * x < b * y
    ensures x == y <==> b * x == b * y
  {
  }

  lemma MulAssoc(a: int, b: int, c: int)
    ensures a * b * c == a * (b * c)
  {
  }

  lemma MulDistrib(a: int, b: int, c: int)
    ensures (a + b) * c == a * c + b * c
    ensures (a - b) * c == a * c - b * c
  {
  }

  /** One more digit in front of which `c` values fit. */
  lemma MixedRadix(r: int, c: int, x: int, n: int)
    requires 0 <= r < c && 0 <= x < n
    ensures 0 <= r * n + x < c * n
    ensures (r * n + x) / n == r && (r * n + x) % n == x
  {
    MulLe(r, c - 1, n);
    MulLe(0, r, n);
    assert (c - 1) * n == c * n - n;
    DivModUnique(r * n + x, n, r, x);
  }

  /** In a fixed radix, a number with the smaller leading part is the smaller one. */
  lemma RadixOrder(r: int, x: int, r': int, x': int, n: int)
    requires 0 <= x < n && 0 <= x' < n
    ensures r < r' ==> r * n + x < r' * n + x'
  {
    if r < r' {
      MulLe(r + 1, r', n);
      MulDistrib(r, 1, n);
    }
  }

  /** A product of positive factors is at least each of them. */
  lemma ProductGe(a: int, b: int)
    requires 0 < a && 0 < b
    ensures a * b >= a && a * b >= b
    ensures a * b == a <==> b == 1
    ensures a * b == b <==> a == 1
  {
  }

  function Pow2(i: nat): (p: nat)
    ensures p > 0
  {
    if i == 0 then 1 else 2 * Pow2(i - 1)
  }

  lemma {:induction false} Pow2Monotone(i: nat, j: nat)
    requires i <= j
    ensures Pow2(i) <= Pow2(j)
    decreases j
  {
    if i < j {
      Pow2Monotone(i, j - 1);
    }
  }

  lemma {:induction false} Pow2Sum(i: nat, j: nat)
    ensures Pow2(i) * Pow2(j) == Pow2(i + j)
    decreases j
  {
    if j > 0 {
      Pow2Sum(i, j - 1);
      assert Pow2(i) * (2 * Pow2(j - 1)) == 2 * (Pow2(i) * Pow2(j - 1));
    }
  }
}
