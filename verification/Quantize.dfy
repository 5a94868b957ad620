/** Quantised data types in exact arithmetic: the code of a number is the nearest one the type has. */
module Quantize {
  import opened Arith

  datatype Kind = QUint8 | QInt8 | QInt16 | QInt32 | QUint4 | QInt1 | QInt4

  /** Least and greatest code; the greatest 32-bit one is the last that is a single-precision number. */
  function Range(k: Kind): (int, int) {
    match k
    case QUint8 => (0, 255)
    case QInt8 => (-128, 127)
    case QInt16 => (-32768, 32767)
    case QInt32 => (-2147483648, 2147483520)
    case QUint4 => (0, 15)
    case QInt1 => (0, 1)
    case QInt4 => (-8, 7)
  }

  /** Width of the stored code in bits, and whether it has a sign. */
  function Bits(k: Kind): nat {
    match k
    case QUint8 => 8
    case QInt8 => 8
    case QInt16 => 16
    case QInt32 => 32
    case QUint4 => 4
    case QInt1 => 1
    case QInt4 => 4
  }

  predicate IsSigned(k: Kind) {
    k == QInt8 || k == QInt16 || k == QInt32 || k == QInt4
  }

  /**
    The range is that of the width, except at the upper end of 32 bits: there it ends at the greatest
    multiple of 128, single precision having 24 of the 31 bits.
   */
  lemma RangeIsWidth(k: Kind)
    ensures Range(k).0 == if IsSigned(k) then -(Pow2(Bits(k) - 1) as int) else 0
    ensures k != QInt32 ==> Range(k).1 == if IsSigned(k) then Pow2(Bits(k) - 1) - 1 else Pow2(Bits(k)) - 1
    ensures k == QInt32 ==> Range(k).1 % 128 == 0 && Range(k).1 < Pow2(31) <= Range(k).1 + 128
  {
    assert Pow2(1) == 2 && Pow2(3) == 8 && Pow2(4) == 16 && Pow2(7) == 128 && Pow2(8) == 256;
    Pow2Sum(8, 7);
    Pow2Sum(16, 15);
    Pow2Sum(8, 8);
  }

  /** Only the unsigned types have a zero point, any byte. */
  predicate IsParam(k: Kind, zeroPoint: int, scale: real) {
    scale > 0.0 && 0 <= zeroPoint < 256 && (k != QUint8 && k != QUint4 ==> zeroPoint == 0)
  }

  predicate IsCode(k: Kind, q: int) {
    Range(k).0 <= q <= Range(k).1
  }

  /** `roundf`: halves go away from zero. */
  function Round(v: real): int {
    if v >= 0.0 then (v + 0.5).Floor else -((-v + 0.5).Floor)
  }

  function Clamp(q: int, low: int, high: int): int {
    if q < low then low else if q > high then high else q
  }

  function Scaled(a: real, scale: real): real {
    a * scale
  }

  function Unscaled(x: real, scale: real): real
    requires scale > 0.0
  {
    x / scale
  }

  function Quantize(k: Kind, zeroPoint: int, scale: real, x: real): (q: int)
    requires IsParam(k, zeroPoint, scale)
    ensures IsCode(k, q)
  {
    Clamp(Round(Unscaled(x, scale)) + zeroPoint, Range(k).0, Range(k).1)
  }

  function Dequantize(zeroPoint: int, scale: real, q: int): real {
    Scaled((q - zeroPoint) as real, scale)
  }

  function Distance(a: real, b: real): real {
    if a < b then b - a else a - b
  }

  function Magnitude(n: int): int {
    if n < 0 then -n else n
  }

  // ---- scaling -----------------------------------------------------------------------------------

  lemma ScaleOrder(a: real, b: real, scale: real)
    requires scale > 0.0
    ensures a <= b <==> Scaled(a, scale) <= Scaled(b, scale)
  {
  }

  lemma ScaleInverse(a: real, scale: real)
    requires scale > 0.0
    ensures Unscaled(Scaled(a, scale), scale) == a && Scaled(Unscaled(a, scale), scale) == a
  {
  }

  lemma ScaledDistance(a: real, b: real, scale: real)
    requires scale > 0.0
    ensures Distance(Scaled(a, scale), Scaled(b, scale)) == Scaled(Distance(a, b), scale)
  {
  }

  /** The distance of a number to what its code stands for, in steps. */
  lemma StepsAway(zeroPoint: int, scale: real, q: int, x: real)
    requires scale > 0.0
    ensures Distance(Dequantize(zeroPoint, scale, q), x) == Scaled(Distance((q - zeroPoint) as real, Unscaled(x,
        scale)), scale)
  {
  }

  lemma ShiftedCode(k: Kind, zeroPoint: int, scale: real, x: real)
    requires IsParam(k, zeroPoint, scale)
    ensures Quantize(k, zeroPoint, scale, x) - zeroPoint == Clamp(Round(Unscaled(x, scale)),
        Range(k).0 - zeroPoint, Range(k).1 - zeroPoint)
  {
  }

  /** The zero point stands for zero, and neighbouring codes for numbers one step apart. */
  lemma StepIsScale(zeroPoint: int, scale: real, q: int)
    ensures Dequantize(zeroPoint, scale, zeroPoint) == 0.0
    ensures Dequantize(zeroPoint, scale, q + 1) - Dequantize(zeroPoint, scale, q) == scale
  {
    var a := (q - zeroPoint) as real;
    assert (q + 1 - zeroPoint) as real == a + 1.0;
    assert (a + 1.0) * scale == a * scale + scale;
  }

  // ---- rounding ----------------------------------------------------------------------------------

  lemma NearestInteger(v: real, c: int, other: int, low: int, high: int)
    requires low <= other <= high && c == Clamp(Round(v), low, high)
    ensures Distance(c as real, v) <= Distance(other as real, v)
    ensures Distance(c as real, v) == Distance(other as real, v) && c != other ==> Magnitude(c) > Magnitude(other)
  {
  }

  lemma ErrorInteger(v: real, c: int, low: int, high: int)
    requires low <= high && c == Clamp(Round(v), low, high)
    ensures Distance(c as real, v) <= 0.5 <==> low as real - 0.5 <= v <= high as real + 0.5
  {
  }

  lemma RoundMonotone(v: real, w: real)
    requires v <= w
    ensures Round(v) <= Round(w)
  {
  }

  // ---- what a code means -------------------------------------------------------------------------

  /** No code of the type comes back closer to `x`, and one just as close is nearer to the zero point. */
  lemma NearestCode(k: Kind, zeroPoint: int, scale: real, x: real, other: int)
    requires IsParam(k, zeroPoint, scale) && IsCode(k, other)
    ensures var q := Quantize(k, zeroPoint, scale, x);
      var d, e := Distance(Dequantize(zeroPoint, scale, q), x), Distance(Dequantize(zeroPoint, scale, other), x);
      d <= e && (d == e && q != other ==> Magnitude(q - zeroPoint) > Magnitude(other - zeroPoint))
  {
    hide Quantize, Distance, Dequantize, Clamp, Round, Range, Scaled, Unscaled, Magnitude;
    var q, v := Quantize(k, zeroPoint, scale, x), Unscaled(x, scale);
    StepsAway(zeroPoint, scale, q, x);
    StepsAway(zeroPoint, scale, other, x);
    ShiftedCode(k, zeroPoint, scale, x);
    NearestInteger(v, q - zeroPoint, other - zeroPoint, Range(k).0 - zeroPoint, Range(k).1 - zeroPoint);
    var a, b := Distance((q - zeroPoint) as real, v), Distance((other - zeroPoint) as real, v);
    ScaleOrder(a, b, scale);
    ScaleOrder(b, a, scale);
  }

  /** A larger number never gets a smaller code. */
  lemma Monotone(k: Kind, zeroPoint: int, scale: real, x: real, y: real)
    requires IsParam(k, zeroPoint, scale) && x <= y
    ensures Quantize(k, zeroPoint, scale, x) <= Quantize(k, zeroPoint, scale, y)
  {
    hide Scaled, Unscaled, Round, Range;
    ScaleInverse(x, scale);
    ScaleInverse(y, scale);
    ScaleOrder(Unscaled(x, scale), Unscaled(y, scale), scale);
    RoundMonotone(Unscaled(x, scale), Unscaled(y, scale));
  }

  /** The codes of the type, and no other integers, survive the way to a number and back. */
  lemma CodeRoundTrip(k: Kind, zeroPoint: int, scale: real, q: int)
    requires IsParam(k, zeroPoint, scale)
    ensures Quantize(k, zeroPoint, scale, Dequantize(zeroPoint, scale, q)) == q <==> IsCode(k, q)
  {
    hide Scaled, Unscaled;
    var n := q - zeroPoint;
    ScaleInverse(n as real, scale);
    assert Round(n as real) == n;
  }

  /** A number comes back within half a step exactly when it is at most half a step outside the codes. */
  lemma ErrorIff(k: Kind, zeroPoint: int, scale: real, x: real)
    requires IsParam(k, zeroPoint, scale)
    ensures Distance(Dequantize(zeroPoint, scale, Quantize(k, zeroPoint, scale, x)), x) <= Scaled(0.5, scale)
       <==> (Range(k).0 - zeroPoint) as real - 0.5 <= Unscaled(x, scale) <= (Range(k).1 - zeroPoint) as real + 0.5
  {
    var low, high := Range(k).0 - zeroPoint, Range(k).1 - zeroPoint;
    assert low <= high;
    hide Quantize, Distance, Dequantize, Clamp, Round, Range, Scaled, Unscaled;
    var v, q := Unscaled(x, scale), Quantize(k, zeroPoint, scale, x);
    StepsAway(zeroPoint, scale, q, x);
    ShiftedCode(k, zeroPoint, scale, x);
    ErrorInteger(v, q - zeroPoint, low, high);
    ScaleOrder(Distance((q - zeroPoint) as real, v), 0.5, scale);
  }
}
