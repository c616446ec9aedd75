/** Java's integer ranges and the rounding and narrowing conversions the image operations use,
    stated over mathematical integers and reals. Doubles are modelled as exact reals. */
module JavaNumerics {

  const IntMin: int := -0x8000_0000
  const IntMax: int := 0x7FFF_FFFF
  const LongMin: int := -0x8000_0000_0000_0000
  const LongMax: int := 0x7FFF_FFFF_FFFF_FFFF

  /** A Java `int`. */
  type int32 = x: int | IntMin <= x <= IntMax

  predicate IsInt32(x: int) { IntMin <= x <= IntMax }

  function Min(a: int, b: int): (m: int)
    ensures m <= a && m <= b && (m == a || m == b)
  {
    if a <= b then a else b
  }

  function Max(a: int, b: int): (m: int)
    ensures a <= m && b <= m && (m == a || m == b)
  {
    if a <= b then b else a
  }

  /** `x` limited to the interval [lo, hi]. */
  function Clamp(lo: int, hi: int, x: int): (r: int)
    requires lo <= hi
    ensures lo <= r <= hi
    ensures lo <= x <= hi ==> r == x
    ensures x < lo ==> r == lo
    ensures hi < x ==> r == hi
  {
    if x < lo then lo else if x > hi then hi else x
  }

  /** Truncation toward zero. */
  function Trunc(x: real): (n: int)
    ensures 0.0 <= x ==> n as real <= x < n as real + 1.0
    ensures x < 0.0 ==> n as real - 1.0 < x <= n as real
  {
    if x >= 0.0 then x.Floor else -((-x).Floor)
  }

  /** Java's `(int)` conversion of a double (JLS 5.1.3): truncate toward zero, then saturate
      at the bounds of `int`. */
  function DoubleToInt(x: real): (n: int)
    ensures IsInt32(n)
    ensures IsInt32(Trunc(x)) ==> n == Trunc(x)
    ensures Trunc(x) > IntMax ==> n == IntMax
    ensures Trunc(x) < IntMin ==> n == IntMin
  {
    Clamp(IntMin, IntMax, Trunc(x))
  }

  /** `Math.round(x)` without the saturation at the bounds of `long`: the nearest integer,
      ties rounded up. Used where the argument is known to be small. */
  function Round(x: real): (n: int)
    ensures n as real - 0.5 <= x < n as real + 0.5
  {
    (x + 0.5).Floor
  }

  /** `Math.round(double)`: the nearest integer, ties up, saturating at the bounds of `long`. */
  function RoundToLong(x: real): (n: int)
    ensures LongMin <= n <= LongMax
    ensures LongMin <= Round(x) <= LongMax ==> n == Round(x)
  {
    Clamp(LongMin, LongMax, Round(x))
  }

  /** Java `int` arithmetic: the two's complement wrap-around of an exact result. */
  function Wrap32(x: int): (r: int)
    ensures IsInt32(r)
    ensures IsInt32(x) ==> r == x
    ensures (x - r) % 0x1_0000_0000 == 0
  {
    (x - IntMin) % 0x1_0000_0000 + IntMin
  }

  lemma {:induction false} TruncMonotone(x: real, y: real)
    requires x <= y
    ensures Trunc(x) <= Trunc(y)
  {
  }

  lemma {:induction false} RoundMonotone(x: real, y: real)
    requires x <= y
    ensures Round(x) <= Round(y)
  {
  }

  lemma {:induction false} TruncOfInt(n: int)
    ensures Trunc(n as real) == n
  {
  }

  lemma {:induction false} RoundToLongMonotone(x: real, y: real)
    requires x <= y
    ensures RoundToLong(x) <= RoundToLong(y)
  {
    RoundMonotone(x, y);
  }

  lemma {:induction false} DoubleToIntMonotone(x: real, y: real)
    requires x <= y
    ensures DoubleToInt(x) <= DoubleToInt(y)
  {
    TruncMonotone(x, y);
  }
}
