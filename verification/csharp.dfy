/**
 * The C# arithmetic that the modelled code relies on, written out over
 * unbounded integers and exact reals: truncating division and remainder,
 * Math.Clamp, the (int) narrowing of a long, truncation of a real to an
 * integer and Math.Round's default round-half-to-even.
 */
module CSharp {

  const TwoTo31: int := 0x8000_0000
  const TwoTo32: int := 0x1_0000_0000
  const LongMin: int := -0x8000_0000_0000_0000
  const LongMax: int := 0x7FFF_FFFF_FFFF_FFFF

  /** The values a C# `long` holds. */
  predicate IsLong(x: int)
  {
    LongMin <= x <= LongMax
  }

  /** `a / b` on C# integers: the quotient is truncated toward zero. */
  function Div(a: int, b: int): (q: int)
    requires b != 0
    ensures a >= 0 && b > 0 ==> q == a / b
  {
    if a >= 0 && b > 0 then a / b
    else if a >= 0 then -(a / -b)
    else if b > 0 then -((-a) / b)
    else (-a) / (-b)
  }

  /** `a % b` on C# integers: the remainder takes the sign of the dividend. */
  function Rem(a: int, b: int): (r: int)
    requires b != 0
    ensures a == b * Div(a, b) + r
    ensures Abs(r) < Abs(b)
    ensures a >= 0 ==> 0 <= r && r == a % Abs(b)
    ensures a < 0 ==> r <= 0 && -r == (-a) % Abs(b)
  {
    DivRem(a, b);
    a - b * Div(a, b)
  }

  /** Truncated division agrees with Euclidean division on magnitudes. */
  lemma DivRem(a: int, b: int)
    requires b != 0
    ensures var r := a - b * Div(a, b);
      Abs(r) < Abs(b) && (a >= 0 ==> 0 <= r && r == a % Abs(b)) && (a < 0 ==> r <= 0 && -r == (-a) % Abs(b))
  {
    var A: int, B: int := Abs(a), Abs(b);
    var m: int := A / B;
    var e: int := A % B;
    var q := Div(a, b);
    EuclidOnMagnitudes(A, B);
    if (a >= 0) == (b > 0) {
      assert q == m;
      SameSignProduct(b, q, B, m);
    } else {
      assert q == -m;
      MixedSignProduct(b, q, B, m);
    }
    var r := a - b * q;
    assert a >= 0 ==> r == e;
    assert a < 0 ==> r == -e;
  }

  /** Euclidean division of a magnitude by a positive divisor. */
  lemma EuclidOnMagnitudes(A: int, B: int)
    requires A >= 0 && B > 0
    ensures A == B * (A / B) + A % B && 0 <= A % B < B
  {
  }

  lemma SameSignProduct(b: int, q: int, B: int, m: int)
    requires b == B || b == -B
    requires q == m
    ensures b == B ==> b * q == B * m
    ensures b == -B ==> b * q == -(B * m)
  {
  }

  lemma MixedSignProduct(b: int, q: int, B: int, m: int)
    requires b == B || b == -B
    requires q == -m
    ensures b == B ==> b * q == -(B * m)
    ensures b == -B ==> b * q == B * m
  {
  }

  function Abs(x: int): (r: int)
    ensures r >= 0 && (r == x || r == -x)
  {
    if x < 0 then -x else x
  }

  /**
   * Math.Round(a / (double)b) for integers a and b != 0, taken on the exact
   * quotient: the integer nearest a / b, ties to the even one.
   */
  function RoundDiv(a: int, b: int): (k: int)
    requires b != 0
    ensures 2 * Abs(a - k * b) <= Abs(b)
    ensures 2 * Abs(a - k * b) == Abs(b) ==> k % 2 == 0
    decreases if b < 0 then 1 else 0
  {
    if b > 0 then
      var q, e := a / b, a % b;
      QuotientStep(a, b);
      if 2 * e < b then q
      else if 2 * e > b then q + 1
      else if q % 2 == 0 then q
      else q + 1
    else
      var k := RoundDiv(-a, -b);
      NegateBoth(a, b, k);
      k
  }

  /** The remainders of a against the two multiples of b around it. */
  lemma QuotientStep(a: int, b: int)
    requires b > 0
    ensures a - (a / b) * b == a % b
    ensures a - (a / b + 1) * b == a % b - b
  {
    var q := a / b;
    assert a == b * q + a % b;
    assert (q + 1) * b == q * b + b;
  }

  lemma NegateBoth(a: int, b: int, k: int)
    ensures -a - k * -b == -(a - k * b)
  {
    assert k * -b == -(k * b);
  }

  /** |g·c| is at least |g| when c is a non-zero integer. */
  lemma MulAtLeast(g: int, c: int)
    requires c != 0
    ensures Abs(g * c) >= Abs(g)
  {
    var d := if c > 0 then c else -c;
    MulAtLeastPos(g, d);
    assert g * c == g * d || g * c == -(g * d);
  }

  lemma MulAtLeastPos(g: int, d: int)
    requires d >= 1
    ensures Abs(g * d) >= Abs(g)
  {
    if g >= 0 { assert g * d >= g * 1; } else { assert (-g) * d >= (-g) * 1; }
  }

  /** RoundDiv(a, b)·b is a multiple of b at least as near to a as any other. */
  lemma {:induction false} RoundDivNearest(a: int, b: int, m: int)
    requires b != 0
    ensures Abs(a - RoundDiv(a, b) * b) <= Abs(a - m * b)
  {
    var k := RoundDiv(a, b);
    if m != k {
      Distribute(a, b, k, m);
      MulAtLeast(b, k - m);
      assert (k - m) * b == b * (k - m);
      FarFromHalf(a - k * b, (k - m) * b, Abs(b));
    }
  }

  lemma Distribute(a: int, b: int, k: int, m: int)
    ensures a - m * b == (a - k * b) + (k - m) * b
  {
    assert (k - m) * b == k * b - m * b;
  }

  /** An offset of at least B moves a point within B/2 of zero no nearer to it. */
  lemma FarFromHalf(e: int, d: int, bound: int)
    requires 2 * Abs(e) <= bound <= Abs(d)
    ensures Abs(e) <= Abs(e + d)
  {
  }

  /** Rounding an exact quotient gives the quotient back. */
  lemma {:induction false} RoundDivExact(k: int, b: int)
    requires b != 0
    ensures RoundDiv(k * b, b) == k
  {
    var j := RoundDiv(k * b, b);
    if j != k {
      assert k * b - j * b == b * (k - j);
      MulAtLeast(b, k - j);
    }
  }

  /** Math.Clamp(x, lo, hi); .NET throws when lo > hi, which no modelled caller does. */
  function Clamp(x: int, lo: int, hi: int): (r: int)
    requires lo <= hi
    ensures lo <= r <= hi
    ensures lo <= x <= hi ==> r == x
    ensures x < lo ==> r == lo
    ensures x > hi ==> r == hi
  {
    if x < lo then lo else if x > hi then hi else x
  }

  /** The `(int)` cast of a long in an unchecked context: keep the low 32 bits, two's complement. */
  function ToInt32(x: int): (r: int)
    ensures -TwoTo31 <= r < TwoTo31
    ensures (x - r) % TwoTo32 == 0
    ensures -TwoTo31 <= x < TwoTo31 ==> r == x
  {
    var low := x % TwoTo32;
    if low < TwoTo31 then low else low - TwoTo32
  }

  /** `(long)x` for a finite real: truncation toward zero. */
  function Truncate(x: real): (r: int)
    ensures x >= 0.0 ==> r as real <= x < r as real + 1.0
    ensures x < 0.0 ==> r as real - 1.0 < x <= r as real
  {
    if x >= 0.0 then x.Floor else -((-x).Floor)
  }

  predicate IsEven(k: int) { k % 2 == 0 }

  /**
   * Math.Round / MathF.Round with the default MidpointRounding.ToEven:
   * the nearest integer, ties going to the even neighbour.
   */
  function RoundHalfEven(x: real): (k: int)
    ensures -0.5 <= x - k as real <= 0.5
    ensures x - k as real == 0.5 || x - k as real == -0.5 ==> IsEven(k)
  {
    var f := x.Floor;
    var frac := x - f as real;
    if frac < 0.5 then f
    else if frac > 0.5 then f + 1
    else if IsEven(f) then f else f + 1
  }

  /** A real that is already an integer rounds to itself. */
  lemma RoundOfInteger(k: int)
    ensures RoundHalfEven(k as real) == k
  {
  }

  /** The rounded value is a nearest integer: no integer is strictly closer to x. */
  lemma RoundIsNearest(x: real, m: int)
    ensures RealAbs(x - RoundHalfEven(x) as real) <= RealAbs(x - m as real)
  {
    var k := RoundHalfEven(x);
    if m != k {
      assert m <= k - 1 || m >= k + 1;
    }
  }

  function RealAbs(x: real): (r: real)
    ensures r >= 0.0 && (r == x || r == -x)
  {
    if x < 0.0 then -x else x
  }
}
