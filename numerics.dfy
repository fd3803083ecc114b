/**
 * Scalar arithmetic the renderer relies on. Every `f32` of the program is an
 * exact `real` here, and every `i32` an `int` kept inside the 32-bit range.
 * The transcendental functions of the platform's math library are not
 * interpreted: they are handed to the model as a `Libm` value.
 */
module Numerics {

  const I32_MIN: int := -0x8000_0000
  const I32_MAX: int := 0x7fff_ffff

  type I32 = x: int | -0x8000_0000 <= x <= 0x7fff_ffff

  /** The math library calls of the program (`f32::sin`, `f32::cos`,
      `f32::asin`, `f32::atan2`, `f32::sqrt`), left uninterpreted.
      `atan2(a, b)` stands for `a.atan2(b)`. */
  datatype Libm = Libm(
    sin: real -> real,
    cos: real -> real,
    asin: real -> real,
    atan2: (real, real) -> real,
    sqrt: real -> real)

  function Abs(x: real): real { if x < 0.0 then -x else x }

  /** `a.max(b)` and `a.min(b)` of f32 (no NaN here). */
  function Max(a: real, b: real): real { if a >= b then a else b }
  function Min(a: real, b: real): real { if a <= b then a else b }

  /** `x.max(lo).min(hi)`: the clamp idiom of the shaders. */
  function Clamp(x: real, lo: real, hi: real): (r: real)
    ensures lo <= hi ==> lo <= r <= hi
    ensures lo <= x <= hi ==> r == x
    ensures x < lo && lo <= hi ==> r == lo
    ensures hi < x ==> r == hi
  {
    Min(Max(x, lo), hi)
  }

  /** `v` lies between `a` and `b`, whichever is larger. */
  predicate Between(v: real, a: real, b: real) {
    Min(a, b) <= v <= Max(a, b)
  }

  /** The unclamped linear blend `a + (b - a) * t` written out by hand in the shaders. */
  function Mix(a: real, b: real, t: real): (r: real)
    ensures t == 0.0 ==> r == a
    ensures t == 1.0 ==> r == b
    ensures 0.0 <= t <= 1.0 ==> Between(r, a, b)
  {
    MixBetween(a, b, t);
    a + (b - a) * t
  }

  lemma MixBetween(a: real, b: real, t: real)
    ensures 0.0 <= t <= 1.0 ==> Between(a + (b - a) * t, a, b)
  {
    if 0.0 <= t <= 1.0 {
      if a <= b {
        ScaleDown(b - a, t);
      } else {
        ScaleDown(a - b, t);
        assert a + (b - a) * t == a - (a - b) * t;
      }
    }
  }

  /** A product of a non-negative factor and one in [lo, hi] stays in [d * lo, d * hi]. */
  lemma MulBounds(d: real, t: real, lo: real, hi: real)
    requires 0.0 <= d && lo <= t <= hi
    ensures d * lo <= d * t <= d * hi
  {
  }

  /** Multiplying by a positive factor keeps a strict order. */
  lemma MulStrict(w: real, u: real, v: real)
    requires 0.0 < w && u < v
    ensures u * w < v * w
  {
  }

  /** A fraction in [0, 1) of a positive product stays below it. */
  lemma FractionOfProduct(x: real, a: real, w: real)
    requires 0.0 <= x < 1.0 && 0.0 < a && 0.0 < w
    ensures 0.0 <= x * a * w < a * w
  {
    var xa := x * a;
    ScaleDown(a, x);
    assert xa < a;
    MulStrict(w, xa, a);
    MulBounds(w, xa, 0.0, a);
  }

  /** Scaling a non-negative `d` by a fraction in [0, 1] cannot enlarge it. */
  lemma ScaleDown(d: real, t: real)
    requires 0.0 <= d && 0.0 <= t <= 1.0
    ensures 0.0 <= d * t <= d
    ensures t < 1.0 && 0.0 < d ==> d * t < d
  {
    MulBounds(d, t, 0.0, 1.0);
    assert d * 1.0 == d;
  }

  /** Colour times lighting: both factors non-negative and bounded. */
  lemma ProductBounds(c: real, lo: real, hi: real, s: real, slo: real, shi: real)
    requires 0.0 <= lo <= c <= hi && 0.0 <= slo <= s <= shi
    ensures lo * slo <= c * s <= hi * shi
  {
    MulBounds(c, s, slo, shi);
    MulBounds(slo, c, lo, hi);
    MulBounds(shi, c, lo, hi);
  }

  /** Rounding toward zero, as Rust's float-to-int casts do. */
  function Trunc(x: real): (r: int)
    ensures 0.0 <= x ==> 0 <= r && r as real <= x < r as real + 1.0
    ensures x < 0.0 ==> r <= 0 && r as real - 1.0 < x <= r as real
  {
    if x >= 0.0 then x.Floor else -((-x).Floor)
  }

  /** `x as i32` for an f32 `x`: rounds toward zero and saturates at the i32 bounds. */
  function CastI32(x: real): (r: I32)
    ensures Abs(r as real) <= Abs(x)
    ensures I32_MIN as real <= x <= I32_MAX as real ==> Abs(x - r as real) < 1.0
    ensures x >= I32_MAX as real ==> r == I32_MAX
    ensures x <= I32_MIN as real ==> r == I32_MIN
  {
    var t := Trunc(x);
    if t < I32_MIN then I32_MIN else if t > I32_MAX then I32_MAX else t
  }

  /** i32 addition that overflowed, as a release build wraps it. */
  function WrapI32(x: int): (r: I32)
    ensures (x - r) % 0x1_0000_0000 == 0
    ensures I32_MIN <= x <= I32_MAX ==> r == x
  {
    (x - I32_MIN) % 0x1_0000_0000 + I32_MIN
  }

  /** Rust's `%` on f32: the remainder of a division rounded toward zero,
      carrying the sign of the dividend. */
  function FMod(x: real, y: real): (r: real)
    requires y != 0.0
    ensures Abs(r) < Abs(y)
    ensures 0.0 <= x ==> 0.0 <= r
    ensures x <= 0.0 ==> r <= 0.0
    ensures var q := (x - r) / y; q.Floor as real == q
  {
    FModBounds(x, y);
    var t := Trunc(x / y) as real;
    WholeQuotient(t, y);
    x - t * y
  }

  /** A whole multiple of `y`, divided by `y`, is that whole number again. */
  lemma WholeQuotient(t: real, y: real)
    requires y != 0.0 && t.Floor as real == t
    ensures (t * y) / y == t
  {
  }

  lemma FModBounds(x: real, y: real)
    requires y != 0.0
    ensures var r := x - Trunc(x / y) as real * y;
      && Abs(r) < Abs(y)
      && (0.0 <= x ==> 0.0 <= r)
      && (x <= 0.0 ==> r <= 0.0)
  {
    var q := x / y;
    var t := Trunc(q) as real;
    var e := q - t;
    DivCancel(x, y);
    Distribute(q, t, y);
    // e is the part of the quotient that truncation drops: |e| < 1, with the sign of q
    FractionTimes(e, y);
    QuotientSign(x, y, q);
  }

  lemma Distribute(q: real, t: real, y: real)
    ensures q * y - t * y == (q - t) * y
  {
  }

  lemma DivCancel(x: real, y: real)
    requires y != 0.0
    ensures (x / y) * y == x
  {
  }

  /** The sign of `x == q * y` from the signs of its factors. */
  lemma QuotientSign(x: real, y: real, q: real)
    requires y != 0.0 && x == q * y
    ensures 0.0 <= x ==> (0.0 <= q && 0.0 < y) || (q <= 0.0 && y < 0.0)
    ensures x <= 0.0 ==> (q <= 0.0 && 0.0 < y) || (0.0 <= q && y < 0.0)
  {
  }

  /** A fraction `e` with |e| < 1 times `y`: smaller than `y` in magnitude, sign by the rule of signs. */
  lemma FractionTimes(e: real, y: real)
    requires -1.0 < e < 1.0 && y != 0.0
    ensures Abs(e * y) < Abs(y)
    ensures (0.0 <= e && 0.0 < y) || (e <= 0.0 && y < 0.0) ==> 0.0 <= e * y
    ensures (e <= 0.0 && 0.0 < y) || (0.0 <= e && y < 0.0) ==> e * y <= 0.0
  {
    if 0.0 <= e {
      if 0.0 < y {
        ScaleDown(y, e);
        assert e * y == y * e;
        assert Abs(e * y) == e * y;
      } else {
        ScaleDown(-y, e);
        assert e * y == -(-y * e);
        assert Abs(e * y) == -y * e;
      }
    } else {
      var f := -e;
      if 0.0 < y {
        ScaleDown(y, f);
        assert e * y == -(y * f);
        assert Abs(e * y) == y * f;
      } else {
        ScaleDown(-y, f);
        assert e * y == -y * f;
      }
    }
  }

  /** `b` to the power `n`, for the closed forms of loop variables. */
  function Pow(b: real, n: nat): real {
    if n == 0 then 1.0 else b * Pow(b, n - 1)
  }

  lemma {:induction false} PowPositive(b: real, n: nat)
    requires 0.0 < b
    ensures 0.0 < Pow(b, n)
  {
    if n > 0 {
      PowPositive(b, n - 1);
      MulBounds(b, Pow(b, n - 1), 0.0, Pow(b, n - 1));
      assert 0.0 < b * Pow(b, n - 1);
    }
  }

  lemma Regroup(a: real, x: real, b: real, y: real)
    ensures (a * x) * (b * y) == (a * b) * (x * y)
  {
  }

  lemma {:induction false} PowProduct(a: real, b: real, n: nat)
    ensures Pow(a, n) * Pow(b, n) == Pow(a * b, n)
  {
    if n > 0 {
      PowProduct(a, b, n - 1);
      assert Pow(a, n) == a * Pow(a, n - 1);
      assert Pow(b, n) == b * Pow(b, n - 1);
      assert Pow(a * b, n) == (a * b) * Pow(a * b, n - 1);
      Regroup(a, Pow(a, n - 1), b, Pow(b, n - 1));
    }
  }
}
