/**
 * The value-noise stack of the shaders: a sine hash of a lattice point, a
 * trilinear blend of the eight hashed corners around a position with
 * smoothstep weights, and a sum of octaves of that noise.
 */
module ValueNoise {
  import opened Numerics
  import opened Vectors

  /** `n - n.floor()`: the fractional part. */
  function Fract(x: real): (r: real)
    ensures 0.0 <= r < 1.0
    ensures (x - r).Floor as real == x - r
  {
    x - x.Floor as real
  }

  /** `hash31`: a pseudo-random value in [0, 1) from one number. */
  function Hash31(libm: Libm, n: real): (r: real)
    ensures 0.0 <= r < 1.0
  {
    Fract(libm.sin(n * 1234567.0) * 43758.5453)
  }

  /** The cubic `f * f * (3 - 2 f)` that eases the blend weights. */
  function Smoothstep(f: real): (r: real)
    ensures 0.0 <= f <= 1.0 ==> 0.0 <= r <= 1.0
    ensures f == 0.0 ==> r == 0.0
    ensures f == 1.0 ==> r == 1.0
  {
    SmoothstepUnit(f);
    f * f * (3.0 - 2.0 * f)
  }

  lemma SmoothstepUnit(f: real)
    ensures 0.0 <= f <= 1.0 ==> 0.0 <= f * f * (3.0 - 2.0 * f) <= 1.0
  {
    if 0.0 <= f <= 1.0 {
      SmoothstepBounds(f);
    }
  }

  lemma SmoothstepBounds(f: real)
    requires 0.0 <= f <= 1.0
    ensures 0.0 <= f * f * (3.0 - 2.0 * f) <= 1.0
  {
    var a := f * f;
    ScaleDown(f, f);
    var b := 3.0 - 2.0 * f;
    MulBounds(a, b, 1.0, 3.0);
    // 1 - f^2 (3 - 2 f) factors as (1 - f)^2 (1 + 2 f)
    var g := 1.0 - f;
    var sq := g * g;
    MulBounds(g, g, 0.0, 1.0);
    MulBounds(sq, 1.0 + 2.0 * f, 0.0, 3.0);
    assert sq * (1.0 + 2.0 * f) == 1.0 - a * b;
    assert a * b == f * f * (3.0 - 2.0 * f);
  }

  /** The hash of lattice corner `(ix + i, iy + j, iz + k)`. The i32 sums
      wrap, as they do in an optimised build; each is then taken as a float. */
  function Corner(libm: Libm, ix: I32, iy: I32, iz: I32, i: int, j: int, k: int): (r: real)
    ensures 0.0 <= r < 1.0
  {
    Hash31(libm,
      WrapI32(ix + i) as real + WrapI32(iy + j) as real * 57.0 + WrapI32(iz + k) as real * 113.0)
  }

  /** The lattice cell of a coordinate: `x.floor() as i32`. */
  function Cell(x: real): (r: I32)
    ensures I32_MIN as real <= x < I32_MAX as real + 1.0 ==> r == x.Floor
  {
    CastI32(x.Floor as real)
  }

  /** `noise`: the eight corners of the cell holding `pos`, blended along x,
      then y, then z by the smoothstep of the position inside the cell. */
  function Noise(libm: Libm, pos: Vec3): (r: real)
    ensures 0.0 <= r < 1.0
  {
    var ix, iy, iz := Cell(pos.x), Cell(pos.y), Cell(pos.z);
    var u, v, w := Smoothstep(Fract(pos.x)), Smoothstep(Fract(pos.y)), Smoothstep(Fract(pos.z));
    var x1 := Mix(Corner(libm, ix, iy, iz, 0, 0, 0), Corner(libm, ix, iy, iz, 1, 0, 0), u);
    var x2 := Mix(Corner(libm, ix, iy, iz, 0, 1, 0), Corner(libm, ix, iy, iz, 1, 1, 0), u);
    var x3 := Mix(Corner(libm, ix, iy, iz, 0, 0, 1), Corner(libm, ix, iy, iz, 1, 0, 1), u);
    var x4 := Mix(Corner(libm, ix, iy, iz, 0, 1, 1), Corner(libm, ix, iy, iz, 1, 1, 1), u);
    var y1 := Mix(x1, x2, v);
    var y2 := Mix(x3, x4, v);
    Mix(y1, y2, w)
  }

  /** At a lattice point every weight is zero, so the noise is the hash of
      that point's own corner. */
  lemma NoiseAtLattice(libm: Libm, pos: Vec3)
    requires pos.x == pos.x.Floor as real && pos.y == pos.y.Floor as real && pos.z == pos.z.Floor as real
    ensures Noise(libm, pos) == Corner(libm, Cell(pos.x), Cell(pos.y), Cell(pos.z), 0, 0, 0)
  {
    assert Fract(pos.x) == 0.0 && Fract(pos.y) == 0.0 && Fract(pos.z) == 0.0;
  }

  /** The noise as a function value, the form the octave sum is stated over. */
  function NoiseField(libm: Libm): (noise: Vec3 -> real)
    ensures forall p :: 0.0 <= noise(p) < 1.0
  {
    p => Noise(libm, p)
  }

  /** The variables of the `fractal_noise` loop. */
  datatype OctaveState = OctaveState(value: real, amplitude: real, frequency: real, weight: real)

  /** The loop state after `n` passes: each pass adds the noise at the
      current frequency times amplitude and weight, then halves the
      amplitude, doubles the frequency and scales the weight by 0.7. */
  function Octaves(noise: Vec3 -> real, pos: Vec3, n: nat): OctaveState {
    if n == 0 then OctaveState(0.0, 1.0, 1.0, 1.0)
    else
      var s := Octaves(noise, pos, n - 1);
      OctaveState(
        s.value + noise(Scale(pos, s.frequency)) * s.amplitude * s.weight,
        s.amplitude * 0.5, s.frequency * 2.0, s.weight * 0.7)
  }

  /** After `n` passes the amplitude is 0.5^n, the frequency 2^n and the weight 0.7^n. */
  lemma {:induction false} OctavesClosedForm(noise: Vec3 -> real, pos: Vec3, n: nat)
    ensures Octaves(noise, pos, n).amplitude == Pow(0.5, n)
    ensures Octaves(noise, pos, n).frequency == Pow(2.0, n)
    ensures Octaves(noise, pos, n).weight == Pow(0.7, n)
  {
    if n > 0 {
      OctavesClosedForm(noise, pos, n - 1);
    }
  }

  /** Octave `k` of a noise in [0, 1) contributes less than 0.35^k. */
  lemma OctaveBound(x: real, a: real, w: real, k: nat)
    requires 0.0 <= x < 1.0 && a == Pow(0.5, k) && w == Pow(0.7, k)
    ensures 0.0 <= x * a * w < Pow(0.35, k)
  {
    PowPositive(0.5, k);
    PowPositive(0.7, k);
    PowProduct(0.5, 0.7, k);
    assert 0.5 * 0.7 == 0.35;
    assert a * w == Pow(0.35, k);
    FractionOfProduct(x, a, w);
  }

  /** The sum of the first `n` octaves of a noise in [0, 1) is non-negative
      and, for at least one octave, below the sum of 0.35^k for k < n. */
  lemma {:induction false} OctavesBound(noise: Vec3 -> real, pos: Vec3, n: nat)
    requires forall p :: 0.0 <= noise(p) < 1.0
    ensures 0.0 <= Octaves(noise, pos, n).value
    ensures 0 < n ==> Octaves(noise, pos, n).value < GeomSum(n)
  {
    if n > 0 {
      OctavesBound(noise, pos, n - 1);
      var s := Octaves(noise, pos, n - 1);
      OctavesClosedForm(noise, pos, n - 1);
      var x := noise(Scale(pos, s.frequency));
      OctaveBound(x, s.amplitude, s.weight, n - 1);
    }
  }

  /** One pass of the loop moves the state from `n` octaves to `n + 1`. */
  lemma OctaveStep(noise: Vec3 -> real, pos: Vec3, n: nat,
                   value: real, amplitude: real, frequency: real, weight: real, x: real)
    requires OctaveState(value, amplitude, frequency, weight) == Octaves(noise, pos, n)
    requires x == noise(Vec3(pos.x * frequency, pos.y * frequency, pos.z * frequency))
    ensures OctaveState(value + x * amplitude * weight, amplitude * 0.5, frequency * 2.0, weight * 0.7)
      == Octaves(noise, pos, n + 1)
  {
    assert Vec3(pos.x * frequency, pos.y * frequency, pos.z * frequency) == Scale(pos, frequency);
  }

  /** The sum of 0.35^k for k < n. */
  function GeomSum(n: nat): real {
    if n == 0 then 0.0 else GeomSum(n - 1) + Pow(0.35, n - 1)
  }

  lemma {:induction false} GeomSumClosedForm(n: nat)
    ensures GeomSum(n) * 0.65 == 1.0 - Pow(0.35, n)
  {
    if n > 0 {
      GeomSumClosedForm(n - 1);
      assert Pow(0.35, n) == 0.35 * Pow(0.35, n - 1);
    }
  }

  /** However many octaves are summed, the bound stays below 1 / 0.65. */
  lemma GeomSumBound(n: nat)
    ensures 0.0 <= GeomSum(n) < 20.0 / 13.0
  {
    GeomSumClosedForm(n);
    PowPositive(0.35, n);
    GeomSumNonNegative(n);
  }

  lemma {:induction false} GeomSumNonNegative(n: nat)
    ensures 0.0 <= GeomSum(n)
  {
    if n > 0 {
      GeomSumNonNegative(n - 1);
      PowPositive(0.35, n - 1);
    }
  }

  /** How many passes `for _ in 0..octaves` makes. */
  function Passes(octaves: I32): nat {
    if octaves <= 0 then 0 else octaves
  }

  /** What `fractal_noise` returns for a noise in [0, 1): nothing for a
      non-positive octave count, otherwise a value below the geometric bound. */
  lemma FractalBound(noise: Vec3 -> real, pos: Vec3, octaves: I32)
    requires forall p :: 0.0 <= noise(p) < 1.0
    ensures var v := Octaves(noise, pos, Passes(octaves)).value;
      && (octaves <= 0 ==> v == 0.0)
      && (0 < octaves ==> v < GeomSum(octaves))
      && 0.0 <= v < 20.0 / 13.0
  {
    OctavesBound(noise, pos, Passes(octaves));
    GeomSumBound(Passes(octaves));
  }

  /** `fractal_noise`: the loop over the octaves. The noise it samples is a
      parameter; the renderer passes `NoiseField(libm)`. */
  method FractalNoise(noise: Vec3 -> real, pos: Vec3, octaves: I32) returns (value: real)
    ensures value == Octaves(noise, pos, Passes(octaves)).value
    ensures octaves <= 0 ==> value == 0.0
    ensures (forall p :: 0.0 <= noise(p) < 1.0) ==>
      0.0 <= value < 20.0 / 13.0 && (0 < octaves ==> value < GeomSum(octaves))
  {
    value := 0.0;
    var amplitude, frequency, weight := 1.0, 1.0, 1.0;
    var i: nat := 0;
    while i < octaves
      invariant i <= Passes(octaves)
      invariant OctaveState(value, amplitude, frequency, weight) == Octaves(noise, pos, i)
    {
      var x := noise(Vec3(pos.x * frequency, pos.y * frequency, pos.z * frequency));
      OctaveStep(noise, pos, i, value, amplitude, frequency, weight, x);
      value := value + x * amplitude * weight;
      amplitude := amplitude * 0.5;
      frequency := frequency * 2.0;
      weight := weight * 0.7;
      i := i + 1;
    }
    assert i == Passes(octaves);
    if forall p :: 0.0 <= noise(p) < 1.0 {
      FractalBound(noise, pos, octaves);
    }
  }
}
