/**
 * The raylib value types the renderer computes with: `Vector2`, `Vector3`,
 * `Vector4` and `Matrix`, with f32 components taken as reals.
 */
module Vectors {
  import opened Numerics

  datatype Vec2 = Vec2(x: real, y: real)
  datatype Vec3 = Vec3(x: real, y: real, z: real)
  datatype Vec4 = Vec4(x: real, y: real, z: real, w: real)

  /** A raylib `Matrix`: sixteen f32 entries. The model only passes matrices
      to the matrix-vector product, which it does not interpret. */
  datatype Matrix = Matrix(entries: seq<real>)

  const Zero: Vec3 := Vec3(0.0, 0.0, 0.0)

  function Add(a: Vec3, b: Vec3): Vec3 {
    Vec3(a.x + b.x, a.y + b.y, a.z + b.z)
  }

  /** `v * s` for a Vector3 and an f32. */
  function Scale(v: Vec3, s: real): Vec3 {
    Vec3(v.x * s, v.y * s, v.z * s)
  }

  function Dot(a: Vec3, b: Vec3): real {
    a.x * b.x + a.y * b.y + a.z * b.z
  }

  function Xyz(v: Vec4): Vec3 {
    Vec3(v.x, v.y, v.z)
  }

  /** A position in homogeneous coordinates (w = 1). */
  function Point(v: Vec3): Vec4 {
    Vec4(v.x, v.y, v.z, 1.0)
  }

  /** A direction in homogeneous coordinates (w = 0). */
  function Direction(v: Vec3): Vec4 {
    Vec4(v.x, v.y, v.z, 0.0)
  }

  /** Every component of `v` lies between the matching components of `lo` and `hi`. */
  predicate InBox(v: Vec3, lo: Vec3, hi: Vec3) {
    lo.x <= v.x <= hi.x && lo.y <= v.y <= hi.y && lo.z <= v.z <= hi.z
  }

  /** A displayable colour: every channel in [0, 1]. */
  predicate InUnitCube(v: Vec3) {
    InBox(v, Zero, Vec3(1.0, 1.0, 1.0))
  }

  /** A colour inside a box of non-negative channels, scaled by a light factor
      in [slo, shi], lands in the box scaled by those factors. */
  lemma ScaleInBox(c: Vec3, lo: Vec3, hi: Vec3, s: real, slo: real, shi: real)
    requires InBox(c, lo, hi) && InBox(lo, Zero, hi) && 0.0 <= slo <= s <= shi
    ensures InBox(Scale(c, s), Scale(lo, slo), Scale(hi, shi))
  {
    ScaleRed(c, lo, hi, s, slo, shi);
    ScaleGreen(c, lo, hi, s, slo, shi);
    ScaleBlue(c, lo, hi, s, slo, shi);
  }

  lemma ScaleRed(c: Vec3, lo: Vec3, hi: Vec3, s: real, slo: real, shi: real)
    requires 0.0 <= lo.x <= c.x <= hi.x && 0.0 <= slo <= s <= shi
    ensures Scale(lo, slo).x <= Scale(c, s).x <= Scale(hi, shi).x
  {
    ProductBounds(c.x, lo.x, hi.x, s, slo, shi);
  }

  lemma ScaleGreen(c: Vec3, lo: Vec3, hi: Vec3, s: real, slo: real, shi: real)
    requires 0.0 <= lo.y <= c.y <= hi.y && 0.0 <= slo <= s <= shi
    ensures Scale(lo, slo).y <= Scale(c, s).y <= Scale(hi, shi).y
  {
    ProductBounds(c.y, lo.y, hi.y, s, slo, shi);
  }

  lemma ScaleBlue(c: Vec3, lo: Vec3, hi: Vec3, s: real, slo: real, shi: real)
    requires 0.0 <= lo.z <= c.z <= hi.z && 0.0 <= slo <= s <= shi
    ensures Scale(lo, slo).z <= Scale(c, s).z <= Scale(hi, shi).z
  {
    ProductBounds(c.z, lo.z, hi.z, s, slo, shi);
  }
}
