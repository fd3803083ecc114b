/**
 * A fragment: a candidate pixel produced by rasterizing one triangle.
 */
module Fragments {
  import opened Vectors

  /** `position` is in screen space, `world_position` in world space. */
  datatype Fragment = Fragment(position: Vec3, color: Vec3, depth: real, worldPosition: Vec3)

  /** A fragment's screen-space z is its depth. */
  predicate DepthConsistent(f: Fragment) {
    f.position.z == f.depth
  }

  /** `Fragment::new`: the screen position is (x, y, depth). */
  function NewFragment(x: real, y: real, color: Vec3, depth: real, worldPosition: Vec3): (f: Fragment)
    ensures f.position.x == x && f.position.y == y
    ensures f.depth == depth && DepthConsistent(f)
    ensures f.color == color && f.worldPosition == worldPosition
  {
    Fragment(Vec3(x, y, depth), color, depth, worldPosition)
  }
}
