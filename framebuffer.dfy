/**
 * The framebuffer as the render passes see it. framebuffer.rs is not part
 * of this model: its depth test and pixel storage are unknown here, so the
 * framebuffer is the record of the `point` calls made on it, in order.
 */
module Framebuffers {
  import opened Numerics
  import opened Vectors

  /** One call `framebuffer.point(x, y, color, depth)`. */
  datatype PointWrite = PointWrite(x: I32, y: I32, color: Vec3, depth: real)

  class Framebuffer {
    /** Every point written so far, oldest first. */
    var writes: seq<PointWrite>

    constructor ()
      ensures writes == []
    {
      writes := [];
    }

    /** `Framebuffer::clear` at the start of a frame: nothing written yet. */
    method Clear()
      modifies this
      ensures writes == []
    {
      writes := [];
    }

    /** `Framebuffer::point`: one more write, nothing else changes. */
    method Point(x: I32, y: I32, color: Vec3, depth: real)
      modifies this
      ensures writes == old(writes) + [PointWrite(x, y, color, depth)]
    {
      writes := writes + [PointWrite(x, y, color, depth)];
    }
  }
}
