/**
 * The three stages every render pass runs before shading: transform each
 * mesh vertex, group the transformed vertices into consecutive triples, and
 * rasterize each triple into fragments. `render_planet`, `render_rings` and
 * `render_moon` repeat these loops verbatim; here they are written once.
 */
module Pipeline {
  import opened Numerics
  import opened Vectors
  import opened Fragments
  import opened Scene
  import opened Shading
  import opened Framebuffers

  // ----- vertex stage -----

  /** The vertex shader applied to every mesh vertex, in order. */
  function Transformed(env: Env, vs: seq<Vertex>, u: Uniforms): seq<Vertex> {
    seq(|vs|, i requires 0 <= i < |vs| => VertexShader(env, vs[i], u))
  }

  /** The vertex loop: one transformed vertex per mesh vertex, in mesh order. */
  method TransformVertices(env: Env, vs: seq<Vertex>, u: Uniforms) returns (out: seq<Vertex>)
    ensures |out| == |vs|
    ensures forall i :: 0 <= i < |vs| ==> out[i] == VertexShader(env, vs[i], u)
    ensures out == Transformed(env, vs, u)
  {
    out := [];
    for i := 0 to |vs|
      invariant |out| == i
      invariant forall j :: 0 <= j < i ==> out[j] == VertexShader(env, vs[j], u)
    {
      out := out + [VertexShader(env, vs[i], u)];
    }
  }

  // ----- triangle assembly -----

  /** Consecutive triples of `vs`; a trailing one or two vertices are dropped. */
  function Triangles(vs: seq<Vertex>): seq<Triangle> {
    seq(|vs| / 3, k requires 0 <= k < |vs| / 3 => Triangle(vs[3 * k], vs[3 * k + 1], vs[3 * k + 2]))
  }

  /** The triangle loop: `i` walks 0, 3, 6, ... below the vertex count and
      a triangle is pushed only when `i + 2` is still a vertex. */
  method AssembleTriangles(vs: seq<Vertex>) returns (tris: seq<Triangle>)
    ensures |tris| == |vs| / 3
    ensures forall k :: 0 <= k < |tris| ==> tris[k] == Triangle(vs[3 * k], vs[3 * k + 1], vs[3 * k + 2])
    ensures 0 <= |vs| - 3 * |tris| < 3
    ensures tris == Triangles(vs)
  {
    tris := [];
    var i := 0;
    while i < |vs|
      invariant 0 <= i <= |vs| + 2 && i % 3 == 0
      invariant |tris| == (if i <= |vs| then i else |vs|) / 3
      invariant forall k :: 0 <= k < |tris| ==> tris[k] == Triangle(vs[3 * k], vs[3 * k + 1], vs[3 * k + 2])
    {
      if i + 2 < |vs| {
        tris := tris + [Triangle(vs[i], vs[i + 1], vs[i + 2])];
      }
      i := i + 3;
    }
  }

  /** The vertices of a triangle list, three per triangle. */
  function Flatten(tris: seq<Triangle>): seq<Vertex> {
    if |tris| == 0 then []
    else Flatten(tris[..|tris| - 1]) + [tris[|tris| - 1].a, tris[|tris| - 1].b, tris[|tris| - 1].c]
  }

  /** Grouping loses nothing but the remainder: flattening the triangles
      gives back the mesh up to its last full triple. */
  lemma TrianglesFlatten(vs: seq<Vertex>)
    ensures Flatten(Triangles(vs)) == vs[..|vs| - |vs| % 3]
  {
    var tris := Triangles(vs);
    FlattenPrefix(vs, |tris|);
    assert tris[..|tris|] == tris;
  }

  lemma {:induction false} FlattenPrefix(vs: seq<Vertex>, n: nat)
    requires n <= |vs| / 3
    ensures Flatten(Triangles(vs)[..n]) == vs[..3 * n]
  {
    var tris := Triangles(vs);
    if n > 0 {
      FlattenPrefix(vs, n - 1);
      assert tris[..n][..n - 1] == tris[..n - 1];
      assert vs[..3 * n] == vs[..3 * (n - 1)] + [vs[3 * n - 3], vs[3 * n - 2], vs[3 * n - 1]];
    }
  }

  // ----- rasterization -----

  /** The fragments of every triangle, triangle by triangle. */
  function FragmentsOf(env: Env, tris: seq<Triangle>, light: Light): seq<Fragment> {
    if |tris| == 0 then []
    else
      var t := tris[|tris| - 1];
      FragmentsOf(env, tris[..|tris| - 1], light) + env.rasterize(t.a, t.b, t.c, light)
  }

  /** Rasterizing a split list is rasterizing each part in turn. */
  lemma {:induction false} FragmentsOfAppend(env: Env, front: seq<Triangle>, back: seq<Triangle>, light: Light)
    ensures FragmentsOf(env, front + back, light) == FragmentsOf(env, front, light) + FragmentsOf(env, back, light)
  {
    if |back| > 0 {
      var all := front + back;
      FragmentsOfAppend(env, front, back[..|back| - 1], light);
      assert all[..|all| - 1] == front + back[..|back| - 1];
      assert all[|all| - 1] == back[|back| - 1];
    } else {
      assert front + back == front;
    }
  }

  /** The rasterization loop: the fragments of each triangle appended in order. */
  method CollectFragments(env: Env, tris: seq<Triangle>, light: Light) returns (frags: seq<Fragment>)
    ensures frags == FragmentsOf(env, tris, light)
  {
    frags := [];
    for i := 0 to |tris|
      invariant frags == FragmentsOf(env, tris[..i], light)
    {
      assert tris[..i + 1][..i] == tris[..i];
      frags := frags + env.rasterize(tris[i].a, tris[i].b, tris[i].c, light);
    }
    assert tris[..|tris|] == tris;
  }

  // ----- the write -----

  /** The point written for a fragment: at its screen x and y cast to i32,
      with its own depth. */
  function WriteOf(f: Fragment, color: Vec3): (w: PointWrite)
    ensures w.color == color && w.depth == f.depth
    ensures Abs(w.x as real) <= Abs(f.position.x) && Abs(w.y as real) <= Abs(f.position.y)
    ensures I32_MIN as real <= f.position.x <= I32_MAX as real ==> Abs(f.position.x - w.x as real) < 1.0
    ensures I32_MIN as real <= f.position.y <= I32_MAX as real ==> Abs(f.position.y - w.y as real) < 1.0
  {
    PointWrite(CastI32(f.position.x), CastI32(f.position.y), color, f.depth)
  }

  /** The fragments of one pass: the mesh transformed with the caller's
      uniforms but the pass's render type, grouped and rasterized. */
  function PassFragments(env: Env, u: Uniforms, renderType: I32, vs: seq<Vertex>, light: Light): seq<Fragment> {
    FragmentsOf(env, Triangles(Transformed(env, vs, u.(renderType := renderType))), light)
  }

  /** The three stages in a row compute the pass's fragments. */
  method PassFragmentsOf(env: Env, u: Uniforms, renderType: I32, vs: seq<Vertex>, light: Light)
    returns (frags: seq<Fragment>)
    ensures frags == PassFragments(env, u, renderType, vs, light)
  {
    var transformed := TransformVertices(env, vs, u.(renderType := renderType));
    var tris := AssembleTriangles(transformed);
    frags := CollectFragments(env, tris, light);
  }
}
