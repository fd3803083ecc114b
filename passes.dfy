/**
 * The three render passes. Each transforms the mesh with its own render
 * type, rasterizes it, shades every fragment and writes it to the
 * framebuffer at its truncated screen position and its own depth:
 * `render_planet` shades every fragment with the fragment shader,
 * `render_rings` keeps only the fragments whose world radius lies in the
 * ring band and gives them the ring colour, and `render_moon` gives every
 * fragment the moon grey, darkened where two octaves of crater noise are high.
 */
module RenderPasses {
  import opened Numerics
  import opened Vectors
  import opened Fragments
  import opened Scene
  import opened ValueNoise
  import opened Shading
  import opened Framebuffers
  import opened Pipeline

  // ----- the planet body -----

  /** The writes of the body pass: one per fragment, in order, coloured by
      the fragment shader under the caller's uniforms. */
  function BodyWrites(env: Env, u: Uniforms, frags: seq<Fragment>): seq<PointWrite> {
    seq(|frags|, i requires 0 <= i < |frags| => WriteOf(frags[i], FragmentShader(env, frags[i], u)))
  }

  /** `render_planet`. */
  method RenderPlanet(fb: Framebuffer, env: Env, u: Uniforms, vs: seq<Vertex>, light: Light)
    modifies fb
    ensures fb.writes == old(fb.writes) + BodyWrites(env, u, PassFragments(env, u, 0, vs, light))
  {
    var frags := PassFragmentsOf(env, u, 0, vs, light);
    WritePlanetFragments(fb, env, u, frags);
  }

  /** The write loop of `render_planet`. */
  method WritePlanetFragments(fb: Framebuffer, env: Env, u: Uniforms, frags: seq<Fragment>)
    modifies fb
    ensures fb.writes == old(fb.writes) + BodyWrites(env, u, frags)
  {
    ghost var start := fb.writes;
    for i := 0 to |frags|
      invariant fb.writes == start + BodyWrites(env, u, frags[..i])
    {
      var f := frags[i];
      var color := FragmentShader(env, f, u);
      fb.Point(CastI32(f.position.x), CastI32(f.position.y), color, f.depth);
      assert BodyWrites(env, u, frags[..i + 1]) == BodyWrites(env, u, frags[..i]) + [WriteOf(f, color)];
    }
    assert frags[..|frags|] == frags;
  }

  /** The body pass forces render type 0 for the vertices and the fragment
      shader does not read it, so the render type the caller's uniforms
      carry does not change what the pass writes. */
  lemma BodyPassIgnoresRenderType(env: Env, u: Uniforms, renderType: I32, vs: seq<Vertex>, light: Light)
    ensures BodyWrites(env, u, PassFragments(env, u, 0, vs, light))
      == BodyWrites(env, u.(renderType := renderType), PassFragments(env, u.(renderType := renderType), 0, vs, light))
  {
    var u' := u.(renderType := renderType);
    assert u'.(renderType := 0) == u.(renderType := 0);
    var frags := PassFragments(env, u, 0, vs, light);
    forall i | 0 <= i < |frags|
      ensures FragmentShader(env, frags[i], u) == FragmentShader(env, frags[i], u')
    {
    }
  }

  // ----- the rings -----

  /** The fragments the ring pass keeps, in order. */
  function RingKept(libm: Libm, frags: seq<Fragment>): seq<Fragment> {
    if |frags| == 0 then []
    else
      var f := frags[|frags| - 1];
      RingKept(libm, frags[..|frags| - 1]) + (if InRingBand(RingRadius(libm, f)) then [f] else [])
  }

  /** The ring pass keeps exactly the fragments whose radius is in [1.6, 2.4],
      and never more of them than it was given. */
  lemma {:induction false} RingKeptExactly(libm: Libm, frags: seq<Fragment>)
    ensures forall f :: f in RingKept(libm, frags) <==> f in frags && InRingBand(RingRadius(libm, f))
    ensures |RingKept(libm, frags)| <= |frags|
  {
    if |frags| > 0 {
      var front := frags[..|frags| - 1];
      RingKeptExactly(libm, front);
      assert frags == front + [frags[|frags| - 1]];
    }
  }

  /** The writes of the ring pass: one per kept fragment, coloured by the
      ring colour at its radius. */
  function RingWrites(env: Env, u: Uniforms, frags: seq<Fragment>): seq<PointWrite> {
    var kept := RingKept(env.libm, frags);
    seq(|kept|, i requires 0 <= i < |kept| =>
      WriteOf(kept[i], RingColor(env.libm, RingRadius(env.libm, kept[i]), u.time)))
  }

  /** One more fragment adds its write exactly when it is in the band. */
  lemma RingWritesSnoc(env: Env, u: Uniforms, frags: seq<Fragment>, i: nat, radius: real)
    requires i < |frags| && radius == RingRadius(env.libm, frags[i])
    ensures !InRingBand(radius) ==> RingWrites(env, u, frags[..i + 1]) == RingWrites(env, u, frags[..i])
    ensures InRingBand(radius) ==>
      RingWrites(env, u, frags[..i + 1]) == RingWrites(env, u, frags[..i]) + [WriteOf(frags[i], RingColor(env.libm, radius, u.time))]
  {
    assert frags[..i + 1][..i] == frags[..i];
  }

  /** `render_rings`. */
  method RenderRings(fb: Framebuffer, env: Env, u: Uniforms, vs: seq<Vertex>, light: Light)
    modifies fb
    ensures fb.writes == old(fb.writes) + RingWrites(env, u, PassFragments(env, u, 1, vs, light))
  {
    var frags := PassFragmentsOf(env, u, 1, vs, light);
    WriteRingFragments(fb, env, u, frags);
  }

  /** The write loop of `render_rings`. */
  method WriteRingFragments(fb: Framebuffer, env: Env, u: Uniforms, frags: seq<Fragment>)
    modifies fb
    ensures fb.writes == old(fb.writes) + RingWrites(env, u, frags)
  {
    ghost var start := fb.writes;
    for i := 0 to |frags|
      invariant fb.writes == start + RingWrites(env, u, frags[..i])
    {
      var f := frags[i];
      var radius := RingRadius(env.libm, f);
      RingWritesSnoc(env, u, frags, i, radius);
      if radius < 1.6 || radius > 2.4 {
        continue;
      }
      var color := RingColor(env.libm, radius, u.time);
      fb.Point(CastI32(f.position.x), CastI32(f.position.y), color, f.depth);
    }
    assert frags[..|frags|] == frags;
  }

  // ----- the moon -----

  /** The moon colour of a fragment: the moon shade for two octaves of
      crater noise sampled at eight times its world position. */
  function MoonColor(libm: Libm, f: Fragment): Vec3 {
    MoonShade(Octaves(NoiseField(libm), Scale(f.worldPosition, 8.0), 2).value, f.worldPosition)
  }

  /** The crater noise stays in [0, 1.35): one octave below 1 plus one below 0.35. */
  lemma CraterNoiseRange(libm: Libm, f: Fragment)
    ensures 0.0 <= Octaves(NoiseField(libm), Scale(f.worldPosition, 8.0), 2).value < 1.35
  {
    var noise := NoiseField(libm);
    FractalBound(noise, Scale(f.worldPosition, 8.0), 2);
    assert GeomSum(2) == 1.35 by {
      assert Pow(0.35, 1) == 0.35;
    }
  }

  /** The writes of the moon pass: one per fragment, in order. */
  function MoonWrites(env: Env, frags: seq<Fragment>): seq<PointWrite> {
    seq(|frags|, i requires 0 <= i < |frags| => WriteOf(frags[i], MoonColor(env.libm, frags[i])))
  }

  /** The shading of one moon fragment: the crater noise by the octave
      loop, then the moon shade. */
  method ShadeMoonFragment(libm: Libm, f: Fragment) returns (color: Vec3)
    ensures color == MoonColor(libm, f)
    ensures InBox(color, Vec3(0.05, 0.048, 0.045), Vec3(0.65, 0.62, 0.6))
  {
    var crater := FractalNoise(NoiseField(libm), Scale(f.worldPosition, 8.0), 2);
    assert Passes(2) == 2;
    color := MoonShade(crater, f.worldPosition);
  }

  lemma MoonWritesSnoc(env: Env, frags: seq<Fragment>, i: nat)
    requires i < |frags|
    ensures MoonWrites(env, frags[..i + 1]) == MoonWrites(env, frags[..i]) + [WriteOf(frags[i], MoonColor(env.libm, frags[i]))]
  {
  }

  /** `render_moon`. */
  method RenderMoon(fb: Framebuffer, env: Env, u: Uniforms, vs: seq<Vertex>, light: Light)
    modifies fb
    ensures fb.writes == old(fb.writes) + MoonWrites(env, PassFragments(env, u, 2, vs, light))
  {
    var frags := PassFragmentsOf(env, u, 2, vs, light);
    WriteMoonFragments(fb, env, u, frags);
  }

  /** The write loop of `render_moon`. */
  method WriteMoonFragments(fb: Framebuffer, env: Env, u: Uniforms, frags: seq<Fragment>)
    modifies fb
    ensures fb.writes == old(fb.writes) + MoonWrites(env, frags)
  {
    ghost var start := fb.writes;
    for i := 0 to |frags|
      invariant fb.writes == start + MoonWrites(env, frags[..i])
    {
      var f := frags[i];
      var color := ShadeMoonFragment(env.libm, f);
      MoonWritesSnoc(env, frags, i);
      fb.Point(CastI32(f.position.x), CastI32(f.position.y), color, f.depth);
    }
    assert frags[..|frags|] == frags;
  }
}
