# Lab4 procedural planets: a Dafny model of the shading and render passes

Lab4 is a software rasterizer that draws one of five procedural planets
each frame. The planets are rocky, gaseous, bioluminescent, ringed and icy.
Every frame runs up to three render passes over the same sphere mesh:

- the **body** pass always runs;
- the **rings** pass runs only for the ringed planet (type 3);
- the **moon** pass runs only for the rocky planet (type 0).

Each pass goes through the same stages:

1. Run the vertex shader on every mesh vertex. The shader remaps the
   position for ring and moon modes, applies the model, view and projection
   matrices, the perspective divide and the viewport, and renormalises the
   normal.
2. Group the transformed vertices into consecutive triangles.
3. Rasterize each triangle into fragments.
4. Shade each fragment and write it to the framebuffer at its truncated
   screen position, with its own depth.

The body pass shades each fragment with the fragment shader. The shader
dispatches on the planet type and clamps the colour to [0, 1]. The rings
pass keeps only fragments whose radius from the y axis is in [1.6, 2.4] and
colours them with a sine stripe pattern. The moon pass darkens its grey
where two octaves of value noise exceed 0.6.

The model works as follows:

- Every `f32` is an exact `real`.
- `sin`, `cos`, `asin`, `atan2` and `sqrt` are uninterpreted functions,
  supplied as a `Libm` value. A lemma that needs a fact about one of them
  states that fact as a precondition, e.g. `cos^2 + sin^2 = 1` at a given
  angle, or `sqrt(d)^2 = d`.
- The code the passes call but whose source is not modelled is supplied as
  an `Env` of function values. This covers the matrix-vector product, the
  rasterizer and four of the five palettes.
- The framebuffer is the ordered record of the points written to it.

Files:

- `numerics.dfy`: i32 range, wrap-around and the `as i32` cast, f32 `%`,
  clamp, blends, powers.
- `vectors.dfy`: the raylib vector types.
- `fragment.dfy`: `Fragment` and `Fragment::new`.
- `scene.dfy`: `Vertex`, `Triangle`, `Light`, `Uniforms` and the
  collaborator environment.
- `noise.dfy`: `hash31`, `noise` and the `fractal_noise` loop.
- `shaders.dfy`: `lerp`, `vertex_shader`, `transform_normal`,
  `simulate_lighting`, `rotate_planet_position`, `ringed_planet_color`,
  `fragment_shader`, and the ring and moon shading.
- `framebuffer.dfy`: the framebuffer as a record of writes.
- `pipeline.dfy`: the vertex, triangle and rasterization loops shared by
  all passes.
- `passes.dfy`: `render_planet`, `render_rings` and `render_moon`.
- `frame.dfy`: pass selection, planet selection by key and the per-frame
  session state.

## Model

| member | source | states |
|---|---|---|
| Numerics.Clamp | Lab4/src/shaders.rs:18 | `x.max(lo).min(hi)` lies in [lo, hi] when lo <= hi. It is `x` inside the range, `lo` below it and `hi` above it. |
| Numerics.Mix | Lab4/src/shaders.rs:119-127 | The hand-written blend `a + (b - a) * t` gives `a` at t = 0 and `b` at t = 1, and lies between `a` and `b` for t in [0, 1]. |
| Numerics.CastI32 | Lab4/src/main.rs:66-67 | `x as i32` is never farther from zero than `x`. Inside the i32 range it is within 1 of `x`. Outside the range it saturates at i32::MAX or i32::MIN. |
| Numerics.WrapI32 | Lab4/src/shaders.rs:115 | The i32 sum `ix + i` agrees with the exact sum modulo 2^32 and equals it whenever the exact sum fits in an i32. |
| Numerics.FMod | Lab4/src/shaders.rs:37 | f32 `%` is smaller in magnitude than the divisor and has the sign of the dividend. What it removes from the dividend is a whole multiple of the divisor. |
| Fragments.NewFragment | Lab4/src/fragment.rs:12-19 | `Fragment::new` puts x and y in the screen position and the depth in both `position.z` and `depth`, so the two always agree. Colour and world position are stored unchanged. |
| ValueNoise.Fract | Lab4/src/shaders.rs:97-98 | `n - n.floor()` lies in [0, 1), and what it removes is an integer. |
| ValueNoise.Hash31 | Lab4/src/shaders.rs:95-98 | `hash31` lies in [0, 1) whatever the sine returns. |
| ValueNoise.Smoothstep | Lab4/src/shaders.rs:110-112 | The weight `f*f*(3-2f)` lies in [0, 1] for f in [0, 1] and is 0 at f = 0 and 1 at f = 1. |
| ValueNoise.Corner | Lab4/src/shaders.rs:114-116 | The hashed value of a lattice corner, with the i32 index sums wrapped, lies in [0, 1). |
| ValueNoise.Cell | Lab4/src/shaders.rs:101-103 | `x.floor() as i32` is the floor of `x` whenever that floor fits in an i32. |
| ValueNoise.Noise | Lab4/src/shaders.rs:100-128 | The trilinear blend of the eight hashed corners lies in [0, 1). |
| ValueNoise.NoiseAtLattice | Lab4/src/shaders.rs:100-128 | At an integer position every weight is 0, so the noise is the hash of that position's own corner. |
| ValueNoise.OctavesClosedForm | Lab4/src/shaders.rs:135-140 | After n passes of the octave loop the amplitude is 0.5^n, the frequency 2^n and the weight 0.7^n. |
| ValueNoise.OctavesBound | Lab4/src/shaders.rs:130-142 | For a noise in [0, 1), the sum of n octaves is non-negative. For n > 0 it is below the sum of 0.35^k for k < n. |
| ValueNoise.OctaveStep | Lab4/src/shaders.rs:136-139 | One pass of the loop body moves the loop state from n octaves to n + 1. |
| ValueNoise.GeomSumClosedForm | Lab4/src/shaders.rs:130-142 | The octave bound, the sum of 0.35^k for k < n, times 0.65 is 1 - 0.35^n. |
| ValueNoise.GeomSumBound | Lab4/src/shaders.rs:130-142 | The octave bound stays in [0, 20/13) for any number of octaves. |
| ValueNoise.FractalBound | Lab4/src/shaders.rs:130-142 | For a noise in [0, 1): a non-positive octave count gives exactly 0; a positive count gives less than the sum of 0.35^k over the octaves. The result is always in [0, 20/13). |
| ValueNoise.FractalNoise | Lab4/src/shaders.rs:130-142 | The `fractal_noise` loop returns the octave sum after `max(octaves, 0)` passes, and exactly 0 for `octaves <= 0`. For a noise in [0, 1) the result is in [0, 20/13) and below the geometric bound. |
| Shading.Lerp | Lab4/src/shaders.rs:17-24 | `lerp` returns `self` exactly for t <= 0 and `other` exactly for t >= 1. Each component stays between the two endpoints for every t. |
| Shading.RingAngle | Lab4/src/shaders.rs:37 | The ring angle after `% (2 PI)` is smaller than 2 PI in magnitude. It differs from `atan2(x, y) + 0.2 time` by a whole number of turns of 2 PI. |
| Shading.RingBaseRadius | Lab4/src/shaders.rs:38 | The ring radius `1.8 + sin(0.3 z) * 0.2` lies in [1.6, 2.0] when the sine is in [-1, 1]. |
| Shading.ModelPosition | Lab4/src/shaders.rs:28-55 | The position starts with w = 1. Render type 1 places it at the base radius along the ring angle and scales y by 0.05. Render type 2 puts it at the moon's orbit point plus a quarter of the mesh position. Any other render type leaves the position unchanged. |
| Shading.RingVertexOnBand | Lab4/src/shaders.rs:36-42 | A ring vertex lies at the base radius from the y axis, so its squared distance is in [1.6^2, 2.0^2], given cos^2 + sin^2 = 1 and a sine in [-1, 1]. |
| Shading.MoonOrbitRadius | Lab4/src/shaders.rs:44-47 | The moon's centre is 2.8 from the y axis, given cos^2 + sin^2 = 1 at its orbit angle. |
| Shading.PerspectiveDivide | Lab4/src/shaders.rs:61-69 | With w = 0 the divide is skipped and the clip x, y, z are kept. Otherwise the result times w gives back the clip x, y, z. |
| Shading.TransformNormal | Lab4/src/shaders.rs:86-93 | A transformed normal of positive length comes out as the normal divided by that length; otherwise it is left as it is. |
| Shading.TransformedNormalIsUnit | Lab4/src/shaders.rs:86-93 | If sqrt(d)^2 = d, a non-zero transformed normal comes out of unit length. |
| Shading.ZeroNormalStaysZero | Lab4/src/shaders.rs:86-93 | A normal that the model matrix sends to zero stays the zero vector, whatever `sqrt(0)` returns. |
| Shading.VertexShader | Lab4/src/shaders.rs:27-84 | Position, normal, texture coordinates and colour are copied unchanged. The transformed position is the remapped position through model, view, projection, perspective divide and viewport. The transformed normal is `transform_normal` of the normal under the model matrix. |
| Shading.BodyVertexIgnoresTime | Lab4/src/shaders.rs:35-55 | Outside render types 1 and 2, the time, time step and planet type do not change the transformed vertex. |
| Shading.SimulateLighting | Lab4/src/shaders.rs:144-147 | The lighting is always in [0.1, 1]. It equals the dot product inside that range, 0.1 below it and 1 above it. |
| Shading.RotatePlanetPosition | Lab4/src/shaders.rs:149-158 | The rotation leaves y unchanged. |
| Shading.RotationKeepsAxisDistance | Lab4/src/shaders.rs:149-158 | The rotation keeps the distance from the y axis, given cos^2 + sin^2 = 1 at its angle. |
| Shading.RingedPlanetColor | Lab4/src/shaders.rs:286-298 | The ringed planet's colour lies in the box (0.075, 0.065, 0.04) to (0.85, 0.75, 0.5), inside [0, 1]^3. |
| Shading.ClampColor | Lab4/src/shaders.rs:452-456 | Every channel is clamped into [0, 1] on its own: a channel inside [0, 1] keeps its value, one below 0 becomes 0 and one above 1 becomes 1, whatever the other channels are. |
| Shading.FragmentShader | Lab4/src/shaders.rs:438-457 | Every channel is in [0, 1]. Each channel is the palette colour's channel clamped to [0, 1]: kept inside the range, 0 below it, 1 above it. An unknown planet type gives exactly (0.5, 0.5, 0.5). Planet 3 gives the ringed colour unchanged. |
| Shading.RingLightingIsFull | Lab4/src/shaders.rs:370-372 | The ring normal (0, 1, 0) against the light direction (1, 1, 1) gives lighting of exactly 1. |
| Shading.RingColor | Lab4/src/shaders.rs:365-374 | The ring colour lies between the dark sand (0.65, 0.58, 0.4) and the light sand (0.88, 0.82, 0.65). |
| Shading.MoonShade | Lab4/src/shaders.rs:418-427 | The moon colour lies in the box (0.05, 0.048, 0.045) to (0.65, 0.62, 0.6), inside [0, 1]^3. |
| Framebuffers.Framebuffer.Clear | Lab4/src/main.rs:115 | After the clear, the frame has written nothing. |
| Framebuffers.Framebuffer.Point | Lab4/src/main.rs:65-70 | A point call appends exactly one write; earlier writes are untouched. |
| Pipeline.TransformVertices | Lab4/src/main.rs:42-45 | The vertex loop yields one transformed vertex per mesh vertex, in mesh order: vertex i is the vertex shader applied to mesh vertex i. |
| Pipeline.AssembleTriangles | Lab4/src/main.rs:47-56 | There are exactly n / 3 triangles for n vertices, and triangle k is (v[3k], v[3k+1], v[3k+2]). Fewer than three vertices are left over. |
| Pipeline.TrianglesFlatten | Lab4/src/main.rs:47-56 | Flattening the triangles gives back the vertex list minus its trailing n mod 3 vertices. Grouping loses only that remainder. |
| Pipeline.FragmentsOfAppend | Lab4/src/main.rs:58-61 | The fragments of a concatenated triangle list are the fragments of the first part followed by those of the second. |
| Pipeline.CollectFragments | Lab4/src/main.rs:58-61 | The rasterization loop returns the fragments of every triangle, triangle by triangle. |
| Pipeline.WriteOf | Lab4/src/main.rs:65-70 | A fragment is written with its own depth and the shaded colour, at x and y cast to i32. Each coordinate is within 1 of the fragment's coordinate when that coordinate is in i32 range. |
| Pipeline.PassFragmentsOf | Lab4/src/main.rs:38-61 | The three stages in a row give the pass's fragments: the mesh transformed under the caller's uniforms with the pass's render type, then grouped, then rasterized. |
| RenderPasses.RenderPlanet | Lab4/src/main.rs:37-72 | `render_planet` appends one write per fragment of the mesh transformed with render type 0. Each fragment is coloured by the fragment shader under the caller's uniforms. |
| RenderPasses.WritePlanetFragments | Lab4/src/main.rs:63-71 | The write loop appends, in order, each fragment's shaded write and nothing else. |
| RenderPasses.BodyPassIgnoresRenderType | Lab4/src/main.rs:38-45 | The body pass forces render type 0, so the render type in the caller's uniforms does not change its writes. |
| RenderPasses.RingKeptExactly | Lab4/src/shaders.rs:354-363 | The ring pass keeps a fragment if and only if its radius is in [1.6, 2.4]; it never keeps more fragments than it was given. |
| RenderPasses.RingWritesSnoc | Lab4/src/shaders.rs:354-381 | One more fragment adds its ring write when its radius is in the band, and adds nothing otherwise. |
| RenderPasses.RenderRings | Lab4/src/shaders.rs:328-382 | `render_rings` appends, in order, one write with the ring colour per in-band fragment of the mesh transformed with render type 1. |
| RenderPasses.WriteRingFragments | Lab4/src/shaders.rs:354-381 | The ring write loop appends exactly the writes of the in-band fragments, in order. |
| RenderPasses.CraterNoiseRange | Lab4/src/shaders.rs:413-417 | The moon's two-octave crater noise lies in [0, 1.35). |
| RenderPasses.ShadeMoonFragment | Lab4/src/shaders.rs:412-427 | A moon fragment is shaded by running the octave loop at 8 times its world position, then applying the moon shade. The colour lies in the moon's box. |
| RenderPasses.RenderMoon | Lab4/src/shaders.rs:385-436 | `render_moon` appends one moon-coloured write per fragment of the mesh transformed with render type 2. |
| RenderPasses.WriteMoonFragments | Lab4/src/shaders.rs:411-435 | The moon write loop appends each fragment's moon write, in order. |
| Frame.PassesFor | Lab4/src/main.rs:133-143 | The body pass comes first and only once. The rings pass runs if and only if the planet is 3, and the moon pass if and only if the planet is 0, so at most one of them runs. |
| Frame.ConcatByPlanet | Lab4/src/main.rs:133-143 | A frame's writes are the body's, followed by the rings' for planet 3 or the moon's for planet 0. |
| Frame.RenderFrame | Lab4/src/main.rs:133-143 | The frame appends the writes of exactly the passes selected for its planet type, in drawing order. |
| Frame.PassColorsDisplayable | Lab4/src/main.rs:133-143 | Every colour any pass writes has each channel in [0, 1]. |
| Frame.FrameColorsDisplayable | Lab4/src/main.rs:133-143 | Every colour a frame writes has each channel in [0, 1]. |
| Frame.MaxKeyPlanet | Lab4/src/main.rs:108-112 | Among the pressed keys, the highest planet number is one that some pressed key selects, and no pressed key selects a higher one. |
| Frame.SelectionIsLastKey | Lab4/src/main.rs:108-112 | The key checks run from one to five, so the last pressed key in that order sticks. This equals the highest pressed key, or the current planet when no key is pressed. |
| Frame.SelectionStaysKnown | Lab4/src/main.rs:108-112 | Key selection keeps the planet type within 0 to 4. |
| Frame.Session.constructor | Lab4/src/main.rs:101-102 | The session starts at time 0 on planet 0, a known planet type. |
| Frame.Session.Tick | Lab4/src/main.rs:105-112 | The clock advances by the frame time, and the planet becomes the one the pressed keys select. A known planet type stays known. |
| Frame.Session.Frame | Lab4/src/main.rs:104-143 | One frame advances the session and keeps the planet type among the five known ones. It clears the framebuffer and leaves in it exactly the writes of the selected passes under the frame's uniforms. |

## Left out

- Window creation, camera input, `swap_buffers`, `thread::sleep` and the
  `while !window_should_close()` loop are I/O and frame pacing.
  `Session.Frame` is one iteration of that loop. The frame time and the set
  of pressed keys are its parameters.
- Loading `sphere.obj` is file I/O. The mesh is a parameter.
- IEEE f32 rounding, NaN and infinities are not modelled: arithmetic is on
  exact reals. The integer `as f32` conversions in `noise` are also taken
  as exact.
- `sin`, `cos`, `asin`, `atan2` and `sqrt` carry no axioms. Lemmas that need
  `cos^2 + sin^2 = 1`, `sqrt(d)^2 = d` or a sine in [-1, 1] take that fact
  as a precondition.
- `rocky_planet_color`, `gaseous_planet_color`, `biolum_planet_color` and
  `ice_planet_color` are floating-point visuals with no promise beyond the
  fragment shader's final clamp. They are uninterpreted functions of the
  world position and time. That clamp is modelled, so the [0, 1] bound holds
  whatever they return. `ringed_planet_color` is modelled in full.
- matrix.rs (`multiply_matrix_vector4`), triangle.rs (the rasterizer) and
  framebuffer.rs (`Framebuffer::point`, `clear` and the depth test) are not
  part of this model. The first two are uninterpreted functions. The
  framebuffer is the list of points written to it, so which write wins a
  pixel is not modelled.
- vertex.rs and light.rs are not part of this model. `Vertex` holds the
  fields the shaders read and write. `Light` is passed only to the
  rasterizer.
- WrapI32: the i32 sums in `noise` wrap as in an optimised build. A debug
  build would panic on overflow instead; that panic is not modelled.
- ValueNoise.FractalNoise takes the noise it samples as a function
  parameter; the moon pass passes the value noise. Its bound is therefore
  stated for any noise in [0, 1).
- Shading.TransformNormal: `transform_normal` divides a local vector's
  components in place. The model is a function of the input normal, because
  no state outside the call changes.
- Numerics.FMod requires a non-zero divisor. Its only use, in
  `vertex_shader`, divides by 2 PI.
