/**
 * The per-vertex and per-fragment shading of the renderer: interpolation,
 * the vertex shader with its render-mode remap and perspective divide, the
 * normal transform, the lighting term, the planet rotation, the ringed
 * planet's palette and the fragment shader's dispatch and clamp.
 */
module Shading {
  import opened Numerics
  import opened Vectors
  import opened Fragments
  import opened Scene

  /** `std::f32::consts::PI`, the f32 nearest to pi. */
  const PI: real := 3.1415927410125732421875

  /** The white light direction every shading term uses. */
  const LightDir: Vec3 := Vec3(1.0, 1.0, 1.0)

  /** `Lerp::lerp` on Vector3: `t` is clamped to [0, 1] before blending, so
      the result never leaves the box spanned by the two endpoints. */
  function Lerp(a: Vec3, b: Vec3, t: real): (r: Vec3)
    ensures t <= 0.0 ==> r == a
    ensures t >= 1.0 ==> r == b
    ensures Between(r.x, a.x, b.x) && Between(r.y, a.y, b.y) && Between(r.z, a.z, b.z)
  {
    var c := Clamp(t, 0.0, 1.0);
    Vec3(Mix(a.x, b.x, c), Mix(a.y, b.y, c), Mix(a.z, b.z, c))
  }

  // ----- vertex_shader -----

  /** The ring remap's angle: the vertex's polar angle, advanced by
      0.2 rad per second and reduced by f32 `%` modulo 2 pi. */
  function RingAngle(libm: Libm, p: Vec3, time: real): (a: real)
    ensures Abs(a) < 2.0 * PI
    ensures var turns := (libm.atan2(p.x, p.y) + time * 0.2 - a) / (2.0 * PI); turns.Floor as real == turns
  {
    FMod(libm.atan2(p.x, p.y) + time * 0.2, 2.0 * PI)
  }

  /** The ring remap's radius: 1.8, rippled by +/- 0.2 along the vertex's z. */
  function RingBaseRadius(libm: Libm, p: Vec3): (r: real)
    ensures -1.0 <= libm.sin(p.z * 0.3) <= 1.0 ==> 1.6 <= r <= 2.0
  {
    1.8 + libm.sin(p.z * 0.3) * 0.2
  }

  /** Where the moon sits at `time`: on a circle of radius 2.8 in the x-z
      plane, bobbing by +/- 0.2 in y. */
  function MoonBase(libm: Libm, time: real): Vec3 {
    var t := time * 0.4;
    Vec3(2.8 * libm.cos(t), libm.sin(t * 3.0) * 0.2, 2.8 * libm.sin(t))
  }

  /** The homogeneous model-space position the vertex shader starts from:
      render type 1 wraps the mesh onto the ring band and flattens it,
      render type 2 shrinks it to a quarter and moves it onto the moon's
      orbit, every other render type keeps the mesh position. */
  function ModelPosition(libm: Libm, p: Vec3, renderType: I32, time: real): (r: Vec4)
    ensures r.w == 1.0
    ensures renderType == 1 ==>
      && r.y == p.y * 0.05
      && r.x == RingBaseRadius(libm, p) * libm.cos(RingAngle(libm, p, time))
      && r.z == RingBaseRadius(libm, p) * libm.sin(RingAngle(libm, p, time))
    ensures renderType == 2 ==> Xyz(r) == Add(MoonBase(libm, time), Scale(p, 0.25))
    ensures renderType != 1 && renderType != 2 ==> r == Point(p)
  {
    if renderType == 1 then
      var angle := RingAngle(libm, p, time);
      var baseRadius := RingBaseRadius(libm, p);
      Vec4(baseRadius * libm.cos(angle), p.y * 0.05, baseRadius * libm.sin(angle), 1.0)
    else if renderType == 2 then
      var m := MoonBase(libm, time);
      Vec4(m.x + p.x * 0.25, m.y + p.y * 0.25, m.z + p.z * 0.25, 1.0)
    else
      Point(p)
  }

  /** A ring vertex lands on the band the ring pass keeps: its distance
      from the y axis is the base radius, in [1.6, 2.0], provided the sine
      of the ripple lies in [-1, 1] and cos^2 + sin^2 = 1 at the angle. */
  lemma RingVertexOnBand(libm: Libm, p: Vec3, time: real)
    requires -1.0 <= libm.sin(p.z * 0.3) <= 1.0
    requires var a := RingAngle(libm, p, time);
      libm.cos(a) * libm.cos(a) + libm.sin(a) * libm.sin(a) == 1.0
    ensures var r := ModelPosition(libm, p, 1, time);
      var b := RingBaseRadius(libm, p);
      && r.x * r.x + r.z * r.z == b * b
      && 1.6 * 1.6 <= r.x * r.x + r.z * r.z <= 2.0 * 2.0
  {
    var r := ModelPosition(libm, p, 1, time);
    var b := RingBaseRadius(libm, p);
    var a := RingAngle(libm, p, time);
    var c, s := libm.cos(a), libm.sin(a);
    CircleIdentity(b, c, s);
    assert r.x == b * c && r.z == b * s;
    SquareBounds(b, 1.6, 2.0);
  }

  /** (b c)^2 + (b s)^2 = b^2 when c^2 + s^2 = 1. */
  lemma CircleIdentity(b: real, c: real, s: real)
    requires c * c + s * s == 1.0
    ensures (b * c) * (b * c) + (b * s) * (b * s) == b * b
  {
    assert (b * c) * (b * c) + (b * s) * (b * s) == (b * b) * (c * c + s * s);
  }

  lemma SquareBounds(b: real, lo: real, hi: real)
    requires 0.0 <= lo <= b <= hi
    ensures lo * lo <= b * b <= hi * hi
  {
    MulBounds(b, b, lo, hi);
    MulBounds(lo, b, lo, hi);
    MulBounds(hi, b, lo, hi);
  }

  /** The moon's centre stays 2.8 from the y axis, given cos^2 + sin^2 = 1
      at its orbit angle. */
  lemma MoonOrbitRadius(libm: Libm, time: real)
    requires var t := time * 0.4;
      libm.cos(t) * libm.cos(t) + libm.sin(t) * libm.sin(t) == 1.0
    ensures var m := MoonBase(libm, time);
      m.x * m.x + m.z * m.z == 2.8 * 2.8
  {
    var t := time * 0.4;
    CircleIdentity(2.8, libm.cos(t), libm.sin(t));
  }

  /** The three matrix products of the vertex shader: model, view, projection. */
  function ClipPosition(env: Env, u: Uniforms, p: Vec4): Vec4 {
    env.multiply(u.projectionMatrix, env.multiply(u.viewMatrix, env.multiply(u.modelMatrix, p)))
  }

  /** The perspective divide, skipped when `w` is zero. */
  function PerspectiveDivide(c: Vec4): (r: Vec3)
    ensures c.w == 0.0 ==> r == Xyz(c)
    ensures c.w != 0.0 ==> Scale(r, c.w) == Xyz(c)
  {
    if c.w != 0.0 then
      DivCancel(c.x, c.w);
      DivCancel(c.y, c.w);
      DivCancel(c.z, c.w);
      Vec3(c.x / c.w, c.y / c.w, c.z / c.w)
    else
      Xyz(c)
  }

  /** The viewport transform of a point in normalized device coordinates. */
  function ScreenPosition(env: Env, u: Uniforms, ndc: Vec3): Vec3 {
    Xyz(env.multiply(u.viewportMatrix, Point(ndc)))
  }

  /** The model matrix applied to a normal taken as a direction (w = 0). */
  function ModelDirection(env: Env, m: Matrix, n: Vec3): Vec3 {
    Xyz(env.multiply(m, Direction(n)))
  }

  /** `transform_normal`: the transformed normal divided by its length, or
      left as it is when that length is not positive. */
  function TransformNormal(env: Env, n: Vec3, m: Matrix): (r: Vec3)
    ensures var t := ModelDirection(env, m, n);
      var len := env.libm.sqrt(Dot(t, t));
      && (len > 0.0 ==> Scale(r, len) == t)
      && (!(len > 0.0) ==> r == t)
  {
    var t := ModelDirection(env, m, n);
    var len := env.libm.sqrt(Dot(t, t));
    if len > 0.0 then
      DivCancel(t.x, len);
      DivCancel(t.y, len);
      DivCancel(t.z, len);
      Vec3(t.x / len, t.y / len, t.z / len)
    else
      t
  }

  /** With a square root that squares back, a non-zero transformed normal
      comes out of unit length. */
  lemma TransformedNormalIsUnit(env: Env, n: Vec3, m: Matrix)
    requires var t := ModelDirection(env, m, n);
      var d := Dot(t, t);
      d > 0.0 && env.libm.sqrt(d) >= 0.0 && env.libm.sqrt(d) * env.libm.sqrt(d) == d
    ensures var r := TransformNormal(env, n, m);
      Dot(r, r) == 1.0
  {
    var t := ModelDirection(env, m, n);
    var d := Dot(t, t);
    var len := env.libm.sqrt(d);
    var r := TransformNormal(env, n, m);
    assert Scale(r, len) == t;
    DotOfScaled(r, len);
    var q := Dot(r, r);
    var sq := len * len;
    assert d == q * sq;
    CancelSquare(q, sq, d);
  }

  /** |s v|^2 = s^2 |v|^2. */
  lemma DotOfScaled(v: Vec3, s: real)
    ensures Dot(Scale(v, s), Scale(v, s)) == Dot(v, v) * (s * s)
  {
    var a, b, c := v.x * s, v.y * s, v.z * s;
    assert Scale(v, s) == Vec3(a, b, c);
    assert a * a + b * b + c * c == (v.x * v.x + v.y * v.y + v.z * v.z) * (s * s);
  }

  /** A factor that leaves a positive number unchanged is one. */
  lemma CancelSquare(q: real, sq: real, d: real)
    requires d > 0.0 && sq == d && d == q * sq
    ensures q == 1.0
  {
    if q < 1.0 {
      MulStrict(sq, q, 1.0);
    } else if q > 1.0 {
      MulStrict(sq, 1.0, q);
    }
  }

  /** A normal the model matrix sends to zero stays zero, whatever the
      square root of zero is. */
  lemma ZeroNormalStaysZero(env: Env, n: Vec3, m: Matrix)
    requires ModelDirection(env, m, n) == Zero
    ensures TransformNormal(env, n, m) == Zero
  {
    var len := env.libm.sqrt(Dot(Zero, Zero));
    if len > 0.0 {
      assert 0.0 / len == 0.0;
    }
  }

  /** `vertex_shader`: the mesh attributes are carried over, the screen
      position is the remapped position through the three matrices, the
      perspective divide and the viewport, and the normal is transformed
      by the model matrix. */
  function VertexShader(env: Env, v: Vertex, u: Uniforms): (r: Vertex)
    ensures r.position == v.position && r.normal == v.normal
    ensures r.texCoords == v.texCoords && r.color == v.color
    ensures r.transformedNormal == TransformNormal(env, v.normal, u.modelMatrix)
    ensures r.transformedPosition
      == ScreenPosition(env, u, PerspectiveDivide(ClipPosition(env, u, ModelPosition(env.libm, v.position, u.renderType, u.time))))
  {
    var model := ModelPosition(env.libm, v.position, u.renderType, u.time);
    var ndc := PerspectiveDivide(ClipPosition(env, u, model));
    Vertex(v.position, v.normal, v.texCoords, v.color,
      ScreenPosition(env, u, ndc), TransformNormal(env, v.normal, u.modelMatrix))
  }

  /** Outside the ring and moon modes the vertex shader does not animate:
      two frames that differ in time, time step or planet type transform a
      vertex identically. */
  lemma BodyVertexIgnoresTime(env: Env, v: Vertex, u: Uniforms, time: real, dt: real, planetType: I32)
    requires u.renderType != 1 && u.renderType != 2
    ensures VertexShader(env, v, u) == VertexShader(env, v, u.(time := time, dt := dt, planetType := planetType))
  {
    var u' := u.(time := time, dt := dt, planetType := planetType);
    assert ModelPosition(env.libm, v.position, u.renderType, u.time)
      == ModelPosition(env.libm, v.position, u'.renderType, u'.time);
  }

  // ----- lighting and rotation -----

  /** `simulate_lighting`: the cosine term, kept between an ambient 0.1 and 1. */
  function SimulateLighting(normal: Vec3, lightDir: Vec3): (r: real)
    ensures 0.1 <= r <= 1.0
    ensures 0.1 <= Dot(normal, lightDir) <= 1.0 ==> r == Dot(normal, lightDir)
    ensures Dot(normal, lightDir) < 0.1 ==> r == 0.1
    ensures Dot(normal, lightDir) > 1.0 ==> r == 1.0
  {
    Clamp(Dot(normal, lightDir), 0.1, 1.0)
  }

  /** `rotate_planet_position`: a rotation about the y axis by `time * speed`. */
  function RotatePlanetPosition(libm: Libm, pos: Vec3, time: real, speed: real): (r: Vec3)
    ensures r.y == pos.y
  {
    var angle := time * speed;
    var c, s := libm.cos(angle), libm.sin(angle);
    Vec3(pos.x * c - pos.z * s, pos.y, pos.x * s + pos.z * c)
  }

  /** The rotation keeps the distance from the y axis, given cos^2 + sin^2 = 1
      at its angle. */
  lemma RotationKeepsAxisDistance(libm: Libm, pos: Vec3, time: real, speed: real)
    requires var a := time * speed;
      libm.cos(a) * libm.cos(a) + libm.sin(a) * libm.sin(a) == 1.0
    ensures var r := RotatePlanetPosition(libm, pos, time, speed);
      r.x * r.x + r.z * r.z == pos.x * pos.x + pos.z * pos.z
  {
    var a := time * speed;
    var c, s := libm.cos(a), libm.sin(a);
    RotationIdentity(pos.x, pos.z, c, s);
  }

  lemma RotationIdentity(x: real, z: real, c: real, s: real)
    requires c * c + s * s == 1.0
    ensures (x * c - z * s) * (x * c - z * s) + (x * s + z * c) * (x * s + z * c) == x * x + z * z
  {
    assert (x * c - z * s) * (x * c - z * s) + (x * s + z * c) * (x * s + z * c)
      == (x * x + z * z) * (c * c + s * s);
  }

  // ----- planet palettes -----

  /** `ringed_planet_color`: a pale base blended toward a sand tone by a
      latitude band pattern, times the lighting. Every channel stays in a
      fixed range inside [0, 1]. */
  function RingedPlanetColor(libm: Libm, pos: Vec3, time: real): (r: Vec3)
    ensures InBox(r, Vec3(0.075, 0.065, 0.04), Vec3(0.85, 0.75, 0.5))
    ensures InUnitCube(r)
  {
    var rotated := RotatePlanetPosition(libm, pos, time, 0.5);
    var radius := Max(libm.sqrt(rotated.x * rotated.x + rotated.y * rotated.y + rotated.z * rotated.z), 0.001);
    var lat := libm.asin(rotated.z / radius);
    var bands := Abs(libm.sin(lat * 7.0 + time * 0.08));
    var color := Lerp(Vec3(0.75, 0.65, 0.5), Vec3(0.85, 0.75, 0.4), bands * 0.35);
    var lighting := SimulateLighting(rotated, LightDir);
    LitInBox(color, Vec3(0.75, 0.65, 0.4), Vec3(0.85, 0.75, 0.5), lighting);
    Scale(color, lighting)
  }

  /** A colour in a box of non-negative channels, lit by a factor in
      [0.1, 1], lands between a tenth of the box's low corner and its high
      corner. */
  lemma LitInBox(c: Vec3, lo: Vec3, hi: Vec3, lighting: real)
    requires InBox(c, lo, hi) && InBox(lo, Zero, hi) && 0.1 <= lighting <= 1.0
    ensures InBox(Scale(c, lighting), Scale(lo, 0.1), hi)
  {
    ScaleInBox(c, lo, hi, lighting, 0.1, 1.0);
    assert Scale(hi, 1.0) == hi;
  }

  /** The surface colour of planet type `planetType` before the clamp. */
  function PlanetColor(env: Env, pos: Vec3, time: real, planetType: I32): Vec3 {
    match planetType
    case 0 => env.rockyColor(pos, time)
    case 1 => env.gaseousColor(pos, time)
    case 2 => env.biolumColor(pos, time)
    case 3 => RingedPlanetColor(env.libm, pos, time)
    case 4 => env.iceColor(pos, time)
    case _ => Vec3(0.5, 0.5, 0.5)
  }

  /** Each channel clamped to [0, 1]: displayable colours pass unchanged,
      channels below 0 become 0 and channels above 1 become 1. */
  function ClampColor(c: Vec3): (r: Vec3)
    ensures InUnitCube(r)
    ensures InUnitCube(c) ==> r == c
    ensures c.x < 0.0 ==> r.x == 0.0
    ensures c.y < 0.0 ==> r.y == 0.0
    ensures c.z < 0.0 ==> r.z == 0.0
    ensures c.x > 1.0 ==> r.x == 1.0
    ensures c.y > 1.0 ==> r.y == 1.0
    ensures c.z > 1.0 ==> r.z == 1.0
    ensures 0.0 <= c.x <= 1.0 ==> r.x == c.x
    ensures 0.0 <= c.y <= 1.0 ==> r.y == c.y
    ensures 0.0 <= c.z <= 1.0 ==> r.z == c.z
  {
    Vec3(Clamp(c.x, 0.0, 1.0), Clamp(c.y, 0.0, 1.0), Clamp(c.z, 0.0, 1.0))
  }

  /** `fragment_shader`: the palette of the frame's planet type at the
      fragment's world position and time, clamped to [0, 1]. An unknown
      planet type shades exactly mid grey; the ringed planet's colour is
      never changed by the clamp. */
  function FragmentShader(env: Env, f: Fragment, u: Uniforms): (r: Vec3)
    ensures InUnitCube(r)
    ensures !(0 <= u.planetType <= 4) ==> r == Vec3(0.5, 0.5, 0.5)
    ensures u.planetType == 3 ==> r == RingedPlanetColor(env.libm, f.worldPosition, u.time)
    ensures InUnitCube(PlanetColor(env, f.worldPosition, u.time, u.planetType))
      ==> r == PlanetColor(env, f.worldPosition, u.time, u.planetType)
    ensures var c := PlanetColor(env, f.worldPosition, u.time, u.planetType);
      && (c.x < 0.0 ==> r.x == 0.0) && (0.0 <= c.x <= 1.0 ==> r.x == c.x) && (c.x > 1.0 ==> r.x == 1.0)
      && (c.y < 0.0 ==> r.y == 0.0) && (0.0 <= c.y <= 1.0 ==> r.y == c.y) && (c.y > 1.0 ==> r.y == 1.0)
      && (c.z < 0.0 ==> r.z == 0.0) && (0.0 <= c.z <= 1.0 ==> r.z == c.z) && (c.z > 1.0 ==> r.z == 1.0)
  {
    ClampColor(PlanetColor(env, f.worldPosition, u.time, u.planetType))
  }

  // ----- the ring and moon shading of render_rings and render_moon -----

  /** The distance of a ring fragment's world position from the y axis. */
  function RingRadius(libm: Libm, f: Fragment): real {
    libm.sqrt(f.worldPosition.x * f.worldPosition.x + f.worldPosition.z * f.worldPosition.z)
  }

  /** The band of radii the ring pass draws: [1.6, 2.4]. */
  predicate InRingBand(radius: real) {
    !(radius < 1.6 || radius > 2.4)
  }

  /** The ring normal (0, 1, 0) faces the light head on: full lighting. */
  lemma RingLightingIsFull()
    ensures SimulateLighting(Vec3(0.0, 1.0, 0.0), LightDir) == 1.0
  {
    assert Dot(Vec3(0.0, 1.0, 0.0), LightDir) == 1.0;
  }

  /** The ring colour at a radius: a light sand blended toward a darker one
      by a fine radial stripe pattern, at full lighting. It always lies
      between the two sands. */
  function RingColor(libm: Libm, radius: real, time: real): (r: Vec3)
    ensures InBox(r, Vec3(0.65, 0.58, 0.4), Vec3(0.88, 0.82, 0.65))
    ensures InUnitCube(r)
  {
    var pattern := Abs(libm.sin(radius * 40.0 + time * 0.15));
    var ringColor := Lerp(Vec3(0.88, 0.82, 0.65), Vec3(0.65, 0.58, 0.4), pattern * 0.5);
    var lighting := SimulateLighting(Vec3(0.0, 1.0, 0.0), LightDir);
    RingLightingIsFull();
    assert Scale(ringColor, 1.0) == ringColor;
    Scale(ringColor, lighting)
  }

  /** The moon colour at a fragment: grey, darker where the crater noise
      exceeds 0.6, times the lighting of the world position taken as the
      normal. */
  function MoonShade(crater: real, worldPosition: Vec3): (r: Vec3)
    ensures InBox(r, Vec3(0.05, 0.048, 0.045), Vec3(0.65, 0.62, 0.6))
    ensures InUnitCube(r)
  {
    var moonColor := if crater > 0.6 then Vec3(0.5, 0.48, 0.45) else Vec3(0.65, 0.62, 0.6);
    var lighting := SimulateLighting(worldPosition, LightDir);
    LitInBox(moonColor, Vec3(0.5, 0.48, 0.45), Vec3(0.65, 0.62, 0.6), lighting);
    Scale(moonColor, lighting)
  }
}
