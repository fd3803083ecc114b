/**
 * One frame of the main loop: advance the clock, let the number keys pick
 * the planet, clear the framebuffer and run the passes the planet calls
 * for. The body is always drawn, the rings only for the ringed planet
 * (type 3) and the moon only for the rocky planet (type 0).
 */
module Frame {
  import opened Numerics
  import opened Vectors
  import opened Scene
  import opened Shading
  import opened Framebuffers
  import opened Pipeline
  import opened RenderPasses

  datatype Pass = BodyPass | RingPass | MoonPass

  /** The passes of a frame, in drawing order. */
  function PassesFor(planetType: I32): (r: seq<Pass>)
    ensures 1 <= |r| <= 2 && r[0] == BodyPass
    ensures RingPass in r <==> planetType == 3
    ensures MoonPass in r <==> planetType == 0
    ensures forall i :: 1 <= i < |r| ==> r[i] != BodyPass
  {
    [BodyPass] + (if planetType == 3 then [RingPass] else []) + (if planetType == 0 then [MoonPass] else [])
  }

  /** What one pass writes for the frame's uniforms. */
  function PassWrites(env: Env, u: Uniforms, p: Pass, vs: seq<Vertex>, light: Light): seq<PointWrite> {
    match p
    case BodyPass => BodyWrites(env, u, PassFragments(env, u, 0, vs, light))
    case RingPass => RingWrites(env, u, PassFragments(env, u, 1, vs, light))
    case MoonPass => MoonWrites(env, PassFragments(env, u, 2, vs, light))
  }

  /** The writes of a list of passes, one pass after the other. */
  function Concat(passes: seq<Pass>, writes: Pass -> seq<PointWrite>): seq<PointWrite> {
    if |passes| == 0 then [] else writes(passes[0]) + Concat(passes[1..], writes)
  }

  /** The writes of a frame that runs `passes`. */
  function FrameWrites(env: Env, u: Uniforms, passes: seq<Pass>, vs: seq<Vertex>, light: Light): seq<PointWrite> {
    Concat(passes, Writer(env, u, vs, light))
  }

  /** Each pass's writes, as one function of the pass. */
  function Writer(env: Env, u: Uniforms, vs: seq<Vertex>, light: Light): Pass -> seq<PointWrite> {
    p => PassWrites(env, u, p, vs, light)
  }

  /** Every pass writes a colour that is displayable as it stands. */
  lemma PassColorsDisplayable(env: Env, u: Uniforms, p: Pass, vs: seq<Vertex>, light: Light)
    ensures forall w :: w in PassWrites(env, u, p, vs, light) ==> InUnitCube(w.color)
  {
    var frags := PassFragments(env, u, match p case BodyPass => 0 case RingPass => 1 case MoonPass => 2, vs, light);
    match p
    case BodyPass =>
      forall w | w in BodyWrites(env, u, frags)
        ensures InUnitCube(w.color)
      {
        var i :| 0 <= i < |frags| && w == WriteOf(frags[i], FragmentShader(env, frags[i], u));
      }
    case RingPass =>
      var kept := RingKept(env.libm, frags);
      forall w | w in RingWrites(env, u, frags)
        ensures InUnitCube(w.color)
      {
        var i :| 0 <= i < |kept| && w == WriteOf(kept[i], RingColor(env.libm, RingRadius(env.libm, kept[i]), u.time));
      }
    case MoonPass =>
      forall w | w in MoonWrites(env, frags)
        ensures InUnitCube(w.color)
      {
        var i :| 0 <= i < |frags| && w == WriteOf(frags[i], MoonColor(env.libm, frags[i]));
      }
  }

  /** Every point a frame writes has every channel in [0, 1]. */
  lemma FrameColorsDisplayable(env: Env, u: Uniforms, passes: seq<Pass>, vs: seq<Vertex>, light: Light)
    ensures forall w :: w in FrameWrites(env, u, passes, vs, light) ==> InUnitCube(w.color)
  {
    var writes := Writer(env, u, vs, light);
    forall p: Pass
      ensures forall w :: w in writes(p) ==> InUnitCube(w.color)
    {
      PassColorsDisplayable(env, u, p, vs, light);
    }
    ConcatKeepsColors(passes, writes);
  }

  lemma {:induction false} ConcatKeepsColors(passes: seq<Pass>, writes: Pass -> seq<PointWrite>)
    requires forall p, w :: w in writes(p) ==> InUnitCube(w.color)
    ensures forall w :: w in Concat(passes, writes) ==> InUnitCube(w.color)
  {
    if |passes| > 0 {
      ConcatKeepsColors(passes[1..], writes);
    }
  }

  /** A frame writes the body's points, then the rings' for planet 3 or the
      moon's for planet 0. */
  lemma ConcatByPlanet(planetType: I32, writes: Pass -> seq<PointWrite>)
    ensures Concat(PassesFor(planetType), writes)
      == writes(BodyPass)
         + (if planetType == 3 then writes(RingPass) else [])
         + (if planetType == 0 then writes(MoonPass) else [])
  {
    var passes := PassesFor(planetType);
    if planetType == 3 {
      assert passes == [BodyPass, RingPass] && passes[1..] == [RingPass] && passes[1..][1..] == [];
    } else if planetType == 0 {
      assert passes == [BodyPass, MoonPass] && passes[1..] == [MoonPass] && passes[1..][1..] == [];
      assert Concat(passes[1..], writes) == writes(MoonPass);
    } else {
      assert passes == [BodyPass] && passes[1..] == [];
    }
  }

  /** The passes of the main loop for the frame's uniforms. */
  method RenderFrame(fb: Framebuffer, env: Env, u: Uniforms, vs: seq<Vertex>, light: Light)
    modifies fb
    ensures fb.writes == old(fb.writes) + FrameWrites(env, u, PassesFor(u.planetType), vs, light)
  {
    ghost var writes := Writer(env, u, vs, light);
    ghost var body, rings, moon := writes(BodyPass), writes(RingPass), writes(MoonPass);
    RenderPlanet(fb, env, u, vs, light);
    assert fb.writes == old(fb.writes) + body;
    if u.planetType == 3 {
      RenderRings(fb, env, u, vs, light);
      assert fb.writes == old(fb.writes) + body + rings;
    }
    if u.planetType == 0 {
      RenderMoon(fb, env, u, vs, light);
      assert fb.writes == old(fb.writes) + body + moon;
    }
    ConcatByPlanet(u.planetType, writes);
    ghost var frame := FrameWrites(env, u, PassesFor(u.planetType), vs, light);
    if u.planetType == 3 {
      assert frame == body + rings;
      AppendAssociates(old(fb.writes), body, rings);
    } else if u.planetType == 0 {
      assert frame == body + moon;
      AppendAssociates(old(fb.writes), body, moon);
    } else {
      assert frame == body;
    }
  }

  lemma AppendAssociates(a: seq<PointWrite>, b: seq<PointWrite>, c: seq<PointWrite>)
    ensures a + b + c == a + (b + c)
  {
  }

  // ----- planet selection -----

  /** The number keys one to five. */
  datatype Key = KeyOne | KeyTwo | KeyThree | KeyFour | KeyFive

  /** The planet type a key selects. */
  function KeyPlanet(k: Key): I32 {
    match k
    case KeyOne => 0
    case KeyTwo => 1
    case KeyThree => 2
    case KeyFour => 3
    case KeyFive => 4
  }

  /** The planet after a frame's key presses: with no key pressed it stays;
      otherwise the highest-numbered pressed key wins. */
  function SelectedPlanet(current: I32, pressed: set<Key>): I32 {
    if pressed == {} then current
    else MaxKeyPlanet(pressed)
  }

  function MaxKeyPlanet(pressed: set<Key>): (r: I32)
    requires pressed != {}
    ensures exists k :: k in pressed && KeyPlanet(k) == r
    ensures forall k :: k in pressed ==> KeyPlanet(k) <= r
    decreases |pressed|
  {
    var k :| k in pressed;
    if pressed == {k} then KeyPlanet(k)
    else
      var rest := MaxKeyPlanet(pressed - {k});
      if KeyPlanet(k) <= rest then rest else KeyPlanet(k)
  }

  /** A selected planet is always one of the five known types when the
      current one is. */
  lemma SelectionStaysKnown(current: I32, pressed: set<Key>)
    requires 0 <= current <= 4
    ensures 0 <= SelectedPlanet(current, pressed) <= 4
  {
    if pressed != {} {
      var k :| k in pressed && KeyPlanet(k) == MaxKeyPlanet(pressed);
    }
  }

  /** The uniforms of a frame: the four matrices, the clock, the planet and
      render type 0. */
  function FrameUniforms(model: Matrix, view: Matrix, projection: Matrix, viewport: Matrix,
                         time: real, dt: real, planetType: I32): Uniforms {
    Uniforms(model, view, projection, viewport, time, dt, planetType, 0)
  }

  /** The state the main loop carries from frame to frame. */
  class Session {
    var time: real
    var planetType: I32

    /** A session starts at time 0 on the rocky planet. */
    constructor ()
      ensures time == 0.0 && planetType == 0
      ensures Valid()
    {
      time := 0.0;
      planetType := 0;
    }

    /** The planet type is one of the five known planets. */
    predicate Valid()
      reads this
    {
      0 <= planetType <= 4
    }

    /** The clock advances by the frame time; then each key, checked from
        one to five, overwrites the planet type. */
    method Tick(dt: real, pressed: set<Key>)
      modifies this
      ensures time == old(time) + dt
      ensures planetType == SelectedPlanet(old(planetType), pressed)
      ensures old(Valid()) ==> Valid()
    {
      time := time + dt;
      if KeyOne in pressed { planetType := 0; }
      if KeyTwo in pressed { planetType := 1; }
      if KeyThree in pressed { planetType := 2; }
      if KeyFour in pressed { planetType := 3; }
      if KeyFive in pressed { planetType := 4; }
      SelectionIsLastKey(old(planetType), pressed);
      if old(Valid()) {
        SelectionStaysKnown(old(planetType), pressed);
      }
    }

    /** One frame: tick, clear the framebuffer, then draw the passes for the
        selected planet with the frame's uniforms. */
    method Frame(fb: Framebuffer, env: Env, model: Matrix, view: Matrix, projection: Matrix, viewport: Matrix,
                 dt: real, pressed: set<Key>, vs: seq<Vertex>, light: Light)
      modifies this, fb
      ensures time == old(time) + dt
      ensures planetType == SelectedPlanet(old(planetType), pressed)
      ensures old(Valid()) ==> Valid()
      ensures fb.writes
        == FrameWrites(env, FrameUniforms(model, view, projection, viewport, time, dt, planetType),
                       PassesFor(planetType), vs, light)
    {
      Tick(dt, pressed);
      fb.Clear();
      var u := FrameUniforms(model, view, projection, viewport, time, dt, planetType);
      RenderFrame(fb, env, u, vs, light);
    }
  }

  /** The key checks run in order one to five, so the last pressed key in
      that order is the one that sticks, which is the highest one. */
  lemma SelectionIsLastKey(current: I32, pressed: set<Key>)
    ensures SelectedPlanet(current, pressed)
      == if KeyFive in pressed then 4
         else if KeyFour in pressed then 3
         else if KeyThree in pressed then 2
         else if KeyTwo in pressed then 1
         else if KeyOne in pressed then 0
         else current
  {
    if pressed != {} {
      var r := MaxKeyPlanet(pressed);
      var k :| k in pressed && KeyPlanet(k) == r;
    }
  }
}
