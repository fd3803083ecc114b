/**
 * The records the render passes share and the collaborators they call
 * without this model interpreting them.
 */
module Scene {
  import opened Numerics
  import opened Vectors
  import opened Fragments

  /** A mesh vertex. The object-space attributes come from the mesh; the
      transformed fields are what the vertex shader fills in. vertex.rs is not
      part of this model: the fields are those the shaders read and write, and
      the colour is taken to be a Vector3. */
  datatype Vertex = Vertex(
    position: Vec3,
    normal: Vec3,
    texCoords: Vec2,
    color: Vec3,
    transformedPosition: Vec3,
    transformedNormal: Vec3)

  /** Three transformed vertices in mesh order. */
  datatype Triangle = Triangle(a: Vertex, b: Vertex, c: Vertex)

  /** A point light. light.rs is not part of this model; the light is only
      handed to the rasterizer. */
  datatype Light = Light(position: Vec3)

  /** The per-frame snapshot `Uniforms` of main.rs. `planetType` selects the
      surface (0 rocky, 1 gaseous, 2 bioluminescent, 3 ringed, 4 icy) and
      `renderType` the geometric role of the mesh (0 body, 1 rings, 2 moon). */
  datatype Uniforms = Uniforms(
    modelMatrix: Matrix,
    viewMatrix: Matrix,
    projectionMatrix: Matrix,
    viewportMatrix: Matrix,
    time: real,
    dt: real,
    planetType: I32,
    renderType: I32)

  /** Code the render passes call but whose source is not part of this model:
      the math library, `matrix::multiply_matrix_vector4`,
      `triangle::triangle` (the rasterizer), and the four palette functions
      `rocky_planet_color`, `gaseous_planet_color`, `biolum_planet_color` and
      `ice_planet_color`, each a function of a world position and the time. */
  datatype Env = Env(
    libm: Libm,
    multiply: (Matrix, Vec4) -> Vec4,
    rasterize: (Vertex, Vertex, Vertex, Light) -> seq<Fragment>,
    rockyColor: (Vec3, real) -> Vec3,
    gaseousColor: (Vec3, real) -> Vec3,
    biolumColor: (Vec3, real) -> Vec3,
    iceColor: (Vec3, real) -> Vec3)
}
