/** The read-only scene the renderer is handed: meshes from the geometry
    builder, and the lights, materials and instances of the scene context.
    Colours, positions and matrices are opaque payloads; they are passed
    through to the device unchanged. */
module Scene {

  datatype Vec2 = Vec2(x: real, y: real)
  datatype Vec3 = Vec3(x: real, y: real, z: real)

  /** A 4x4 matrix, column-major, as the shader receives it. */
  type Mat4 = seq<real>

  type MeshId = nat
  type MaterialId = nat

  /** One mesh of the geometry builder: parallel vertex arrays and the
      triangle index array. */
  datatype Mesh = Mesh(
    id: MeshId,
    positions: seq<Vec3>,
    normals: seq<Vec3>,
    texcoords: seq<Vec2>,
    indices: seq<nat>)

  /** A material; an empty texture file name means "no texture". */
  datatype Material = Material(
    id: MaterialId,
    ambient: Vec3,
    diffuse: Vec3,
    specular: Vec3,
    shininess: real,
    diffuseTexture: string,
    specularTexture: string)

  datatype Instance = Instance(meshId: MeshId, materialId: MaterialId, xform: Mat4)

  datatype Light = Light(position: Vec3, intensity: Vec3, range: real)

  /** The queries of the scene context the renderer uses. */
  datatype Context = Context(
    lights: seq<Light>,
    materials: seq<Material>,
    instances: seq<Instance>)

  predicate HasMaterial(ctx: Context, id: MaterialId) {
    exists i :: 0 <= i < |ctx.materials| && ctx.materials[i].id == id
  }

  /** Every instance names a material the context knows. */
  predicate InstancesResolve(ctx: Context, insts: seq<Instance>) {
    forall k :: 0 <= k < |insts| ==> HasMaterial(ctx, insts[k].materialId)
  }

  /** Lookup by id; an unknown id is a caller error. When several materials
      share an id, the first is returned. */
  function MaterialById(ctx: Context, id: MaterialId): (m: Material)
    requires HasMaterial(ctx, id)
    ensures m.id == id
    ensures exists i :: (0 <= i < |ctx.materials| && ctx.materials[i] == m
                         && forall j :: 0 <= j < i ==> ctx.materials[j].id != id)
  {
    FindMaterial(ctx.materials, id, 0)
  }

  function FindMaterial(ms: seq<Material>, id: MaterialId, from: nat): (m: Material)
    requires from <= |ms|
    requires exists i :: from <= i < |ms| && ms[i].id == id
    ensures m.id == id
    ensures exists i :: (from <= i < |ms| && ms[i] == m
                         && forall j :: from <= j < i ==> ms[j].id != id)
    decreases |ms| - from
  {
    if ms[from].id == id then ms[from]
    else FindMaterial(ms, id, from + 1)
  }
}
