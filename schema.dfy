/** The scene entities: materials, objects, lights, the camera, the scene and the
    BVH node. The source tags each object and light with a type string and
    downcasts on it; here each family is a closed sum type and Tag() gives the
    string its constructor would have stored. */
module Schema {
  import opened Geometry

  /** Material(ambient, diffuse, specular, shininess, reflective, transmissive, refraction):
      the seven-argument constructor of the source. */
  datatype Material = Material(
    ambient: Vec3,
    diffuse: Vec3,
    specular: Vec3,
    shininess: real,
    reflective: Vec3,
    transmissive: Vec3,
    refraction: real)

  /** Material(ambient, diffuse, specular, shininess): the remaining fields default. */
  function PhongMaterial(ambient: Vec3, diffuse: Vec3, specular: Vec3, shininess: real): (m: Material)
    ensures m.ambient == ambient && m.diffuse == diffuse
    ensures m.specular == specular && m.shininess == shininess
    ensures m.reflective == Zero && m.transmissive == Zero && m.refraction == 0.0
  {
    Material(ambient, diffuse, specular, shininess, Zero, Zero, 0.0)
  }

  /** Material(ambient, diffuse): everything else zero, except shininess 1. */
  function AmbientDiffuseMaterial(ambient: Vec3, diffuse: Vec3): (m: Material)
    ensures m == PhongMaterial(ambient, diffuse, Zero, 1.0)
    ensures m.ambient == ambient && m.diffuse == diffuse
    ensures m.specular == Zero && m.shininess == 1.0
    ensures m.reflective == Zero && m.transmissive == Zero && m.refraction == 0.0
  {
    Material(ambient, diffuse, Zero, 1.0, Zero, Zero, 0.0)
  }

  /** Material(): all colours zero, shininess 1, refraction 0. */
  function DefaultMaterial(): (m: Material)
    ensures m == AmbientDiffuseMaterial(Zero, Zero)
    ensures m.ambient == Zero && m.diffuse == Zero && m.specular == Zero
    ensures m.reflective == Zero && m.transmissive == Zero
    ensures m.shininess == 1.0 && m.refraction == 0.0
  {
    Material(Zero, Zero, Zero, 1.0, Zero, Zero, 0.0)
  }

  /** A triangle given by its three vertices (vertices[0..2]). */
  datatype Triangle = Triangle(a: Vec3, b: Vec3, c: Vec3)

  /** The four object kinds; MTriangle is a mesh triangle wrapped for the BVH, with the
      centre of its bounding box cached as midPoint. */
  datatype Object =
    | Sphere(material: Material, radius: real, position: Vec3)
    | Plane(material: Material, position: Vec3, normal: Vec3)
    | Mesh(material: Material, triangles: seq<Triangle>)
    | MTriangle(material: Material, triangle: Triangle, midPoint: Vec3)
  {
    /** The type string the source's constructor stores. */
    function Tag(): string {
      match this
      case Sphere(_, _, _) => "sphere"
      case Plane(_, _, _) => "plane"
      case Mesh(_, _) => "mesh"
      case MTriangle(_, _, _) => "mTriangle"
    }
  }

  /** An MTriangle as the source's MTriangle(material, triangle) constructor leaves it,
      before buildBVH assigns midPoint; the default glm vector is taken to be zero. */
  function NewMTriangle(material: Material, triangle: Triangle): (o: Object)
    ensures o.MTriangle? && o.Tag() == "mTriangle"
    ensures o.material == material && o.triangle == triangle
  {
    MTriangle(material, triangle, Zero)
  }

  /** The type tag identifies the variant, so dispatching on the tag and then casting,
      as the source does, is the same as matching on the variant. */
  lemma TagIdentifiesVariant(o: Object)
    ensures o.Tag() == "sphere" <==> o.Sphere?
    ensures o.Tag() == "plane" <==> o.Plane?
    ensures o.Tag() == "mesh" <==> o.Mesh?
    ensures o.Tag() == "mTriangle" <==> o.MTriangle?
  {
  }

  datatype Light =
    | AmbientLight(color: Vec3)
    | DirectionalLight(color: Vec3, direction: Vec3)
    | PointLight(color: Vec3, position: Vec3)
      /** cutoff is the half angle of the cone, in degrees. */
    | SpotLight(color: Vec3, position: Vec3, direction: Vec3, cutoff: real)
  {
    function Tag(): string {
      match this
      case AmbientLight(_) => "ambient"
      case DirectionalLight(_, _) => "directional"
      case PointLight(_, _) => "point"
      case SpotLight(_, _, _, _) => "spot"
    }
  }

  lemma LightTagIdentifiesVariant(l: Light)
    ensures l.Tag() == "ambient" <==> l.AmbientLight?
    ensures l.Tag() == "directional" <==> l.DirectionalLight?
    ensures l.Tag() == "point" <==> l.PointLight?
    ensures l.Tag() == "spot" <==> l.SpotLight?
  {
  }

  datatype Camera = Camera(field: real, background: Vec3)

  /** Camera(): field 0, black background. */
  const DefaultCamera := Camera(0.0, Zero)

  datatype Scene = Scene(camera: Camera, objects: seq<Object>, lights: seq<Light>)

  /** BVHNode: a leaf when obj is set (it then carries that object and its box);
      otherwise two children and the box of the whole subtree. */
  datatype Node =
    | Leaf(obj: Object, box: Box)
    | Internal(left: Node, right: Node, box: Box)
}
