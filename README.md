# Ray tracer core: BVH construction, hit resolution and shading control flow

This project models the core of a small recursive ray tracer and proves properties of the model. The tracer is written in C++ with glm vectors:

- `buildBVH` turns the scene's spheres and mesh triangles into a bounding-volume hierarchy (BVH).
- `hit` chooses the nearest object along a ray, or adds up the opacity of everything between a point and a light.
- `light`, `reflect` and `transmit` shade a hit recursively, down to a fixed depth.
- `trace` and `ssTrace` shade one primary ray, or four sub-samples of one pixel.

## How the model is built

The model works over exact reals instead of 32-bit floats. The helpers the code calls from `<cmath>` and glm are abstract fields of a `Numerics` record: `sqrt`, `normalize`, `acos` and `pow`. Every property proved about the model therefore holds for any choice of those helpers, unless a lemma states what it needs from them (for example `sqrt(0) = 0`).

Each module follows the structure of the code:

| file | module | what it holds |
|---|---|---|
| geometry.dfy | `Geometry` | vectors, colours, per-channel clamping, axis-aligned boxes, the abstract numerics |
| settings.dfy | `Settings` | the `DISABLE_*` and `ALLOW_HIT_MESH_BACK` switches as a `Config` record (with the values the code is built with), plus `SELF_HIT`, `MAX_R_DEPTH` and `PI` |
| schema.dfy | `Schema` | materials and their constructors, objects and lights as closed sum types (each with the type tag its constructor stores), the scene, and the BVH node |
| bvh.dfy | `Bvh` | the per-object boxes, the BVH input list, the axis comparison, the sort, the union box, the longest-axis rule, and `subdivide` / `buildBVH` |
| intersect.dfy | `Intersection` | `ray_sphere`, `ray_plane`, `ray_triangle`, `ray_mesh` and the shared interval test |
| traverse.dfy | `Traverse` | `getBVHList` over an abstract box test |
| resolve.dfy | `Resolve` | the scene set-up of `choose_scene`, the candidate list, and `hit` in both of its modes |
| shade.dfy | `Shade` | `refract`, `schlickRefract`, `light`, `reflect`, `transmit`, `trace` and `ssTrace` |

Code that is a loop in the source is modelled twice:

1. A specification function states the result.
2. A method performs the source's own statements, and its `ensures` ties the result to that function.

This applies to the loops in `subdivide`, `buildBVH`, `ray_mesh`, `getBVHList`, `hit`, `light` and `ssTrace`. Lemmas then state what those functions mean. For example:

- the BVH's leaves are a permutation of its input;
- the nearest-hit loop returns the minimum over all candidates;
- pruning the BVH walk loses nothing when boxes nest;
- every shaded colour lies in [0, 1].

`light`, `reflect` and `transmit` call each other recursively. They are mutually recursive functions whose termination measure is `MAX_R_DEPTH - depth`.

Behaviour of the code that the model keeps as it is:

- The ray interval is closed at `far`: `t == far` is accepted.
- In shadow mode, the early stop at full opacity happens only when `pick` is set. Its `if (pick)` guards the stop, because the debug print it was meant for is commented out.
- An ambient light adds `color * ambient` to the direct colour without a clamp. Only the other lights clamp the running total.
- `schlickRefract` and `refract` return a Boolean that `transmit` ignores.
  - On total internal reflection, `refract`'s mirrored direction is traced.
  - When Schlick's test declines to refract, the ray goes straight on; it is not mirrored.
- `transmit` calls `schlickRefract` as written. With Schlick's test on, a ray entering a surface therefore goes straight on (see "## Findings").

## Model

| member | source | states |
|---|---|---|
| Geometry.Clamp01 | src/raytracer.cpp:309 | glm::clamp to [0, 1] leaves every channel in [0, 1] and keeps a colour already in range |
| Schema.DefaultMaterial | src/schema.h:33-35 | the default material has all colours zero, shininess 1 and refraction 0 |
| Schema.AmbientDiffuseMaterial | src/schema.h:36-38 | the two-colour constructor sets ambient and diffuse; specular, reflective and transmissive are zero, shininess 1, refraction 0 |
| Schema.PhongMaterial | src/schema.h:39-41 | the four-argument constructor keeps its arguments; reflective and transmissive are zero, refraction 0 |
| Schema.NewMTriangle | src/schema.h:82-87 | a mesh triangle object carries its material and triangle and the tag "mTriangle" |
| Schema.TagIdentifiesVariant | src/schema.h:56-87 | each object tag ("sphere", "plane", "mesh", "mTriangle") holds exactly for its own variant, so tag dispatch plus cast is a match |
| Schema.LightTagIdentifiesVariant | src/schema.h:99-125 | each light tag ("ambient", "directional", "point", "spot") holds exactly for its own variant |
| Bvh.SphereBoxEncloses | src/bvh.cpp:104-112 | the box position ± radius encloses every point of the sphere, and its centre is the sphere's position |
| Bvh.TriangleBoxIsHull | src/bvh.cpp:122-147 | the triangle's box holds its three vertices and, within the ±1e30 sentinel range, is the componentwise min/max of them |
| Bvh.TriangleEntry | src/bvh.cpp:121-151 | a mesh triangle enters the BVH as an MTriangle with the mesh's material, the triangle's box, and midPoint at that box's centre |
| Bvh.MeshEntriesCount | src/bvh.cpp:114-153 | a mesh contributes exactly one entry per triangle |
| Bvh.EntriesCount | src/bvh.cpp:100-154 | the BVH input has one entry per sphere plus one per mesh triangle; planes contribute none |
| Bvh.EntriesFromScene | src/bvh.cpp:100-154 | every BVH input entry is a scene sphere with its box, or a triangle of a scene mesh with that mesh's material |
| Bvh.MeshEntriesCover | src/bvh.cpp:114-153 | every triangle of a mesh enters as an MTriangle entry with the mesh's material |
| Bvh.EntriesCoverScene | src/bvh.cpp:100-154 | conversely, every scene sphere enters with its box, and every triangle of every scene mesh enters with that mesh's material |
| Bvh.CompareAxisIsStrictWeakOrder | src/bvh.cpp:13-35 | the axis comparison is irreflexive and transitive, and incomparability is transitive, as std::sort requires |
| Bvh.Insert | src/bvh.cpp:82-85 | inserting into a sorted list keeps it sorted by the axis key and adds exactly the new entry |
| Bvh.SortByAxis | src/bvh.cpp:82-85 | the sort returns the entries ordered by representative coordinate on the axis, as a permutation of the input |
| Bvh.BoundsContainsAll | src/bvh.cpp:51-65 | the global bounds contain every entry's box |
| Bvh.BoundsLeast | src/bvh.cpp:51-65 | the global bounds lie inside any box that contains every entry and the initial sentinel box |
| Bvh.BoundsTight | src/bvh.cpp:51-65 | for a non-empty input within the sentinel range, the global bounds lie inside any box containing every entry |
| Bvh.LongestAxis | src/bvh.cpp:69-79 | y if x < y and z < y, else z if x < z and y < z, else x; the chosen extent is the largest except when y == z > x, where x is chosen |
| Bvh.LeafObjectsAreLeaves | src/schema.h:135-142 | the objects of a tree's leaves are, position by position, the objects of its leaf entries |
| Bvh.NestedCoversLeaves | src/bvh.cpp:66-67 | in a tree whose boxes nest, every leaf's box lies inside the root's box |
| Bvh.HierarchySingleton | src/bvh.cpp:42-47 | a one-entry input gives a leaf carrying that object and its own box |
| Bvh.HierarchyLeaves | src/bvh.cpp:37-96 | the leaves of subdivide's tree are a permutation of its input |
| Bvh.HierarchyNested | src/bvh.cpp:51-67 | every node's box contains both children's boxes; an internal node's box is the union of its entries' boxes |
| Bvh.HierarchySplit | src/bvh.cpp:88-93 | for n ≥ 2 the left child gets ⌊n/2⌋ entries and the right the rest, both non-empty, and no left entry sorts after any right entry on the chosen axis |
| Bvh.BuildHierarchyLeaves | src/bvh.cpp:98-156 | buildBVH's leaves are a permutation of the sphere and mesh-triangle entries, drawn from the scene, in a tree whose boxes nest |
| Bvh.GlobalBounds | src/bvh.cpp:51-65 | the min/max loop computes the union box |
| Bvh.Subdivide | src/bvh.cpp:37-96 | the recursive method builds the tree the specification function describes |
| Bvh.TriangleBounds | src/bvh.cpp:122-147 | the eighteen min/max updates compute the triangle's box |
| Bvh.PushMeshEntries | src/bvh.cpp:119-152 | the triangle loop appends one entry per triangle in order |
| Bvh.BuildBVH | src/bvh.cpp:98-156 | the nested loops and the call to subdivide build the specified tree |
| Intersection.AcceptsMeaning | src/raytracer.cpp:113 | a far below near means an unbounded ray: accepted iff t ≥ near; otherwise accepted iff near ≤ t ≤ far |
| Intersection.AcceptsTighter | src/raytracer.cpp:113 | narrowing far to far2 accepts exactly what was accepted before and is at most far2 |
| Intersection.ChooseRoot | src/raytracer.cpp:105-112 | the chosen root is one of the two; it is the smallest root ≥ near when there is one, and below near when both are |
| Intersection.RaySphere | src/raytracer.cpp:92-122 | a negative discriminant misses; a hit is accepted by the interval test, at the chosen root, at e + t·d, with the normalised radial normal; conversely, a non-negative discriminant, a non-zero direction and an accepted root always hit |
| Intersection.SphereHitOnSurface | src/raytracer.cpp:99-116 | when sqrt squares back, the hit point lies on the sphere |
| Intersection.SphereTIsRoot | src/raytracer.cpp:101-112 | the chosen distance is one of the two quadratic roots |
| Intersection.SphereTOnSurface | src/raytracer.cpp:99-112 | the point at the chosen distance lies on the sphere |
| Intersection.RayPlane | src/raytracer.cpp:124-141 | a direction parallel to the plane misses; a hit is accepted, lies on the plane, and carries the normalised plane normal; conversely, a non-parallel direction whose plane distance is accepted always hits |
| Intersection.InsideTriangleRule | src/raytracer.cpp:160-167 | a zero barycentric value rejects; without back faces all three must be positive; an accepted point has three values of one sign |
| Intersection.RayTriangle | src/raytracer.cpp:143-172 | a parallel direction misses; a hit is accepted, at e + t·d, with the triangle's normal, inside by the barycentric rule; conversely, a non-parallel direction whose plane distance is accepted and whose plane point is inside always hits |
| Intersection.SphereTighter | src/raytracer.cpp:92-122 | the sphere test with a smaller far is the old result restricted to t ≤ far2 |
| Intersection.PlaneTighter | src/raytracer.cpp:124-141 | the plane test with a smaller far is the old result restricted to t ≤ far2 |
| Intersection.TriangleTighter | src/raytracer.cpp:143-172 | the triangle test with a smaller far is the old result restricted to t ≤ far2 |
| Intersection.MeshScanIsFixed | src/raytracer.cpp:180-191 | lowering far to each new best gives the same result as testing every triangle against the caller's far |
| Intersection.MeshFixedTighter | src/raytracer.cpp:180-191 | restricting the mesh selection to a smaller far commutes with the selection |
| Intersection.MeshFixedIsNearest | src/raytracer.cpp:180-191 | the selection is the start value or some triangle's hit, never worse than the start, and no accepted triangle hit is closer |
| Intersection.MeshHitIsNearest | src/raytracer.cpp:174-195 | ray_mesh returns some triangle's accepted hit at the smallest t, no triangle hit is closer, and it misses iff every triangle misses |
| Intersection.MeshTighter | src/raytracer.cpp:174-195 | ray_mesh with a smaller far is the old result restricted to t ≤ far2 |
| Intersection.RayMesh | src/raytracer.cpp:174-195 | the loop with its shrinking far computes the specified nearest hit |
| Intersection.IntersectAccepted | src/raytracer.cpp:273-291 | whatever the object kind, a hit passes the interval test |
| Intersection.IntersectTighter | src/raytracer.cpp:273-291 | for every object kind, a smaller far restricts the result to t ≤ far2 |
| Intersection.IntersectObject | src/raytracer.cpp:273-291 | dispatching on the object kind calls the matching routine |
| Traverse.PassingConcat | src/raytracer.cpp:227-237 | filtering by the box test distributes over concatenation |
| Traverse.PassingMembers | src/raytracer.cpp:214-238 | an object passes the filter iff some entry with that object has a passing box |
| Traverse.BVHListSound | src/raytracer.cpp:214-238 | getBVHList returns an in-order subsequence of the leaf objects whose boxes pass |
| Traverse.BVHListAllPass | src/raytracer.cpp:214-238 | when every box passes, getBVHList returns every leaf object in order |
| Traverse.BVHListComplete | src/raytracer.cpp:214-238 | over nested boxes with a test that passes any box containing a passing box, pruning loses nothing: the result is exactly the passing leaves, in order |
| Traverse.GetBVHList | src/raytracer.cpp:214-238 | the appending method returns the specified list |
| Resolve.PlanesOfMembers | src/raytracer.cpp:85-89 | the plane list holds exactly the scene's planes |
| Resolve.ChooseScene | src/raytracer.cpp:59-90 | set-up succeeds iff the scene has a sphere or a mesh triangle; the context then holds the built BVH, the planes, the lights and the background |
| Resolve.CollectPlanes | src/raytracer.cpp:85-89 | the loop collects the planes in scene order |
| Resolve.CandidatesFromScene | src/raytracer.cpp:246-268 | with acceleration on, every candidate is a scene plane or a BVH entry whose box passes the test |
| Resolve.CandidatesComplete | src/raytracer.cpp:246-268 | with acceleration on and a monotone box test, the candidates are all planes followed by every BVH entry whose box passes |
| Resolve.Scan | src/raytracer.cpp:271-334 | the opacity sum is present iff it was given; in nearest mode the returned t is the recorded hit's distance; a recorded hit has an object |
| Resolve.SceneHit | src/raytracer.cpp:240-335 | in nearest mode the result is the recorded hit's distance, or -1; a hit comes with its object |
| Resolve.GatherCandidates | src/raytracer.cpp:246-268 | the copy loop and the appended BVH list form the specified candidate list |
| Resolve.ScanCandidates | src/raytracer.cpp:271-334 | the candidate loop, with its early returns, computes the specified outcome |
| Resolve.FindHit | src/raytracer.cpp:240-335 | hit() computes the specified outcome in both modes |
| Resolve.ScanIsNearestFixed | src/raytracer.cpp:320-331 | in nearest mode, shrinking far to each new best gives the same result as testing every candidate against the caller's far |
| Resolve.NearestFixedIsNearest | src/raytracer.cpp:320-331 | the selection is the start or some candidate's hit with that candidate, has t > 0, and no candidate has a closer positive distance |
| Resolve.SceneHitIsNearest | src/raytracer.cpp:240-335 | nearest mode returns t > 0 only for some candidate's accepted hit and that candidate; no candidate is closer; otherwise it returns -1 |
| Resolve.Accelerated | src/raytracer.cpp:36 | switching `DISABLE_BVH_ACCELERATION` keeps a context well formed |
| Resolve.MeshCoversTriangle | src/raytracer.cpp:174-195 | a mesh hits at a positive distance no farther than any of its triangles' hits |
| Resolve.MeshHitTriangle | src/raytracer.cpp:174-195 | a mesh's hit is the hit of one of its triangles |
| Resolve.AcceleratedHitCovered | src/raytracer.cpp:246-268 | every hit among the accelerated candidates is matched, no farther away, by a scene object |
| Resolve.HitEntryIsCandidate | src/raytracer.cpp:246-268 | under a monotone box test that passes every hit entry's box, every hit entry's object is an accelerated candidate |
| Resolve.SceneHitCovered | src/raytracer.cpp:246-268 | every hit of a scene object is matched, at the same distance, by an accelerated candidate |
| Resolve.AccelerationKeepsNearest | src/raytracer.cpp:240-335 | for a parsed scene and a monotone box test that passes every hit entry's box, hit() in nearest mode returns the same distance with and without BVH acceleration |
| Resolve.ScanShadowOpacity | src/raytracer.cpp:293-317 | transparent shadow mode without pick returns the opacity sum of all accepted blockers, clamped after each |
| Resolve.ShadowOpacityBounds | src/raytracer.cpp:305-309 | the opacity sum stays in [0, 1], never decreases for physical transmissivities, and once full stays full |
| Resolve.OpaqueBlockerSaturates | src/raytracer.cpp:305-309 | one accepted fully opaque blocker makes the opacity sum (1, 1, 1) |
| Resolve.BinaryShadow | src/raytracer.cpp:296-304 | under binary shadows the probe returns 1 with full opacity and an object iff some candidate's hit is accepted, and otherwise -1 with the opacity untouched |
| Shade.Refract | src/raytracer.cpp:362-391 | refraction succeeds iff the radicand is non-negative, with indices (1, index) when entering and (index, 1) when leaving |
| Shade.RefractNoTotalReflection | src/raytracer.cpp:368-381 | entering a medium with index ≥ 1, or leaving one with index ≤ 1, never reflects totally |
| Shade.RefractDirection | src/raytracer.cpp:362-391 | for a unit normal turned toward the ray: a total reflection makes the same angle with the normal as the reversed ray; a refraction has component −sqrt(radicand) along the normal and its part across the normal is the incoming part scaled by etaI / etaR |
| Shade.RefractGrazingExitReflects | src/raytracer.cpp:372-390 | leaving a denser medium along the surface reflects totally, and the mirrored ray keeps its angle to the turned normal |
| Shade.R0BelowOne | src/raytracer.cpp:405-406 | the normal-incidence reflectance lies in [0, 1) |
| Shade.SchlickRefractAsWritten | src/raytracer.cpp:393-418 | as written, a refraction takes refract's direction for ratio 1 / index, and a declined one leaves the direction unchanged |
| Shade.SchlickAsWrittenNeverRefractsEntering | src/raytracer.cpp:399-410 | as written, a ray entering the surface is never refracted for any draw below 1 |
| Shade.SchlickAsWrittenHeadOnExample | src/raytracer.cpp:399-410 | as written, a ray hitting glass (index 1.5) head-on with draw 0.5 is not refracted |
| Shade.SchlickRefract | src/raytracer.cpp:393-418 | with the corrected cosine, a refraction takes refract's direction for ratio 1 / index, and a declined one leaves the direction unchanged |
| Shade.SchlickRefractRule | src/raytracer.cpp:399-414 | with the corrected cosine c = min(abs(r · snorm), 1), the ray refracts iff ratio · sqrt(1 − c²) ≤ 1 and the reflectance at c is at most the draw, the same for a ray and its reverse |
| Shade.SchlickHeadOnRefracts | src/raytracer.cpp:399-414 | with the corrected cosine, a ray entering head-on refracts whenever the draw is at least the normal-incidence reflectance |
| Shade.SchlickHeadOnExitRefracts | src/raytracer.cpp:399-414 | with the corrected cosine, a ray leaving head-on refracts whenever the draw is at least the normal-incidence reflectance |
| Shade.LightIncidence | src/raytracer.cpp:481-508 | a directional light shines along minus its direction with an unbounded shadow ray; point and spot lights are bounded by their distance |
| Shade.FacingNormal | src/raytracer.cpp:536-541 | the normal is kept, or reversed only for a mesh triangle lit from behind when back faces are allowed |
| Shade.Lit | src/raytracer.cpp:542-550 | the diffuse plus specular part lies between 0 and 2 in every channel |
| Shade.Attenuate | src/raytracer.cpp:551-553 | under transparent shadows full opacity removes a light and zero opacity keeps it; under binary shadows it is unchanged |
| Shade.Phong | src/raytracer.cpp:533-556 | a non-blocked light either adds nothing or leaves the running colour clamped to [0, 1] |
| Shade.LightStep | src/raytracer.cpp:466-559 | a non-ambient light either adds nothing or leaves the running colour in [0, 1] |
| Shade.DirectColourInUnit | src/raytracer.cpp:466-561 | without ambient lights, a direct colour starting in [0, 1] stays in [0, 1] over all lights |
| Shade.AmbientStep | src/raytracer.cpp:468-474 | an ambient light adds color · ambient |
| Shade.AmbientIsNotClamped | src/raytracer.cpp:468-474 | two white ambient lights on a white ambient surface give (2, 2, 2) before the final clamp |
| Shade.BlockedLightAddsNothing | src/raytracer.cpp:510-523 | under binary shadows a light with an accepted blocker adds nothing |
| Shade.OpaqueShadowAddsNothing | src/raytracer.cpp:551-555 | under transparent shadows a fully opaque shadow adds nothing beyond the clamp |
| Shade.SpotOutsideConeAddsNothing | src/raytracer.cpp:497-508 | a spot light whose cone misses the point adds nothing |
| Shade.Composite | src/raytracer.cpp:562-570 | the composited colour lies in [0, 1] |
| Shade.CompositeDirectOnly | src/raytracer.cpp:562-570 | with no reflected or transmitted colour, the result is the clamped direct colour |
| Shade.CompositeTransmission | src/raytracer.cpp:566-570 | a transmitted colour blends as direct·(1 − transmissive) + transmitted·transmissive; a fully transmissive surface shows the transmitted colour |
| Shade.LightColour | src/raytracer.cpp:452-575 | light() returns a colour in [0, 1] |
| Shade.DepthLimitStopsRecursion | src/raytracer.cpp:458-464 | at depth MAX_R_DEPTH no secondary ray is traced: the colour is the clamped direct colour |
| Shade.MatteIsDirectOnly | src/raytracer.cpp:458-464 | a surface with neither reflective nor transmissive colour is lit by direct light only |
| Shade.AmbientOnlyColour | src/raytracer.cpp:452-575 | a matte surface lit only by a white ambient light shows exactly its ambient colour |
| Shade.AddLight | src/raytracer.cpp:466-559 | one pass of the light loop, with its shadow probe, computes the specified step |
| Shade.AllLights | src/raytracer.cpp:466-561 | the light loop computes the specified direct colour |
| Shade.Light | src/raytracer.cpp:452-575 | light() computes the specified colour |
| Shade.Secondary | src/raytracer.cpp:349-357 | a secondary ray shades its hit one level deeper, or yields the background |
| Shade.Reflect | src/raytracer.cpp:337-360 | reflect() computes the specified colour |
| Shade.TransmitDirectionCases | src/raytracer.cpp:420-434 | the traced direction is the incoming one without refraction, refract's direction with Schlick's test off, and the incoming one for an entering ray with the test on and a draw below 1 |
| Shade.Transmit | src/raytracer.cpp:420-449 | transmit() computes the specified colour, using schlickRefract as written |
| Shade.Trace | src/raytracer.cpp:633-650 | a primary ray that hits yields a colour in [0, 1]; one that misses leaves the colour untouched |
| Shade.TraceHitsIffSomeCandidate | src/raytracer.cpp:641-643 | trace hits iff some candidate is hit at t ≥ 1 |
| Shade.TraceRay | src/raytracer.cpp:633-650 | trace() computes the specified result |
| Shade.SampleAt | src/raytracer.cpp:584-600 | a sub-sample that hits has a colour in [0, 1] |
| Shade.SsTrace | src/raytracer.cpp:577-631 | ssTrace fails iff fewer than four sub-sample points are given; otherwise it uses the first four |
| Shade.Combine | src/raytracer.cpp:602-630 | combining four samples always yields a traced result |
| Shade.CombineAverage | src/raytracer.cpp:602-630 | without toon shading, ssTrace hits iff some sample hits; the colour is then the four-sample sum over four (misses count 0) and lies in [0, 1]; otherwise the colour is untouched |
| Shade.CombineToonEdge | src/raytracer.cpp:616-619 | with toon shading, a pixel where some samples hit and some miss is black |
| Shade.CombineToonBoundary | src/raytracer.cpp:620-624 | with toon shading, four hits on different objects give black |
| Shade.SomeValid | src/raytracer.cpp:591-600 | the valid count is non-zero iff some sample hit |
| Shade.ValidCountFull | src/raytracer.cpp:591-600 | the valid count equals the sample count iff every sample hit |
| Shade.HitObjectsAllValid | src/raytracer.cpp:595 | when every sample hits, the hit objects are the samples' objects in order |
| Shade.Subsample | src/raytracer.cpp:584-600 | one iteration of the sample loop computes the specified sample |
| Shade.SampleTotals | src/raytracer.cpp:578-601 | the loop over four samples computes the colour sum, the valid and invalid counts, the hit objects, and the hit flag |
| Shade.SsTraceRays | src/raytracer.cpp:577-631 | ssTrace() computes the specified outcome |
| Shade.ToonRule | src/raytracer.cpp:603-625 | the toon branches compute the specified colour |

## Findings

| source | as written | input that shows it | evidently intended | confidence | as-written member | corrected member |
|---|---|---|---|---|---|---|
| src/raytracer.cpp:399-400 | `unitDirection = -r` and then `cosTheta = min(dot(-unitDirection, snorm), 1)`, so cosTheta is r · snorm; this is negative for every ray entering the surface, so 1 − cosTheta > 1 and the reflectance exceeds 1 | a ray hitting glass (index 1.5) head-on, r = −snorm, with random draw 0.5: cosTheta = −1, reflectance = 0.04 + 0.96 · 32 = 30.76 > 0.5, so no refraction | cosTheta = min(abs(r · snorm), 1), the cosine between the ray and the normal turned toward it (as refract turns it), as Schlick's approximation uses on either side; head-on that gives reflectance r0 = 0.04 and the draw 0.5 refracts | not executed | Shade.SchlickAsWrittenNeverRefractsEntering | Shade.SchlickHeadOnRefracts |

`transmit` in the model (`Shade.TransmitDirection`, `Shade.Transmit`) calls `Shade.SchlickRefractAsWritten`, so the model traces what the code traces; `Shade.TransmitDirectionCases` states the consequence. The corrected definition is `Shade.SchlickRefract`, with `Shade.SchlickRefractRule`, `Shade.SchlickHeadOnRefracts` and `Shade.SchlickHeadOnExitRefracts` proved about it.

## Left out

- Floating point: coordinates and colours are exact reals. Rounding, NaN and the 32-bit `float`/`double` conversions are not modelled, apart from one case: a zero direction makes the sphere test divide 0 by 0, and the model treats that as a miss.
- `sqrt`, `glm::normalize`, `acos` and `pow` are abstract functions. `std::pow(x, 5)` in `schlickRefract` is an integer power, so it is written out exactly.
- `ray_box` (src/raytracer.cpp:197-212) is an abstract test on a box and a ray. Its slab arithmetic with `1/d` and the ±1e30 limits is not modelled. It ignores `near` and `far`, and so does the model.
- `randomFloat` (src/raytracer.cpp:54-57) is a parameter of the context, `draw(depth, point)`, standing for the value the generator yields at that point of the recursion.
- File and console I/O are left out: reading the scene file in `choose_scene`, every debug print under `pick`, and the `prefix` strings. `pick` is kept where it changes control flow (the shadow early stop).
- Object identity is value equality. The code compares `Object*` pointers only in `ssTrace`'s toon outline test. The model treats two equal objects as the same object.
- `std::sort` is modelled by an insertion sort. Only sortedness and permutation are stated about it, so the order the model picks among equal keys is not claimed to be the one `std::sort` picks.
- Default-constructed glm vectors (`reflect_colour`, `transmit_colour`, `direct_colour`, an MTriangle's `midPoint` before it is set) are taken to be zero.
- The out-parameters `hit_at`, `hit_normal` and `n` as left on a miss are not modelled. The model's miss carries no point or normal, and no caller reads them after a miss.
- `glm::length(v) > 0` is modelled as `v != 0`, which is exact over the reals.
- A scene with no sphere and no mesh triangle sends `buildBVH` into an unguarded recursion (`subdivide` on an empty list never reaches its base case). `Resolve.ChooseScene` returns `None` for it, and `Bvh.Subdivide` requires a non-empty input.
- `ss.at(i)` in `ssTrace` throws when fewer than four points are given. The model returns `SampleOutOfRange` instead of throwing.
- Ownership of the heap objects (`new BVHNode`, `new MTriangle`, never freed) is replaced by inductive datatypes.
- `Intersection.MeshHitIsNearest`, `Intersection.MeshScanIsFixed`, `Resolve.ScanIsNearestFixed` and `Resolve.SceneHitIsNearest` require `near ≥ 0`. Every call site passes 1.0 or `SELF_HIT`. The require lets a mesh hit at t ≥ near count as a positive distance.
- src/json2schema.cpp, src/utils/json2cpp.cpp, src/utils/obj2json.py and src/raytracer.h are not part of this model. Of these, only the `DISABLE_TOON_SHADING` switch in src/raytracer.h is taken over, into `Settings.Config`.
- The renderer's main loop, the camera set-up and the image output are not part of this model.
- Shade.LightIncidence: the spot-light cone test is stated only through the abstract `acos`. The lemma `Shade.SpotOutsideConeAddsNothing` gives its effect; the angle itself is not related to any geometry.
- Shade.Lit: the bound is [0, 2] per channel. The diffuse and specular values themselves are not related to the geometry, since they go through the abstract `pow` and `normalize`.
- Resolve.AccelerationKeepsNearest: only the returned distance is claimed to be the same in both modes. The recorded object can differ on a tie, and with acceleration on a mesh hit is recorded as its triangle's MTriangle. The lemma assumes two things. First, because `ray_box` is abstract, it assumes the box test is monotone and passes the box of every entry the ray hits. Second, it assumes the scene holds no MTriangle, since the scene parser builds only spheres, planes and meshes.
