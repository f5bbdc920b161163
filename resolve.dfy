/** Hit resolution (src/raytracer.cpp: the scene set-up of choose_scene, and hit).

    hit() runs in one of two modes. With a NULL opacity pointer it looks for the
    nearest hit, shrinking far to every new best. With an opacity sum it is a
    shadow probe: every accepted hit adds the blocker's opacity, and far is left
    alone. The renderer's globals (scene, planes, bvhNode, background_colour) and
    the abstract helpers form a RenderContext. */
module Resolve {
  import opened Geometry
  import opened Settings
  import opened Schema
  import opened Bvh
  import opened Intersection
  import opened Traverse

  datatype Option<T> = None | Some(value: T)

  /** The renderer's state after choose_scene, with the float helpers it calls:
      rayBox(box, e, d) is ray_box, and draw(depth, point) stands for the value that
      randomFloat() yields at that point of the recursion. */
  datatype RenderContext = RenderContext(
    cfg: Config,
    nm: Numerics,
    objects: seq<Object>,
    lights: seq<Light>,
    planes: seq<Object>,
    bvh: Node,
    background: Vec3,
    rayBox: (Box, Vec3, Vec3) -> bool,
    draw: (nat, Vec3) -> real)

  /** The planes of the scene, in scene order. */
  function PlanesOf(objects: seq<Object>): seq<Object> {
    if objects == [] then []
    else
      var init := objects[..|objects| - 1];
      var o := objects[|objects| - 1];
      PlanesOf(init) + (if o.Plane? then [o] else [])
  }

  lemma {:induction false} PlanesOfMembers(objects: seq<Object>)
    ensures forall o :: o in PlanesOf(objects) <==> o in objects && o.Plane?
  {
    if objects != [] {
      var init := objects[..|objects| - 1];
      PlanesOfMembers(init);
      assert objects == init + [objects[|objects| - 1]];
    }
  }

  /** A context as choose_scene leaves it: the BVH is built over the scene's objects and
      the planes are collected from them. */
  predicate WellFormed(ctx: RenderContext) {
    && |Entries(ctx.objects)| > 0
    && ctx.bvh == BuildHierarchy(ctx.objects)
    && ctx.planes == PlanesOf(ctx.objects)
  }

  /** choose_scene after the file is parsed. A scene with no sphere and no mesh triangle
      sends buildBVH into an endless recursion; the model rejects it. */
  function ChooseScene(cfg: Config, nm: Numerics, scene: Scene, rayBox: (Box, Vec3, Vec3) -> bool,
                       draw: (nat, Vec3) -> real): (r: Option<RenderContext>)
    ensures r.Some? <==> |Entries(scene.objects)| > 0
    ensures r.Some? ==> WellFormed(r.value)
    ensures r.Some? ==> r.value.objects == scene.objects && r.value.lights == scene.lights
    ensures r.Some? ==> r.value.background == scene.camera.background && r.value.cfg == cfg
  {
    if |Entries(scene.objects)| == 0 then None
    else Some(RenderContext(cfg, nm, scene.objects, scene.lights, PlanesOf(scene.objects),
                            BuildHierarchy(scene.objects), scene.camera.background, rayBox, draw))
  }

  /** The plane-collecting loop of choose_scene. */
  method CollectPlanes(objects: seq<Object>) returns (planes: seq<Object>)
    ensures planes == PlanesOf(objects)
  {
    planes := [];
    for i := 0 to |objects|
      invariant planes == PlanesOf(objects[..i])
    {
      assert objects[..i + 1][..i] == objects[..i];
      if objects[i].Plane? {
        planes := planes + [objects[i]];
      }
    }
    assert objects[..|objects|] == objects;
  }

  // ---------------------------------------------------------------------------
  // Candidates

  /** ray_box for one ray, as a test on boxes. */
  function BoxTest(ctx: RenderContext, e: Vec3, d: Vec3): Box -> bool {
    b => ctx.rayBox(b, e, d)
  }

  /** With acceleration on: every plane, then the BVH walk; otherwise every scene object. */
  function Candidates(ctx: RenderContext, e: Vec3, d: Vec3): seq<Object> {
    if !ctx.cfg.disableBvhAcceleration then ctx.planes + BVHList(ctx.bvh, BoxTest(ctx, e, d))
    else ctx.objects
  }

  /** Accelerated candidates come from the scene: a plane of the scene, or the object of a
      BVH entry (a scene sphere or a triangle of a scene mesh) whose box passes the test. */
  lemma CandidatesFromScene(ctx: RenderContext, e: Vec3, d: Vec3)
    requires WellFormed(ctx) && !ctx.cfg.disableBvhAcceleration
    ensures forall o :: o in Candidates(ctx, e, d) ==>
      (o.Plane? && o in ctx.objects) ||
      exists en :: en in Entries(ctx.objects) && en.obj == o && ctx.rayBox(en.box, e, d)
  {
    PlanesOfMembers(ctx.objects);
    BVHListSound(ctx.bvh, BoxTest(ctx, e, d));
    BuildHierarchyLeaves(ctx.objects);
    forall o | o in Candidates(ctx, e, d) && !(o.Plane? && o in ctx.objects)
      ensures exists en :: en in Entries(ctx.objects) && en.obj == o && ctx.rayBox(en.box, e, d)
    {
      assert o in BVHList(ctx.bvh, BoxTest(ctx, e, d));
      var en :| en in Leaves(ctx.bvh) && en.obj == o && BoxTest(ctx, e, d)(en.box);
      assert en in multiset(Leaves(ctx.bvh));
    }
  }

  /** Under a monotone box test the accelerated candidates are the planes followed by every
      BVH entry whose box the ray meets, in leaf order. */
  lemma CandidatesComplete(ctx: RenderContext, e: Vec3, d: Vec3)
    requires WellFormed(ctx) && !ctx.cfg.disableBvhAcceleration
    requires Monotone(BoxTest(ctx, e, d))
    ensures Candidates(ctx, e, d) == ctx.planes + Passing(Leaves(ctx.bvh), BoxTest(ctx, e, d))
  {
    BuildHierarchyLeaves(ctx.objects);
    BVHListComplete(ctx.bvh, BoxTest(ctx, e, d));
  }

  // ---------------------------------------------------------------------------
  // The loop of hit()

  /** What hit() leaves behind: the float it returns, the hit it recorded last (hit_at and
      hit_normal), the object it recorded (hit_object) and the opacity sum (None for a
      NULL pointer). */
  datatype HitOutcome = HitOutcome(t: real, nearest: Isect, obj: Option<Object>, opacity: Option<Vec3>)

  /** The loop variables of hit(): the recorded hit (nearest_t is its T()), far,
      hit_object and the opacity sum. */
  datatype HitState = HitState(nearest: Isect, far: real, obj: Option<Object>, opacity: Option<Vec3>)

  datatype StepResult = Continue(state: HitState) | Stop(outcome: HitOutcome)

  /** The update test: t > 0 and (nothing yet or t below the recorded distance). */
  predicate Closer(r: Isect, nearest: Isect) {
    r.T() > 0.0 && (nearest.T() < 0.0 || r.T() < nearest.T())
  }

  /** One candidate of hit(). In shadow mode an accepted hit either ends the probe with full
      opacity (binary shadows) or adds 1 - transmissive to the sum, clamped per channel; the
      probe also ends at full opacity, but only when pick is set (the test sits under the
      `if (pick)` of the debug print). Then, in both modes, a closer hit is recorded and,
      in nearest mode only, far drops to it. */
  function Step(cfg: Config, nm: Numerics, o: Object, e: Vec3, d: Vec3, near: real, pick: bool, st: HitState): StepResult {
    var r := Intersect(cfg.allowHitMeshBack, nm, o, e, d, near, st.far);
    var accepted := st.opacity.Some? && Accepts(r.T(), near, st.far);
    if accepted && cfg.disableShadowTransparency then Stop(HitOutcome(1.0, st.nearest, Some(o), Some(One)))
    else
      var opacity := if accepted then Some(Clamp01(Add(st.opacity.value, Sub(One, o.material.transmissive)))) else st.opacity;
      if accepted && pick && opacity == Some(One) then Stop(HitOutcome(1.0, st.nearest, st.obj, opacity))
      else if Closer(r, st.nearest) then Continue(HitState(r, if st.opacity.None? then r.T() else st.far, Some(o), opacity))
      else Continue(st.(opacity := opacity))
  }

  function Scan(cfg: Config, nm: Numerics, cands: seq<Object>, e: Vec3, d: Vec3, near: real, pick: bool, st: HitState): (out: HitOutcome)
    ensures out.opacity.Some? == st.opacity.Some?
    ensures st.opacity.None? ==> out.t == out.nearest.T()
    ensures (st.nearest.Hit? ==> st.obj.Some?) ==> (out.nearest.Hit? ==> out.obj.Some?)
    decreases |cands|
  {
    if cands == [] then HitOutcome(st.nearest.T(), st.nearest, st.obj, st.opacity)
    else
      match Step(cfg, nm, cands[0], e, d, near, pick, st)
      case Stop(out) => out
      case Continue(next) => Scan(cfg, nm, cands[1..], e, d, near, pick, next)
  }

  /** hit(e, d, near, far, ..., opacity_sum, pick). */
  function SceneHit(ctx: RenderContext, e: Vec3, d: Vec3, near: real, far: real, opacity: Option<Vec3>, pick: bool): (out: HitOutcome)
    ensures out.opacity.Some? == opacity.Some?
    ensures opacity.None? ==> out.t == out.nearest.T()
    ensures out.nearest.Hit? ==> out.obj.Some?
  {
    Scan(ctx.cfg, ctx.nm, Candidates(ctx, e, d), e, d, near, pick, HitState(Miss, far, None, opacity))
  }

  /** The candidate list of hit(): the planes copied one by one, then getBVHList appended;
      or, without acceleration, every scene object. */
  method GatherCandidates(ctx: RenderContext, e: Vec3, d: Vec3) returns (candidates: seq<Object>)
    ensures candidates == Candidates(ctx, e, d)
  {
    if !ctx.cfg.disableBvhAcceleration {
      candidates := [];
      for k := 0 to |ctx.planes|
        invariant candidates == ctx.planes[..k]
      {
        candidates := candidates + [ctx.planes[k]];
      }
      assert ctx.planes[..|ctx.planes|] == ctx.planes;
      var append := GetBVHList(ctx.bvh, BoxTest(ctx, e, d));
      candidates := candidates + append;
    } else {
      candidates := ctx.objects;
    }
  }

  /** The loop of hit() over its candidates, with its early returns. */
  method ScanCandidates(cfg: Config, nm: Numerics, candidates: seq<Object>, e: Vec3, d: Vec3,
                        near: real, far: real, opacitySum: Option<Vec3>, pick: bool)
    returns (out: HitOutcome)
    ensures out == Scan(cfg, nm, candidates, e, d, near, pick, HitState(Miss, far, None, opacitySum))
  {
    var nearest := Miss;
    var bound := far;
    var obj: Option<Object> := None;
    var opacity := opacitySum;
    for i := 0 to |candidates|
      invariant Scan(cfg, nm, candidates[i..], e, d, near, pick, HitState(nearest, bound, obj, opacity)) ==
                Scan(cfg, nm, candidates, e, d, near, pick, HitState(Miss, far, None, opacitySum))
    {
      assert candidates[i..][0] == candidates[i] && candidates[i..][1..] == candidates[i + 1..];
      var o := candidates[i];
      var r := IntersectObject(cfg.allowHitMeshBack, nm, o, e, d, near, bound);
      var t := r.T();
      if opacity.Some? && Accepts(t, near, bound) {
        if cfg.disableShadowTransparency {
          return HitOutcome(1.0, nearest, Some(o), Some(One));
        }
        opacity := Some(Clamp01(Add(opacity.value, Sub(One, o.material.transmissive))));
        if pick && opacity == Some(One) {
          return HitOutcome(1.0, nearest, obj, opacity);
        }
      }
      if t > 0.0 && (nearest.T() < 0.0 || t < nearest.T()) {
        nearest := r;
        if opacity.None? {
          bound := t;
        }
        obj := Some(o);
      }
    }
    out := HitOutcome(nearest.T(), nearest, obj, opacity);
  }

  /** hit(). */
  method FindHit(ctx: RenderContext, e: Vec3, d: Vec3, near: real, far: real, opacitySum: Option<Vec3>, pick: bool)
    returns (out: HitOutcome)
    ensures out == SceneHit(ctx, e, d, near, far, opacitySum, pick)
  {
    var candidates := GatherCandidates(ctx, e, d);
    out := ScanCandidates(ctx.cfg, ctx.nm, candidates, e, d, near, far, opacitySum, pick);
  }

  // ---------------------------------------------------------------------------
  // Nearest mode

  datatype Choice = Choice(best: Isect, obj: Option<Object>)

  /** The reference selection: the same update test with every candidate intersected
      against the caller's far. */
  function NearestFixed(allowBack: bool, nm: Numerics, cands: seq<Object>, e: Vec3, d: Vec3,
                        near: real, far: real, c: Choice): Choice
    decreases |cands|
  {
    if cands == [] then c
    else
      var r := Intersect(allowBack, nm, cands[0], e, d, near, far);
      NearestFixed(allowBack, nm, cands[1..], e, d, near, far,
                   if Closer(r, c.best) then Choice(r, Some(cands[0])) else c)
  }

  /** In nearest mode, bounding later candidates by the best distance so far changes
      nothing: the loop returns the reference selection. */
  lemma {:induction false} ScanIsNearestFixed(cfg: Config, nm: Numerics, cands: seq<Object>, e: Vec3, d: Vec3,
                                              near: real, far: real, pick: bool, st: HitState)
    requires 0.0 <= near
    requires st.opacity.None?
    requires st.nearest == Miss ==> st.far == far
    requires st.nearest.Hit? ==> st.far == st.nearest.t && st.nearest.t > 0.0 && Accepts(st.nearest.t, near, far)
    ensures var c := NearestFixed(cfg.allowHitMeshBack, nm, cands, e, d, near, far, Choice(st.nearest, st.obj));
      Scan(cfg, nm, cands, e, d, near, pick, st) == HitOutcome(c.best.T(), c.best, c.obj, None)
    decreases |cands|
  {
    if cands != [] {
      var o := cands[0];
      var r := Intersect(cfg.allowHitMeshBack, nm, o, e, d, near, far);
      if st.nearest.Hit? {
        IntersectTighter(cfg.allowHitMeshBack, nm, o, e, d, near, far, st.far);
      }
      IntersectAccepted(cfg.allowHitMeshBack, nm, o, e, d, near, far);
      var next := if Closer(r, st.nearest) then HitState(r, r.T(), Some(o), None) else st;
      assert Step(cfg, nm, o, e, d, near, pick, st) == Continue(next);
      ScanIsNearestFixed(cfg, nm, cands[1..], e, d, near, far, pick, next);
    }
  }

  /** The reference selection is the nearest positive hit: it comes from the starting choice
      or from a candidate (with that candidate as the object), no candidate's positive hit
      is nearer, ties keep the earlier candidate, and it is a miss only when no candidate
      has a positive hit. */
  lemma {:induction false} NearestFixedIsNearest(allowBack: bool, nm: Numerics, cands: seq<Object>, e: Vec3, d: Vec3,
                                                 near: real, far: real, c: Choice)
    requires c.best.Hit? ==> c.best.t > 0.0
    ensures var res := NearestFixed(allowBack, nm, cands, e, d, near, far, c);
      && (res == c || exists i :: (0 <= i < |cands| &&
            res == Choice(Intersect(allowBack, nm, cands[i], e, d, near, far), Some(cands[i]))))
      && (res.best.Hit? ==> res.best.t > 0.0)
      && (c.best.Hit? ==> res.best.Hit? && res.best.t <= c.best.t)
      && (forall i :: 0 <= i < |cands| && Intersect(allowBack, nm, cands[i], e, d, near, far).T() > 0.0 ==>
            res.best.Hit? && res.best.t <= Intersect(allowBack, nm, cands[i], e, d, near, far).T())
      && (res.best == Miss ==> c.best == Miss)
    decreases |cands|
  {
    if cands != [] {
      var r := Intersect(allowBack, nm, cands[0], e, d, near, far);
      var next := if Closer(r, c.best) then Choice(r, Some(cands[0])) else c;
      NearestFixedIsNearest(allowBack, nm, cands[1..], e, d, near, far, next);
      var res := NearestFixed(allowBack, nm, cands, e, d, near, far, c);
      if res != c && res != next {
        var i :| 0 <= i < |cands[1..]| &&
          res == Choice(Intersect(allowBack, nm, cands[1..][i], e, d, near, far), Some(cands[1..][i]));
        assert cands[1..][i] == cands[i + 1];
      }
      forall i | 0 <= i < |cands| && Intersect(allowBack, nm, cands[i], e, d, near, far).T() > 0.0
        ensures res.best.Hit? && res.best.t <= Intersect(allowBack, nm, cands[i], e, d, near, far).T()
      {
        if i > 0 {
          assert cands[i] == cands[1..][i - 1];
        }
      }
    }
  }

  /** hit() in nearest mode returns the smallest positive accepted distance over the
      candidates, records that hit and its object, and returns -1 when no candidate has a
      positive hit. */
  lemma SceneHitIsNearest(ctx: RenderContext, e: Vec3, d: Vec3, near: real, far: real, pick: bool)
    requires 0.0 <= near
    ensures var out := SceneHit(ctx, e, d, near, far, None, pick);
      var cs := Candidates(ctx, e, d);
      var allowBack := ctx.cfg.allowHitMeshBack;
      && (out.t > 0.0 ==>
            && out.nearest.Hit? && out.t == out.nearest.t && Accepts(out.t, near, far)
            && exists i :: 0 <= i < |cs| && out.nearest == Intersect(allowBack, ctx.nm, cs[i], e, d, near, far) &&
                           out.obj == Some(cs[i]))
      && (forall i :: 0 <= i < |cs| && Intersect(allowBack, ctx.nm, cs[i], e, d, near, far).T() > 0.0 ==>
            out.t > 0.0 && out.t <= Intersect(allowBack, ctx.nm, cs[i], e, d, near, far).T())
      && (out.t <= 0.0 ==> out.t == MISS && out.nearest == Miss)
  {
    var cs := Candidates(ctx, e, d);
    var allowBack := ctx.cfg.allowHitMeshBack;
    ScanIsNearestFixed(ctx.cfg, ctx.nm, cs, e, d, near, far, pick, HitState(Miss, far, None, None));
    NearestFixedIsNearest(allowBack, ctx.nm, cs, e, d, near, far, Choice(Miss, None));
    var out := SceneHit(ctx, e, d, near, far, None, pick);
    if out.t > 0.0 {
      var i :| 0 <= i < |cs| && Choice(out.nearest, out.obj) == Choice(Intersect(allowBack, ctx.nm, cs[i], e, d, near, far), Some(cs[i]));
      IntersectAccepted(allowBack, ctx.nm, cs[i], e, d, near, far);
    }
  }

  // ---------------------------------------------------------------------------
  // Acceleration

  /** The context with BVH acceleration switched on (true) or off (false). */
  function Accelerated(ctx: RenderContext, on: bool): (r: RenderContext)
    ensures r.cfg.disableBvhAcceleration == !on
    ensures WellFormed(ctx) ==> WellFormed(r)
  {
    ctx.(cfg := ctx.cfg.(disableBvhAcceleration := !on))
  }

  /** A ray/box test that passes the box of every BVH entry whose object the ray hits in
      [near, far], as an exact test does on boxes that enclose their objects. */
  ghost predicate BoxTestSound(ctx: RenderContext, e: Vec3, d: Vec3, near: real, far: real) {
    forall en :: en in Entries(ctx.objects) && Intersect(ctx.cfg.allowHitMeshBack, ctx.nm, en.obj, e, d, near, far).Hit? ==>
      ctx.rayBox(en.box, e, d)
  }

  /** A mesh hits at least as near as any of its triangles. */
  lemma MeshCoversTriangle(allowBack: bool, nm: Numerics, m: Object, tri: Triangle, e: Vec3, d: Vec3, near: real, far: real)
    requires m.Mesh? && tri in m.triangles && near > 0.0
    requires RayTriangle(allowBack, nm, tri, e, d, near, far).Hit?
    ensures 0.0 < Intersect(allowBack, nm, m, e, d, near, far).T() <= RayTriangle(allowBack, nm, tri, e, d, near, far).t
  {
    var k :| 0 <= k < |m.triangles| && m.triangles[k] == tri;
    MeshHitIsNearest(allowBack, nm, m.triangles, e, d, near, far);
  }

  /** The triangle of a mesh that the mesh's hit comes from. */
  lemma MeshHitTriangle(allowBack: bool, nm: Numerics, m: Object, e: Vec3, d: Vec3, near: real, far: real)
    returns (tri: Triangle)
    requires m.Mesh? && near >= 0.0
    requires Intersect(allowBack, nm, m, e, d, near, far).Hit?
    ensures tri in m.triangles
    ensures RayTriangle(allowBack, nm, tri, e, d, near, far) == Intersect(allowBack, nm, m, e, d, near, far)
  {
    MeshHitIsNearest(allowBack, nm, m.triangles, e, d, near, far);
    var k :| 0 <= k < |m.triangles| && Intersect(allowBack, nm, m, e, d, near, far) ==
                                        RayTriangle(allowBack, nm, m.triangles[k], e, d, near, far);
    tri := m.triangles[k];
  }

  /** Every hit among the accelerated candidates is matched, at the same distance or nearer,
      by a scene object: a plane or sphere by itself, a mesh triangle by its mesh. */
  lemma AcceleratedHitCovered(ctx: RenderContext, e: Vec3, d: Vec3, near: real, far: real, o: Object)
    requires WellFormed(ctx) && !ctx.cfg.disableBvhAcceleration && near > 0.0
    requires o in Candidates(ctx, e, d)
    requires Intersect(ctx.cfg.allowHitMeshBack, ctx.nm, o, e, d, near, far).Hit?
    ensures exists j ::
      && 0 <= j < |ctx.objects|
      && 0.0 < Intersect(ctx.cfg.allowHitMeshBack, ctx.nm, ctx.objects[j], e, d, near, far).T()
      && Intersect(ctx.cfg.allowHitMeshBack, ctx.nm, ctx.objects[j], e, d, near, far).T() <=
         Intersect(ctx.cfg.allowHitMeshBack, ctx.nm, o, e, d, near, far).t
  {
    var ab := ctx.cfg.allowHitMeshBack;
    CandidatesFromScene(ctx, e, d);
    IntersectAccepted(ab, ctx.nm, o, e, d, near, far);
    var covering: Object;
    if o.Plane? && o in ctx.objects {
      covering := o;
    } else {
      var en :| en in Entries(ctx.objects) && en.obj == o && ctx.rayBox(en.box, e, d);
      EntriesFromScene(ctx.objects);
      assert FromScene(en, ctx.objects);
      if o.Sphere? {
        covering := o;
      } else {
        assert o.MTriangle?;
        var m :| m in ctx.objects && m.Mesh? && m.material == o.material && o.triangle in m.triangles;
        MeshCoversTriangle(ab, ctx.nm, m, o.triangle, e, d, near, far);
        covering := m;
      }
    }
    var j :| 0 <= j < |ctx.objects| && ctx.objects[j] == covering;
  }

  /** Under a monotone, sound box test, the object of every entry the ray hits is an
      accelerated candidate. */
  lemma HitEntryIsCandidate(ctx: RenderContext, e: Vec3, d: Vec3, near: real, far: real, en: Entry)
    requires WellFormed(ctx) && !ctx.cfg.disableBvhAcceleration
    requires Monotone(BoxTest(ctx, e, d)) && BoxTestSound(ctx, e, d, near, far)
    requires en in Entries(ctx.objects) && Intersect(ctx.cfg.allowHitMeshBack, ctx.nm, en.obj, e, d, near, far).Hit?
    ensures en.obj in Candidates(ctx, e, d)
  {
    var test := BoxTest(ctx, e, d);
    CandidatesComplete(ctx, e, d);
    PassingMembers(Leaves(ctx.bvh), test);
    BuildHierarchyLeaves(ctx.objects);
    assert test(en.box);
    assert en in multiset(Leaves(ctx.bvh));
  }

  /** Every hit of a scene object is matched, at the same distance, by an accelerated
      candidate: a plane by itself, a sphere by its entry, a mesh by the entry of the
      triangle it reports. */
  lemma SceneHitCovered(ctx: RenderContext, e: Vec3, d: Vec3, near: real, far: real, j: nat)
    requires WellFormed(ctx) && !ctx.cfg.disableBvhAcceleration && near > 0.0
    requires forall o :: o in ctx.objects ==> !o.MTriangle?
    requires Monotone(BoxTest(ctx, e, d)) && BoxTestSound(ctx, e, d, near, far)
    requires j < |ctx.objects| && Intersect(ctx.cfg.allowHitMeshBack, ctx.nm, ctx.objects[j], e, d, near, far).Hit?
    ensures exists i ::
      && 0 <= i < |Candidates(ctx, e, d)|
      && Intersect(ctx.cfg.allowHitMeshBack, ctx.nm, Candidates(ctx, e, d)[i], e, d, near, far) ==
         Intersect(ctx.cfg.allowHitMeshBack, ctx.nm, ctx.objects[j], e, d, near, far)
  {
    var ab := ctx.cfg.allowHitMeshBack;
    var o := ctx.objects[j];
    var cs := Candidates(ctx, e, d);
    var target: Object;
    if o.Plane? {
      PlanesOfMembers(ctx.objects);
      assert o in ctx.planes;
      target := o;
    } else {
      var en: Entry;
      EntriesCoverScene(ctx.objects);
      if o.Sphere? {
        en := Entry(o, SphereBox(o.position, o.radius));
      } else {
        assert o in ctx.objects;
        assert o.Mesh?;
        var tri := MeshHitTriangle(ab, ctx.nm, o, e, d, near, far);
        en := TriangleEntry(o.material, tri);
      }
      assert Intersect(ab, ctx.nm, en.obj, e, d, near, far) == Intersect(ab, ctx.nm, o, e, d, near, far);
      HitEntryIsCandidate(ctx, e, d, near, far, en);
      target := en.obj;
    }
    assert target in cs && Intersect(ab, ctx.nm, target, e, d, near, far) == Intersect(ab, ctx.nm, o, e, d, near, far);
    var i :| 0 <= i < |cs| && cs[i] == target;
  }

  /** Acceleration changes where hit() looks, not what it finds: over a scene as the parser
      builds it (spheres, planes and meshes), with a monotone box test that passes the box of
      every entry the ray hits, hit() in nearest mode returns the same distance with the BVH
      and with the exhaustive scan of every object. */
  lemma AccelerationKeepsNearest(ctx: RenderContext, e: Vec3, d: Vec3, near: real, far: real, pick: bool)
    requires WellFormed(ctx) && near > 0.0
    requires forall o :: o in ctx.objects ==> !o.MTriangle?
    requires Monotone(BoxTest(ctx, e, d)) && BoxTestSound(ctx, e, d, near, far)
    ensures SceneHit(Accelerated(ctx, true), e, d, near, far, None, pick).t ==
            SceneHit(Accelerated(ctx, false), e, d, near, far, None, pick).t
  {
    var on := Accelerated(ctx, true);
    var off := Accelerated(ctx, false);
    var ab := ctx.cfg.allowHitMeshBack;
    assert Monotone(BoxTest(on, e, d)) by {
      forall outer: Box, inner: Box | ContainsBox(outer, inner) && BoxTest(on, e, d)(inner)
        ensures BoxTest(on, e, d)(outer)
      {
        assert BoxTest(ctx, e, d)(inner);
      }
    }
    assert BoxTestSound(on, e, d, near, far);
    SceneHitIsNearest(on, e, d, near, far, pick);
    SceneHitIsNearest(off, e, d, near, far, pick);
    var a := SceneHit(on, e, d, near, far, None, pick);
    var b := SceneHit(off, e, d, near, far, None, pick);
    var cs := Candidates(on, e, d);
    assert Candidates(off, e, d) == ctx.objects;
    if a.t > 0.0 {
      var i :| 0 <= i < |cs| && a.nearest == Intersect(ab, ctx.nm, cs[i], e, d, near, far);
      AcceleratedHitCovered(on, e, d, near, far, cs[i]);
      var j :| && 0 <= j < |ctx.objects|
              && 0.0 < Intersect(ab, ctx.nm, ctx.objects[j], e, d, near, far).T()
              && Intersect(ab, ctx.nm, ctx.objects[j], e, d, near, far).T() <= Intersect(ab, ctx.nm, cs[i], e, d, near, far).t;
      assert b.t > 0.0 && b.t <= a.t;
    }
    if b.t > 0.0 {
      var j :| 0 <= j < |ctx.objects| && b.nearest == Intersect(ab, ctx.nm, ctx.objects[j], e, d, near, far);
      SceneHitCovered(on, e, d, near, far, j);
      var i :| 0 <= i < |cs| && Intersect(ab, ctx.nm, cs[i], e, d, near, far) == b.nearest;
      assert a.t > 0.0 && a.t <= b.t;
    }
  }

  // ---------------------------------------------------------------------------
  // Shadow mode

  /** The reference opacity: every candidate accepted under far adds 1 - transmissive to
      the sum, which is clamped to [0, 1] per channel after each addition. */
  function ShadowOpacity(allowBack: bool, nm: Numerics, cands: seq<Object>, e: Vec3, d: Vec3,
                         near: real, far: real, acc: Vec3): Vec3
    decreases |cands|
  {
    if cands == [] then acc
    else
      var r := Intersect(allowBack, nm, cands[0], e, d, near, far);
      ShadowOpacity(allowBack, nm, cands[1..], e, d, near, far,
                    if Accepts(r.T(), near, far) then Clamp01(Add(acc, Sub(One, cands[0].material.transmissive))) else acc)
  }

  /** With transparent shadows and pick off, the probe never ends early and never narrows
      far: it returns the full accumulated opacity. */
  lemma {:induction false} ScanShadowOpacity(cfg: Config, nm: Numerics, cands: seq<Object>, e: Vec3, d: Vec3,
                                             near: real, pick: bool, st: HitState)
    requires st.opacity.Some? && !pick && !cfg.disableShadowTransparency
    ensures Scan(cfg, nm, cands, e, d, near, pick, st).opacity ==
            Some(ShadowOpacity(cfg.allowHitMeshBack, nm, cands, e, d, near, st.far, st.opacity.value))
    decreases |cands|
  {
    if cands != [] {
      var s := Step(cfg, nm, cands[0], e, d, near, pick, st);
      assert s.Continue? && s.state.far == st.far && s.state.opacity.Some?;
      ScanShadowOpacity(cfg, nm, cands[1..], e, d, near, pick, s.state);
    }
  }

  lemma LessEqTransitive(a: Vec3, b: Vec3, c: Vec3)
    requires LessEq(a, b) && LessEq(b, c)
    ensures LessEq(a, c)
  {
  }

  /** The opacity sum stays in the unit cube; when no blocker is more than fully
      transmissive it never decreases; and once an opaque blocker is met it is full. */
  lemma {:induction false} ShadowOpacityBounds(allowBack: bool, nm: Numerics, cands: seq<Object>, e: Vec3, d: Vec3,
                                               near: real, far: real, acc: Vec3)
    requires InUnit(acc)
    ensures InUnit(ShadowOpacity(allowBack, nm, cands, e, d, near, far, acc))
    ensures (forall o :: o in cands ==> LessEq(o.material.transmissive, One)) ==>
      LessEq(acc, ShadowOpacity(allowBack, nm, cands, e, d, near, far, acc))
    ensures (forall o :: o in cands ==> LessEq(o.material.transmissive, One)) && acc == One ==>
      ShadowOpacity(allowBack, nm, cands, e, d, near, far, acc) == One
    decreases |cands|
  {
    if cands != [] {
      var r := Intersect(allowBack, nm, cands[0], e, d, near, far);
      var next := if Accepts(r.T(), near, far) then Clamp01(Add(acc, Sub(One, cands[0].material.transmissive))) else acc;
      ShadowOpacityBounds(allowBack, nm, cands[1..], e, d, near, far, next);
      if forall o :: o in cands ==> LessEq(o.material.transmissive, One) {
        assert cands[0] in cands;
        assert forall o :: o in cands[1..] ==> o in cands;
        assert LessEq(acc, next);
        LessEqTransitive(acc, next, ShadowOpacity(allowBack, nm, cands, e, d, near, far, acc));
      }
    }
  }

  /** A fully opaque accepted blocker (transmissive zero) makes the opacity full, and it
      stays full when no blocker is more than fully transmissive. */
  lemma {:induction false} OpaqueBlockerSaturates(allowBack: bool, nm: Numerics, cands: seq<Object>, e: Vec3, d: Vec3,
                                                  near: real, far: real, acc: Vec3, k: nat)
    requires InUnit(acc)
    requires forall o :: o in cands ==> LessEq(o.material.transmissive, One)
    requires k < |cands| && cands[k].material.transmissive == Zero
    requires Accepts(Intersect(allowBack, nm, cands[k], e, d, near, far).T(), near, far)
    ensures ShadowOpacity(allowBack, nm, cands, e, d, near, far, acc) == One
    decreases |cands|
  {
    var r := Intersect(allowBack, nm, cands[0], e, d, near, far);
    var next := if Accepts(r.T(), near, far) then Clamp01(Add(acc, Sub(One, cands[0].material.transmissive))) else acc;
    assert forall o :: o in cands[1..] ==> o in cands;
    if k == 0 {
      assert next == One;
      ShadowOpacityBounds(allowBack, nm, cands[1..], e, d, near, far, next);
    } else {
      assert cands[1..][k - 1] == cands[k];
      OpaqueBlockerSaturates(allowBack, nm, cands[1..], e, d, near, far, next, k - 1);
    }
  }

  /** With binary shadows the probe reports full opacity and returns 1 as soon as one
      candidate's hit is accepted; when none is, no hit is recorded, it returns -1 and the
      opacity sum is untouched. */
  lemma {:induction false} BinaryShadow(cfg: Config, nm: Numerics, cands: seq<Object>, e: Vec3, d: Vec3,
                                        near: real, pick: bool, st: HitState)
    requires 0.0 <= near
    requires st.opacity.Some? && cfg.disableShadowTransparency && st.nearest == Miss
    ensures var out := Scan(cfg, nm, cands, e, d, near, pick, st);
      var blocked := exists i :: (0 <= i < |cands| &&
        Accepts(Intersect(cfg.allowHitMeshBack, nm, cands[i], e, d, near, st.far).T(), near, st.far));
      && (blocked ==> out.t == 1.0 && out.opacity == Some(One) && out.obj.Some?)
      && (!blocked ==> out.t == MISS && out.opacity == st.opacity)
    decreases |cands|
  {
    if cands != [] {
      var r := Intersect(cfg.allowHitMeshBack, nm, cands[0], e, d, near, st.far);
      IntersectAccepted(cfg.allowHitMeshBack, nm, cands[0], e, d, near, st.far);
      if !Accepts(r.T(), near, st.far) {
        assert Step(cfg, nm, cands[0], e, d, near, pick, st) == Continue(st);
        BinaryShadow(cfg, nm, cands[1..], e, d, near, pick, st);
        var blocked := exists i :: (0 <= i < |cands| &&
          Accepts(Intersect(cfg.allowHitMeshBack, nm, cands[i], e, d, near, st.far).T(), near, st.far));
        if blocked {
          var i :| 0 <= i < |cands| &&
            Accepts(Intersect(cfg.allowHitMeshBack, nm, cands[i], e, d, near, st.far).T(), near, st.far);
          assert cands[1..][i - 1] == cands[i];
        }
      }
    }
  }
}
