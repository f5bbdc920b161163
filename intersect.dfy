/** Ray/primitive intersection (src/raytracer.cpp: ray_sphere, ray_plane,
    ray_triangle, ray_mesh).

    Every routine takes the ray origin e, direction d and the interval
    [near, far] and returns the hit distance, or -1 when there is none, with the
    hit point and normal through out-parameters. Here the result is an Isect:
    Miss, or Hit(t, point, normal); T() is the float the source returns. */
module Intersection {
  import opened Geometry
  import opened Schema

  /** The value a routine returns when nothing is hit. */
  const MISS: real := -1.0

  datatype Isect = Miss | Hit(t: real, at: Vec3, normal: Vec3) {
    function T(): real { if Miss? then MISS else t }
  }

  /** The shared acceptance test: t >= near and (far < near or t <= far); a far below near
      stands for an unbounded ray. */
  predicate Accepts(t: real, near: real, far: real) {
    t >= near && (far < near || t <= far)
  }

  lemma AcceptsMeaning(t: real, near: real, far: real)
    ensures far < near ==> (Accepts(t, near, far) <==> near <= t)
    ensures near <= far ==> (Accepts(t, near, far) <==> near <= t <= far)
  {
  }

  /** Lowering far to a bound far2 that is at least near accepts exactly the values accepted
      before that are at most far2. */
  lemma AcceptsTighter(t: real, near: real, far: real, far2: real)
    requires near <= far2 && (far < near || far2 <= far)
    ensures Accepts(t, near, far2) <==> Accepts(t, near, far) && t <= far2
  {
  }

  /** What a routine run with the tighter bound far2 returns, in terms of its result under far. */
  function Restrict(r: Isect, far2: real): Isect {
    if r.Hit? && r.t <= far2 then r else Miss
  }

  // ---------------------------------------------------------------------------
  // Sphere

  /** The root-choice rule of ray_sphere: take t2 in place of t iff (t2 < t and t2 >= near)
      or (t2 > t and t < near). The result is the smaller root that is at least near when
      there is one; when both roots are below near it is below near too. */
  function ChooseRoot(t: real, t2: real, near: real): (r: real)
    ensures r == t || r == t2
    ensures t >= near || t2 >= near ==>
      r >= near && (t >= near ==> r <= t) && (t2 >= near ==> r <= t2)
    ensures t < near && t2 < near ==> r < near
  {
    if (t2 < t && t2 >= near) || (t2 > t && t < near) then t2 else t
  }

  /** disc = (d . (e - c))^2 - (d . d)((e - c) . (e - c) - radius^2). */
  function Discriminant(position: Vec3, radius: real, e: Vec3, d: Vec3): real {
    var ec := Sub(e, position);
    Dot(d, ec) * Dot(d, ec) - Dot(d, d) * (Dot(ec, ec) - radius * radius)
  }

  /** The distance ray_sphere settles on before the interval test: the '+' root, replaced by
      the '-' root under the root-choice rule when the discriminant is positive. */
  function SphereT(nm: Numerics, position: Vec3, radius: real, e: Vec3, d: Vec3, near: real): real
    requires Dot(d, d) != 0.0
  {
    var ec := Sub(e, position);
    var disc := Discriminant(position, radius, e, d);
    var root := nm.sqrt(disc);
    var t := (Dot(Neg(d), ec) + root) / Dot(d, d);
    if disc > 0.0 then ChooseRoot(t, (Dot(Neg(d), ec) - root) / Dot(d, d), near) else t
  }

  /** ray_sphere. A zero direction makes the float code divide 0 by 0; the NaN fails every
      comparison, so that case is a miss too. */
  function RaySphere(nm: Numerics, position: Vec3, radius: real, e: Vec3, d: Vec3, near: real, far: real): (r: Isect)
    ensures r.Hit? ==> Accepts(r.t, near, far)
    ensures Discriminant(position, radius, e, d) < 0.0 ==> r == Miss
    ensures r.Hit? ==> Dot(d, d) != 0.0 && r.t == SphereT(nm, position, radius, e, d, near)
    ensures r.Hit? ==> r.at == Add(e, Scale(r.t, d)) && r.normal == nm.normalize(Sub(r.at, position))
    ensures Discriminant(position, radius, e, d) >= 0.0 && Dot(d, d) != 0.0 ==>
      Accepts(SphereT(nm, position, radius, e, d, near), near, far) ==> r.Hit?
  {
    if Discriminant(position, radius, e, d) < 0.0 || Dot(d, d) == 0.0 then Miss
    else
      var t := SphereT(nm, position, radius, e, d, near);
      if Accepts(t, near, far) then
        var hp := Add(e, Scale(t, d));
        Hit(t, hp, nm.normalize(Sub(hp, position)))
      else Miss
  }

  lemma DotAlongRay(a: Vec3, d: Vec3, t: real)
    ensures Dot(Add(a, Scale(t, d)), Add(a, Scale(t, d))) == Dot(a, a) + 2.0 * t * Dot(d, a) + t * t * Dot(d, d)
  {
  }

  /** A distance t with (d . d) t = -b +/- s, where s * s is the discriminant, puts e + t d on
      the sphere. */
  lemma RootOnSurface(position: Vec3, radius: real, e: Vec3, d: Vec3, t: real, s: real)
    requires Dot(d, d) != 0.0
    requires s * s == Discriminant(position, radius, e, d)
    requires Dot(d, d) * t == -Dot(d, Sub(e, position)) + s || Dot(d, d) * t == -Dot(d, Sub(e, position)) - s
    ensures var p := Sub(Add(e, Scale(t, d)), position); Dot(p, p) == radius * radius
  {
    var ec := Sub(e, position);
    ShiftAlongRay(e, position, t, d);
    DotAlongRay(ec, d, t);
    QuadraticRoot(Dot(d, d), Dot(d, ec), Dot(ec, ec), radius * radius, t, s,
                  Dot(Add(ec, Scale(t, d)), Add(ec, Scale(t, d))));
  }

  /** The root rule on plain numbers: a root t of a t^2 + 2 b t + (c0 - r2) makes
      c0 + 2 t b + t^2 a equal r2. */
  lemma QuadraticRoot(a: real, b: real, c0: real, r2: real, t: real, s: real, p: real)
    requires a != 0.0
    requires s * s == b * b - a * (c0 - r2)
    requires a * t == -b + s || a * t == -b - s
    requires p == c0 + 2.0 * t * b + t * t * a
    ensures p == r2
  {
    if a * t == -b + s {
      RootOfQuadratic(a, b, c0 - r2, t, s);
    } else {
      NegSquare(s);
      RootOfQuadratic(a, b, c0 - r2, t, -s);
    }
    Rearrange(p, c0, b, a, t, r2);
  }

  lemma NegSquare(s: real)
    ensures (-s) * (-s) == s * s
  {
  }

  lemma ShiftAlongRay(e: Vec3, position: Vec3, t: real, d: Vec3)
    ensures Sub(Add(e, Scale(t, d)), position) == Add(Sub(e, position), Scale(t, d))
  {
  }

  lemma Rearrange(p: real, c0: real, b: real, a: real, t: real, r2: real)
    requires p == c0 + 2.0 * t * b + t * t * a
    requires a * t * t + 2.0 * t * b + (c0 - r2) == 0.0
    ensures p == r2
  {
    assert t * t * a == a * t * t;
  }

  /** When sqrt is a true square root, a sphere hit lies on the sphere's surface. */
  lemma SphereHitOnSurface(nm: Numerics, position: Vec3, radius: real, e: Vec3, d: Vec3, near: real, far: real)
    requires var disc := Discriminant(position, radius, e, d);
      disc >= 0.0 ==> nm.sqrt(disc) * nm.sqrt(disc) == disc
    ensures var r := RaySphere(nm, position, radius, e, d, near, far);
      r.Hit? ==> Dot(Sub(r.at, position), Sub(r.at, position)) == radius * radius
  {
    var r := RaySphere(nm, position, radius, e, d, near, far);
    if r.Hit? {
      SphereTOnSurface(nm, position, radius, e, d, near);
    }
  }

  lemma SphereTOnSurface(nm: Numerics, position: Vec3, radius: real, e: Vec3, d: Vec3, near: real)
    requires Dot(d, d) != 0.0
    requires var disc := Discriminant(position, radius, e, d);
      disc >= 0.0 && nm.sqrt(disc) * nm.sqrt(disc) == disc
    ensures var p := Sub(Add(e, Scale(SphereT(nm, position, radius, e, d, near), d)), position);
      Dot(p, p) == radius * radius
  {
    SphereTIsRoot(nm, position, radius, e, d, near);
    RootOnSurface(position, radius, e, d, SphereT(nm, position, radius, e, d, near),
                  nm.sqrt(Discriminant(position, radius, e, d)));
  }

  /** The distance ray_sphere picks solves (d . d) t = -b +/- sqrt(disc), b = d . (e - c). */
  lemma SphereTIsRoot(nm: Numerics, position: Vec3, radius: real, e: Vec3, d: Vec3, near: real)
    requires Dot(d, d) != 0.0
    ensures var t := SphereT(nm, position, radius, e, d, near);
      var s := nm.sqrt(Discriminant(position, radius, e, d));
      Dot(d, d) * t == -Dot(d, Sub(e, position)) + s || Dot(d, d) * t == -Dot(d, Sub(e, position)) - s
  {
    var ec := Sub(e, position);
    var s := nm.sqrt(Discriminant(position, radius, e, d));
    var nb := Dot(Neg(d), ec);
    assert nb == -Dot(d, ec);
    TimesQuotient(Dot(d, d), nb + s);
    TimesQuotient(Dot(d, d), nb - s);
  }

  lemma TimesQuotient(a: real, x: real)
    requires a != 0.0
    ensures a * (x / a) == x
  {
  }

  lemma RootOfQuadratic(a: real, b: real, c: real, t: real, s: real)
    requires a != 0.0
    requires a * t == -b + s
    requires s * s == b * b - a * c
    ensures a * t * t + 2.0 * t * b + c == 0.0
  {
    assert a * (a * t * t + 2.0 * t * b + c) == (a * t) * (a * t) + 2.0 * b * (a * t) + a * c;
    assert (a * t) * (a * t) + 2.0 * b * (a * t) + a * c == (-b + s) * (-b + s) + 2.0 * b * (-b + s) + a * c;
    assert (-b + s) * (-b + s) + 2.0 * b * (-b + s) + a * c == s * s - b * b + a * c;
  }

  // ---------------------------------------------------------------------------
  // Plane

  /** ray_plane: the normal is normalised and returned as it is, never flipped to face
      the ray; a ray parallel to the plane misses. */
  function RayPlane(nm: Numerics, position: Vec3, normal: Vec3, e: Vec3, d: Vec3, near: real, far: real): (r: Isect)
    ensures r.Hit? ==> Accepts(r.t, near, far)
    ensures Dot(nm.normalize(normal), d) == 0.0 ==> r == Miss
    ensures r.Hit? ==> r.normal == nm.normalize(normal) && r.at == Add(e, Scale(r.t, d))
    ensures r.Hit? ==> r.t * Dot(nm.normalize(normal), d) == Dot(nm.normalize(normal), Sub(position, e))
    ensures var n := nm.normalize(normal);
      Dot(n, d) != 0.0 ==> Accepts(Dot(n, Sub(position, e)) / Dot(n, d), near, far) ==> r.Hit?
  {
    var n := nm.normalize(normal);
    var ndotd := Dot(n, d);
    if ndotd == 0.0 then Miss
    else
      var t := Dot(n, Sub(position, e)) / ndotd;
      if Accepts(t, near, far) then Hit(t, Add(e, Scale(t, d)), n) else Miss
  }

  // ---------------------------------------------------------------------------
  // Triangle

  /** The barycentric sign rule of ray_triangle: inside iff all three values are positive,
      or all three negative when back-face hits are allowed. */
  predicate InsideTriangle(allowBack: bool, bary: Vec3) {
    (bary.x > 0.0 && bary.y > 0.0 && bary.z > 0.0) ||
    (allowBack && bary.x < 0.0 && bary.y < 0.0 && bary.z < 0.0)
  }

  /** A point on an edge line (any value zero) is rejected; without the back-face policy only
      points with all three values positive are accepted; mixed signs are always rejected. */
  lemma InsideTriangleRule(allowBack: bool, bary: Vec3)
    ensures bary.x == 0.0 || bary.y == 0.0 || bary.z == 0.0 ==> !InsideTriangle(allowBack, bary)
    ensures !allowBack ==> (InsideTriangle(allowBack, bary) <==> bary.x > 0.0 && bary.y > 0.0 && bary.z > 0.0)
    ensures InsideTriangle(allowBack, bary) ==>
      (bary.x > 0.0 <==> bary.y > 0.0) && (bary.y > 0.0 <==> bary.z > 0.0)
  {
  }

  /** The plane normal ray_triangle uses: normalize(cross(c - b, a - b)). */
  function TriangleNormal(nm: Numerics, tri: Triangle): Vec3 {
    nm.normalize(Cross(Sub(tri.c, tri.b), Sub(tri.a, tri.b)))
  }

  function Barycentric(tri: Triangle, pt: Vec3, n: Vec3): Vec3 {
    Vec3(Dot(Cross(Sub(tri.b, tri.a), Sub(pt, tri.a)), n),
         Dot(Cross(Sub(tri.c, tri.b), Sub(pt, tri.b)), n),
         Dot(Cross(Sub(tri.a, tri.c), Sub(pt, tri.c)), n))
  }

  /** ray_triangle. */
  function RayTriangle(allowBack: bool, nm: Numerics, tri: Triangle, e: Vec3, d: Vec3, near: real, far: real): (r: Isect)
    ensures r.Hit? ==> Accepts(r.t, near, far)
    ensures r.Hit? ==> r.normal == TriangleNormal(nm, tri) && r.at == Add(e, Scale(r.t, d))
    ensures r.Hit? ==> InsideTriangle(allowBack, Barycentric(tri, r.at, r.normal))
    ensures Dot(TriangleNormal(nm, tri), d) == 0.0 ==> r == Miss
    ensures var n := TriangleNormal(nm, tri);
      Dot(n, d) != 0.0 ==>
        var t := Dot(n, Sub(tri.a, e)) / Dot(n, d);
        Accepts(t, near, far) && InsideTriangle(allowBack, Barycentric(tri, Add(e, Scale(t, d)), n)) ==> r.Hit?
  {
    var n := TriangleNormal(nm, tri);
    var ndotd := Dot(n, d);
    if ndotd == 0.0 then Miss
    else
      var t := Dot(n, Sub(tri.a, e)) / ndotd;
      if !Accepts(t, near, far) then Miss
      else
        var pt := Add(e, Scale(t, d));
        if InsideTriangle(allowBack, Barycentric(tri, pt, n)) then Hit(t, pt, n) else Miss
  }

  lemma SphereTighter(nm: Numerics, position: Vec3, radius: real, e: Vec3, d: Vec3, near: real, far: real, far2: real)
    requires near <= far2 && (far < near || far2 <= far)
    ensures RaySphere(nm, position, radius, e, d, near, far2) ==
            Restrict(RaySphere(nm, position, radius, e, d, near, far), far2)
  {
    if Discriminant(position, radius, e, d) >= 0.0 && Dot(d, d) != 0.0 {
      AcceptsTighter(SphereT(nm, position, radius, e, d, near), near, far, far2);
    }
  }

  lemma PlaneTighter(nm: Numerics, position: Vec3, normal: Vec3, e: Vec3, d: Vec3, near: real, far: real, far2: real)
    requires near <= far2 && (far < near || far2 <= far)
    ensures RayPlane(nm, position, normal, e, d, near, far2) ==
            Restrict(RayPlane(nm, position, normal, e, d, near, far), far2)
  {
    var n := nm.normalize(normal);
    if Dot(n, d) != 0.0 {
      AcceptsTighter(Dot(n, Sub(position, e)) / Dot(n, d), near, far, far2);
    }
  }

  lemma TriangleTighter(allowBack: bool, nm: Numerics, tri: Triangle, e: Vec3, d: Vec3, near: real, far: real, far2: real)
    requires near <= far2 && (far < near || far2 <= far)
    ensures RayTriangle(allowBack, nm, tri, e, d, near, far2) ==
            Restrict(RayTriangle(allowBack, nm, tri, e, d, near, far), far2)
  {
    var n := TriangleNormal(nm, tri);
    if Dot(n, d) != 0.0 {
      AcceptsTighter(Dot(n, Sub(tri.a, e)) / Dot(n, d), near, far, far2);
    }
  }

  // ---------------------------------------------------------------------------
  // Mesh

  /** The update test of ray_mesh: t >= near and (nothing yet or t below the best so far). */
  predicate MeshImproves(r: Isect, best: Isect, near: real) {
    r.T() >= near && (best.T() < 0.0 || r.T() < best.T())
  }

  /** The loop of ray_mesh from a given state: each triangle is tested against the current
      far, which drops to every new best. */
  function MeshScan(allowBack: bool, nm: Numerics, ts: seq<Triangle>, e: Vec3, d: Vec3,
                    near: real, far: real, best: Isect): Isect
    decreases |ts|
  {
    if ts == [] then best
    else
      var r := RayTriangle(allowBack, nm, ts[0], e, d, near, far);
      if MeshImproves(r, best, near) then MeshScan(allowBack, nm, ts[1..], e, d, near, r.T(), r)
      else MeshScan(allowBack, nm, ts[1..], e, d, near, far, best)
  }

  /** ray_mesh(mesh, e, d, near, far). */
  function MeshHit(allowBack: bool, nm: Numerics, ts: seq<Triangle>, e: Vec3, d: Vec3, near: real, far: real): Isect {
    MeshScan(allowBack, nm, ts, e, d, near, far, Miss)
  }

  /** The reference the loop is measured against: the same selection, with every triangle
      tested against the caller's far. */
  function MeshFixed(allowBack: bool, nm: Numerics, ts: seq<Triangle>, e: Vec3, d: Vec3,
                     near: real, far: real, best: Isect): Isect
    decreases |ts|
  {
    if ts == [] then best
    else
      var r := RayTriangle(allowBack, nm, ts[0], e, d, near, far);
      MeshFixed(allowBack, nm, ts[1..], e, d, near, far, if MeshImproves(r, best, near) then r else best)
  }

  /** Lowering far to the best distance found so far changes nothing: the loop returns what
      testing every triangle against the caller's far would. */
  lemma {:induction false} MeshScanIsFixed(allowBack: bool, nm: Numerics, ts: seq<Triangle>, e: Vec3, d: Vec3,
                                           near: real, far: real, farNow: real, best: Isect)
    requires 0.0 <= near
    requires best == Miss ==> farNow == far
    requires best.Hit? ==> farNow == best.t && Accepts(best.t, near, far)
    ensures MeshScan(allowBack, nm, ts, e, d, near, farNow, best) == MeshFixed(allowBack, nm, ts, e, d, near, far, best)
    decreases |ts|
  {
    if ts != [] {
      var r := RayTriangle(allowBack, nm, ts[0], e, d, near, far);
      var rNow := RayTriangle(allowBack, nm, ts[0], e, d, near, farNow);
      if best.Hit? {
        TriangleTighter(allowBack, nm, ts[0], e, d, near, far, farNow);
        assert MeshImproves(rNow, best, near) <==> MeshImproves(r, best, near);
      }
      var next := if MeshImproves(r, best, near) then r else best;
      MeshScanIsFixed(allowBack, nm, ts[1..], e, d, near, far, if MeshImproves(r, best, near) then r.T() else farNow, next);
    }
  }

  /** The reference selection under a tighter bound is the old result restricted to it. */
  lemma {:induction false} MeshFixedTighter(allowBack: bool, nm: Numerics, ts: seq<Triangle>, e: Vec3, d: Vec3,
                                            near: real, far: real, far2: real, best: Isect)
    requires 0.0 <= near <= far2 && (far < near || far2 <= far)
    requires best.Hit? ==> best.t >= near
    ensures Restrict(MeshFixed(allowBack, nm, ts, e, d, near, far, best), far2) ==
            MeshFixed(allowBack, nm, ts, e, d, near, far2, Restrict(best, far2))
    decreases |ts|
  {
    if ts != [] {
      var r := RayTriangle(allowBack, nm, ts[0], e, d, near, far);
      TriangleTighter(allowBack, nm, ts[0], e, d, near, far, far2);
      var next := if MeshImproves(r, best, near) then r else best;
      var r2 := Restrict(r, far2);
      var next2 := if MeshImproves(r2, Restrict(best, far2), near) then r2 else Restrict(best, far2);
      assert Restrict(next, far2) == next2;
      MeshFixedTighter(allowBack, nm, ts[1..], e, d, near, far, far2, next);
    }
  }

  /** The reference selection picks the nearest accepted hit: the result is the starting best
      or one of the triangles' hits, and no triangle hit and no starting best is nearer; it is
      a miss only when every triangle misses and there was no best. Ties keep the earlier. */
  lemma {:induction false} MeshFixedIsNearest(allowBack: bool, nm: Numerics, ts: seq<Triangle>, e: Vec3, d: Vec3,
                                              near: real, far: real, best: Isect)
    requires 0.0 <= near
    requires best.Hit? ==> Accepts(best.t, near, far)
    ensures var res := MeshFixed(allowBack, nm, ts, e, d, near, far, best);
      && (res == best || exists i :: 0 <= i < |ts| && res == RayTriangle(allowBack, nm, ts[i], e, d, near, far))
      && (res.Hit? ==> Accepts(res.t, near, far))
      && (best.Hit? ==> res.Hit? && res.t <= best.t)
      && (forall i :: 0 <= i < |ts| && RayTriangle(allowBack, nm, ts[i], e, d, near, far).Hit? ==>
            res.Hit? && res.t <= RayTriangle(allowBack, nm, ts[i], e, d, near, far).t)
    decreases |ts|
  {
    if ts != [] {
      var r := RayTriangle(allowBack, nm, ts[0], e, d, near, far);
      var next := if MeshImproves(r, best, near) then r else best;
      MeshFixedIsNearest(allowBack, nm, ts[1..], e, d, near, far, next);
      var res := MeshFixed(allowBack, nm, ts, e, d, near, far, best);
      if res != best && res != r {
        var i :| 0 <= i < |ts[1..]| && res == RayTriangle(allowBack, nm, ts[1..][i], e, d, near, far);
        assert res == RayTriangle(allowBack, nm, ts[i + 1], e, d, near, far);
      }
      if res == r && res != best {
        assert res == RayTriangle(allowBack, nm, ts[0], e, d, near, far);
      }
      forall i | 0 <= i < |ts| && RayTriangle(allowBack, nm, ts[i], e, d, near, far).Hit?
        ensures res.Hit? && res.t <= RayTriangle(allowBack, nm, ts[i], e, d, near, far).t
      {
        if i > 0 {
          assert ts[i] == ts[1..][i - 1];
        }
      }
    }
  }

  /** ray_mesh returns the nearest accepted triangle hit (the first of equally near ones), or
      -1 when no triangle is hit. */
  lemma MeshHitIsNearest(allowBack: bool, nm: Numerics, ts: seq<Triangle>, e: Vec3, d: Vec3, near: real, far: real)
    requires 0.0 <= near
    ensures var res := MeshHit(allowBack, nm, ts, e, d, near, far);
      && (res.Hit? ==>
            Accepts(res.t, near, far) && exists i :: 0 <= i < |ts| && res == RayTriangle(allowBack, nm, ts[i], e, d, near, far))
      && (forall i :: 0 <= i < |ts| && RayTriangle(allowBack, nm, ts[i], e, d, near, far).Hit? ==>
            res.Hit? && res.t <= RayTriangle(allowBack, nm, ts[i], e, d, near, far).t)
      && (res == Miss <==> forall i :: 0 <= i < |ts| ==> RayTriangle(allowBack, nm, ts[i], e, d, near, far) == Miss)
  {
    MeshScanIsFixed(allowBack, nm, ts, e, d, near, far, far, Miss);
    MeshFixedIsNearest(allowBack, nm, ts, e, d, near, far, Miss);
  }

  /** ray_mesh under a tighter far returns its old result restricted to that bound. */
  lemma MeshTighter(allowBack: bool, nm: Numerics, ts: seq<Triangle>, e: Vec3, d: Vec3, near: real, far: real, far2: real)
    requires 0.0 <= near <= far2 && (far < near || far2 <= far)
    ensures MeshHit(allowBack, nm, ts, e, d, near, far2) == Restrict(MeshHit(allowBack, nm, ts, e, d, near, far), far2)
  {
    MeshScanIsFixed(allowBack, nm, ts, e, d, near, far, far, Miss);
    MeshScanIsFixed(allowBack, nm, ts, e, d, near, far2, far2, Miss);
    MeshFixedTighter(allowBack, nm, ts, e, d, near, far, far2, Miss);
  }

  /** The loop of ray_mesh. */
  method RayMesh(allowBack: bool, nm: Numerics, ts: seq<Triangle>, e: Vec3, d: Vec3, near: real, far: real)
    returns (nearest: Isect)
    ensures nearest == MeshHit(allowBack, nm, ts, e, d, near, far)
  {
    nearest := Miss;
    var bound := far;
    for i := 0 to |ts|
      invariant MeshScan(allowBack, nm, ts[i..], e, d, near, bound, nearest) == MeshHit(allowBack, nm, ts, e, d, near, far)
    {
      assert ts[i..][1..] == ts[i + 1..];
      var t := RayTriangle(allowBack, nm, ts[i], e, d, near, bound);
      if t.T() >= near && (nearest.T() < 0.0 || t.T() < nearest.T()) {
        nearest := t;
        bound := t.T();
      }
    }
  }

  // ---------------------------------------------------------------------------
  // Dispatch on the object kind, as hit() does

  function Intersect(allowBack: bool, nm: Numerics, o: Object, e: Vec3, d: Vec3, near: real, far: real): Isect {
    match o
    case Sphere(_, radius, position) => RaySphere(nm, position, radius, e, d, near, far)
    case MTriangle(_, tri, _) => RayTriangle(allowBack, nm, tri, e, d, near, far)
    case Plane(_, position, normal) => RayPlane(nm, position, normal, e, d, near, far)
    case Mesh(_, ts) => MeshHit(allowBack, nm, ts, e, d, near, far)
  }

  /** Every routine's hit passes the interval test. */
  lemma IntersectAccepted(allowBack: bool, nm: Numerics, o: Object, e: Vec3, d: Vec3, near: real, far: real)
    requires 0.0 <= near
    ensures Intersect(allowBack, nm, o, e, d, near, far).Hit? ==> Accepts(Intersect(allowBack, nm, o, e, d, near, far).t, near, far)
  {
    if o.Mesh? {
      MeshHitIsNearest(allowBack, nm, o.triangles, e, d, near, far);
    }
  }

  /** Every routine run with a tighter far returns its old result restricted to that bound. */
  lemma IntersectTighter(allowBack: bool, nm: Numerics, o: Object, e: Vec3, d: Vec3, near: real, far: real, far2: real)
    requires 0.0 <= near <= far2 && (far < near || far2 <= far)
    ensures Intersect(allowBack, nm, o, e, d, near, far2) == Restrict(Intersect(allowBack, nm, o, e, d, near, far), far2)
  {
    match o
    case Sphere(_, radius, position) => SphereTighter(nm, position, radius, e, d, near, far, far2);
    case MTriangle(_, tri, _) => TriangleTighter(allowBack, nm, tri, e, d, near, far, far2);
    case Plane(_, position, normal) => PlaneTighter(nm, position, normal, e, d, near, far, far2);
    case Mesh(_, ts) => MeshTighter(allowBack, nm, ts, e, d, near, far, far2);
  }

  /** The dispatch of hit(): ray_mesh runs its loop, the other kinds are single tests. */
  method IntersectObject(allowBack: bool, nm: Numerics, o: Object, e: Vec3, d: Vec3, near: real, far: real)
    returns (r: Isect)
    ensures r == Intersect(allowBack, nm, o, e, d, near, far)
  {
    match o
    case Sphere(_, radius, position) => r := RaySphere(nm, position, radius, e, d, near, far);
    case MTriangle(_, tri, _) => r := RayTriangle(allowBack, nm, tri, e, d, near, far);
    case Plane(_, position, normal) => r := RayPlane(nm, position, normal, e, d, near, far);
    case Mesh(_, ts) => r := RayMesh(allowBack, nm, ts, e, d, near, far);
  }
}
