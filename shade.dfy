/** Shading (src/raytracer.cpp: refract, schlickRefract, reflect, transmit, light,
    trace, ssTrace).

    light() computes the local colour of a hit from every scene light, adding
    reflected and transmitted colour while the recursion depth is below
    MAX_R_DEPTH; reflect() and transmit() trace a secondary ray and call light()
    one level deeper. Each is a function here, and a method with the source's
    statements is proved equal to it. */
module Shade {
  import opened Geometry
  import opened Settings
  import opened Schema
  import opened Intersection
  import opened Resolve

  // ---------------------------------------------------------------------------
  // Refraction

  datatype Refraction = Refraction(ok: bool, dir: Vec3)

  /** The radicand of refract() for cosine c (already turned to face the incoming side)
      and the indices on the two sides. */
  function Radicand(etaI: real, etaR: real, c: real): real
    requires etaR != 0.0
  {
    1.0 - (etaI * etaI) * (1.0 - c * c) / (etaR * etaR)
  }

  /** refract(r, snorm, index): entering (vi . n < 0) uses indices 1 and index, leaving swaps
      them and turns the normal round. A negative radicand is total internal reflection:
      the result is false and the direction is the mirror image. */
  function Refract(nm: Numerics, r: Vec3, snorm: Vec3, index: real): (res: Refraction)
    requires index != 0.0
    ensures var c := Dot(nm.normalize(r), snorm);
      res.ok <==> (if c < 0.0 then Radicand(1.0, index, c) else Radicand(index, 1.0, -c)) >= 0.0
  {
    var vi := nm.normalize(r);
    var c := Dot(vi, snorm);
    var entering := c < 0.0;
    var etaI := if entering then 1.0 else index;
    var etaR := if entering then index else 1.0;
    var n := if entering then snorm else Neg(snorm);
    var cos := if entering then c else -c;
    var radicand := Radicand(etaI, etaR, cos);
    if radicand >= 0.0 then
      Refraction(true, Sub(Scale(etaI / etaR, Sub(vi, Scale(cos, n))), Scale(nm.sqrt(radicand), n)))
    else
      Refraction(false, Sub(Scale(2.0 * Dot(n, Neg(vi)), n), Neg(vi)))
  }

  lemma SquareInUnit(c: real)
    requires -1.0 <= c <= 1.0
    ensures 0.0 <= c * c <= 1.0
  {
    if c >= 0.0 {
      assert c * c <= c * 1.0;
    } else {
      assert c * c <= (-c) * 1.0;
    }
  }

  lemma FractionAtMostOne(x: real, k: real)
    requires 0.0 <= x <= 1.0 && k >= 1.0
    ensures x / k <= 1.0
  {
  }

  /** Entering a medium at least as dense as air, or leaving one at most as dense, never
      reflects totally (for a unit incoming direction). */
  lemma RefractNoTotalReflection(nm: Numerics, r: Vec3, snorm: Vec3, index: real)
    requires index > 0.0
    requires -1.0 <= Dot(nm.normalize(r), snorm) <= 1.0
    ensures Dot(nm.normalize(r), snorm) < 0.0 && index >= 1.0 ==> Refract(nm, r, snorm, index).ok
    ensures Dot(nm.normalize(r), snorm) >= 0.0 && index <= 1.0 ==> Refract(nm, r, snorm, index).ok
  {
    var c := Dot(nm.normalize(r), snorm);
    SquareInUnit(c);
    if c < 0.0 && index >= 1.0 {
      assert index * index >= 1.0;
      FractionAtMostOne(1.0 - c * c, index * index);
    }
    if c >= 0.0 && index <= 1.0 {
      assert index * index <= 1.0;
      assert (index * index) * (1.0 - c * c) <= 1.0 - c * c;
    }
  }

  /** Leaving a denser medium along the surface (vi . n = 0) is total internal reflection,
      and the reflected direction keeps its angle to the (turned) normal. */
  lemma RefractGrazingExitReflects(nm: Numerics, r: Vec3, snorm: Vec3, index: real)
    requires index > 1.0 && Dot(nm.normalize(r), snorm) == 0.0
    requires Dot(snorm, snorm) == 1.0
    ensures !Refract(nm, r, snorm, index).ok
    ensures Dot(Refract(nm, r, snorm, index).dir, Neg(snorm)) == Dot(Neg(nm.normalize(r)), Neg(snorm))
  {
    var vi := nm.normalize(r);
    var n := Neg(snorm);
    assert Dot(n, n) == 1.0;
    assert Radicand(index, 1.0, 0.0) == 1.0 - index * index;
    var w := Neg(vi);
    var k := 2.0 * Dot(n, w);
    assert Dot(Sub(Scale(k, n), w), n) == k * Dot(n, n) - Dot(w, n);
  }

  /** The part of v along a unit n removed: what is left is perpendicular to n. */
  lemma TangentPart(v: Vec3, n: Vec3)
    requires Dot(n, n) == 1.0
    ensures Dot(Sub(v, Scale(Dot(v, n), n)), n) == 0.0
  {
    var k := Dot(v, n);
    assert Dot(Sub(v, Scale(k, n)), n) == Dot(v, n) - k * Dot(n, n);
  }

  /** k w - s n, for w perpendicular to a unit n: its component along n is -s and the rest
      is k w. */
  lemma RefractedSplit(w: Vec3, n: Vec3, k: real, s: real)
    requires Dot(n, n) == 1.0 && Dot(w, n) == 0.0
    ensures Dot(Sub(Scale(k, w), Scale(s, n)), n) == -s
    ensures Sub(Sub(Scale(k, w), Scale(s, n)), Scale(-s, n)) == Scale(k, w)
  {
    var v := Sub(Scale(k, w), Scale(s, n));
    assert Dot(v, n) == k * Dot(w, n) - s * Dot(n, n);
  }

  /** 2 (n . w) n - w, the mirror image of w in a unit n, makes the same angle with n. */
  lemma MirrorSameAngle(w: Vec3, n: Vec3)
    requires Dot(n, n) == 1.0
    ensures Dot(Sub(Scale(2.0 * Dot(n, w), n), w), n) == Dot(w, n)
  {
    var k := 2.0 * Dot(n, w);
    assert Dot(Sub(Scale(k, n), w), n) == k * Dot(n, n) - Dot(w, n);
  }

  /** What refract() does to the direction, for a unit normal and n turned toward the
      incoming side. On total internal reflection the result makes the same angle with n as
      the reversed ray. Otherwise it goes through the surface: its component along n is
      -sqrt(radicand), and its part across n is the incoming part across n scaled by
      etaI / etaR (Snell's law). */
  lemma RefractDirection(nm: Numerics, r: Vec3, snorm: Vec3, index: real)
    requires index != 0.0 && Dot(snorm, snorm) == 1.0
    ensures var vi := nm.normalize(r);
      var entering := Dot(vi, snorm) < 0.0;
      var n := if entering then snorm else Neg(snorm);
      var etaI := if entering then 1.0 else index;
      var etaR := if entering then index else 1.0;
      var res := Refract(nm, r, snorm, index);
      && (!res.ok ==> Dot(res.dir, n) == Dot(Neg(vi), n))
      && (res.ok ==> Dot(res.dir, n) == -nm.sqrt(Radicand(etaI, etaR, Dot(vi, n))))
      && (res.ok ==> Sub(res.dir, Scale(Dot(res.dir, n), n)) == Scale(etaI / etaR, Sub(vi, Scale(Dot(vi, n), n))))
  {
    var vi := nm.normalize(r);
    var c := Dot(vi, snorm);
    var entering := c < 0.0;
    var n := if entering then snorm else Neg(snorm);
    var etaI := if entering then 1.0 else index;
    var etaR := if entering then index else 1.0;
    assert Dot(n, n) == 1.0;
    var cos := if entering then c else -c;
    assert cos == Dot(vi, n);
    var res := Refract(nm, r, snorm, index);
    if res.ok {
      TangentPart(vi, n);
      RefractedSplit(Sub(vi, Scale(cos, n)), n, etaI / etaR, nm.sqrt(Radicand(etaI, etaR, cos)));
    } else {
      MirrorSameAngle(Neg(vi), n);
    }
  }

  /** std::pow(x, 5): an integer power, written out. */
  function Pow5(x: real): real { x * x * x * x * x }

  lemma Pow5AboveOne(x: real)
    requires x > 1.0
    ensures Pow5(x) > 1.0
  {
    assert x * x > 1.0;
    assert x * x * x > 1.0;
    assert x * x * x * x > 1.0;
  }

  /** Schlick's reflectance for ratio eta: r0 + (1 - r0)(1 - cos)^5, r0 = ((1 - eta)/(1 + eta))^2. */
  function Reflectance(ratio: real, cosTheta: real): real
    requires ratio > 0.0
  {
    R0(ratio) + (1.0 - R0(ratio)) * Pow5(1.0 - cosTheta)
  }

  /** The reflectance at normal incidence. */
  function R0(ratio: real): real
    requires ratio > 0.0
  {
    var q := (1.0 - ratio) / (1.0 + ratio);
    q * q
  }

  /** The refraction test of schlickRefract for a given cosine: refract iff the ray can
      refract (ratio * sin <= 1) and the reflectance does not exceed the random draw u. */
  function SchlickRefracts(nm: Numerics, ratio: real, cosTheta: real, u: real): bool
    requires ratio > 0.0
  {
    var cannotRefract := !CanRefract(nm, ratio, cosTheta);
    !(cannotRefract || Reflectance(ratio, cosTheta) > u)
  }

  /** Snell's bound: ratio * sinTheta <= 1, with sinTheta = sqrt(1 - cosTheta^2). */
  predicate CanRefract(nm: Numerics, ratio: real, cosTheta: real) {
    var sinTheta := nm.sqrt(1.0 - cosTheta * cosTheta);
    ratio * sinTheta <= 1.0
  }

  /** schlickRefract as written: cosTheta = min(dot(-unitDirection, snorm), 1) with
      unitDirection = -r, that is min(r . snorm, 1). */
  function SchlickRefractAsWritten(nm: Numerics, r: Vec3, snorm: Vec3, index: real, u: real, refracted: Vec3): (res: Refraction)
    requires index > 0.0
    ensures !res.ok ==> res.dir == refracted
    ensures res.ok ==> res.dir == Refract(nm, r, snorm, 1.0 / index).dir
  {
    var ratio := 1.0 / index;
    if SchlickRefracts(nm, ratio, Min(Dot(r, snorm), 1.0), u) then Refraction(true, Refract(nm, r, snorm, ratio).dir)
    else Refraction(false, refracted)
  }

  /** schlickRefract with the cosine of the angle between the ray and the normal turned
      toward it, min(|r . snorm|, 1), as Schlick's approximation needs on either side of the
      surface. When it declines, the direction is left as it was. */
  function SchlickRefract(nm: Numerics, r: Vec3, snorm: Vec3, index: real, u: real, refracted: Vec3): (res: Refraction)
    requires index > 0.0
    ensures !res.ok ==> res.dir == refracted
    ensures res.ok ==> res.dir == Refract(nm, r, snorm, 1.0 / index).dir
  {
    var ratio := 1.0 / index;
    if SchlickRefracts(nm, ratio, Min(Abs(Dot(r, snorm)), 1.0), u) then Refraction(true, Refract(nm, r, snorm, ratio).dir)
    else Refraction(false, refracted)
  }

  /** A weight r0 in [0, 1) mixing 1 with a value above 1 gives more than 1. */
  lemma AboveOneStaysAbove(r0: real, p: real)
    requires 0.0 <= r0 < 1.0 && p > 1.0
    ensures r0 + (1.0 - r0) * p > 1.0
  {
    var a := 1.0 - r0;
    var b := p - 1.0;
    PositiveProduct(a, b);
    assert a * p == a * b + a;
    assert r0 + a * p == 1.0 + a * b;
  }

  lemma PositiveProduct(a: real, b: real)
    requires a > 0.0 && b > 0.0
    ensures a * b > 0.0
  {
  }

  lemma R0BelowOne(ratio: real)
    requires ratio > 0.0
    ensures 0.0 <= R0(ratio) < 1.0
  {
    var q := (1.0 - ratio) / (1.0 + ratio);
    assert q * (1.0 + ratio) == 1.0 - ratio;
    assert -1.0 < q < 1.0;
    if q >= 0.0 {
      assert q * q <= q;
    } else {
      assert q * q <= -q;
    }
  }

  /** As written, a ray entering the surface (r . snorm < 0) is never refracted: 1 - cos
      exceeds 1, so the reflectance exceeds 1 and every draw in [0, 1) loses. */
  lemma SchlickAsWrittenNeverRefractsEntering(nm: Numerics, r: Vec3, snorm: Vec3, index: real, u: real, refracted: Vec3)
    requires index > 0.0 && u < 1.0
    requires Dot(r, snorm) < 0.0
    ensures SchlickRefractAsWritten(nm, r, snorm, index, u, refracted) == Refraction(false, refracted)
  {
    var ratio := 1.0 / index;
    var cosTheta := Min(Dot(r, snorm), 1.0);
    Pow5AboveOne(1.0 - cosTheta);
    R0BelowOne(ratio);
    AboveOneStaysAbove(R0(ratio), Pow5(1.0 - cosTheta));
    assert Reflectance(ratio, cosTheta) > u;
    assert !SchlickRefracts(nm, ratio, cosTheta, u);
  }

  /** The ray hitting head-on from outside: glass (index 1.5) and a draw of 0.5. */
  lemma SchlickAsWrittenHeadOnExample(nm: Numerics, snorm: Vec3)
    requires Dot(snorm, snorm) == 1.0
    ensures !SchlickRefractAsWritten(nm, Neg(snorm), snorm, 1.5, 0.5, Neg(snorm)).ok
  {
    SchlickAsWrittenNeverRefractsEntering(nm, Neg(snorm), snorm, 1.5, 0.5, Neg(snorm));
  }

  /** With the corrected cosine, a ray hitting the surface head-on from outside is refracted
      whenever the draw is at least r0 (sqrt(0) taken to be 0). */
  lemma SchlickHeadOnRefracts(nm: Numerics, r: Vec3, snorm: Vec3, index: real, u: real, refracted: Vec3)
    requires index > 0.0 && nm.sqrt(0.0) == 0.0
    requires Dot(r, snorm) == -1.0
    requires u >= R0(1.0 / index)
    ensures SchlickRefract(nm, r, snorm, index, u, refracted).ok
  {
    SchlickRefractRule(nm, r, snorm, index, u, refracted);
    assert Abs(Dot(r, snorm)) == 1.0;
    assert Pow5(0.0) == 0.0;
  }

  /** The same for a ray leaving head-on from inside. */
  lemma SchlickHeadOnExitRefracts(nm: Numerics, r: Vec3, snorm: Vec3, index: real, u: real, refracted: Vec3)
    requires index > 0.0 && nm.sqrt(0.0) == 0.0
    requires Dot(r, snorm) == 1.0
    requires u >= R0(1.0 / index)
    ensures SchlickRefract(nm, r, snorm, index, u, refracted).ok
  {
    SchlickRefractRule(nm, r, snorm, index, u, refracted);
    assert Abs(Dot(r, snorm)) == 1.0;
    assert Pow5(0.0) == 0.0;
  }

  /** The corrected test on both sides of the surface: with c = min(|r . snorm|, 1), the ray
      is refracted exactly when ratio * sqrt(1 - c^2) <= 1 and the reflectance at c does not
      exceed the draw; the side the ray comes from does not matter. */
  lemma SchlickRefractRule(nm: Numerics, r: Vec3, snorm: Vec3, index: real, u: real, refracted: Vec3)
    requires index > 0.0
    ensures var c := Min(Abs(Dot(r, snorm)), 1.0);
      SchlickRefract(nm, r, snorm, index, u, refracted).ok <==>
        CanRefract(nm, 1.0 / index, c) && u >= Reflectance(1.0 / index, c)
    ensures SchlickRefract(nm, Neg(r), snorm, index, u, refracted).ok == SchlickRefract(nm, r, snorm, index, u, refracted).ok
  {
    var c := Min(Abs(Dot(r, snorm)), 1.0);
    var ratio := 1.0 / index;
    assert SchlickRefract(nm, r, snorm, index, u, refracted).ok == SchlickRefracts(nm, ratio, c, u);
    assert Dot(Neg(r), snorm) == -Dot(r, snorm);
    assert Abs(Dot(Neg(r), snorm)) == Abs(Dot(r, snorm));
  }

  // ---------------------------------------------------------------------------
  // One light

  /** Where a light reaches a point from: the unit direction l towards it and the shadow
      ray's far (0, unbounded, for a directional light). */
  datatype Incidence = Incidence(l: Vec3, tfar: real)

  /** The direction and distance of a non-ambient light; None for a spot light whose cone
      (acos(l . -dir) <= PI * cutoff / 180) does not hold the point. */
  function LightIncidence(nm: Numerics, light: Light, at: Vec3): (r: Option<Incidence>)
    requires !light.AmbientLight?
    ensures light.DirectionalLight? ==> r == Some(Incidence(Neg(nm.normalize(light.direction)), 0.0))
    ensures light.PointLight? ==> r.Some? && r.value.tfar == Length(nm, Sub(light.position, at))
    ensures light.SpotLight? && r.Some? ==> r.value.tfar == Length(nm, Sub(light.position, at))
  {
    match light
    case DirectionalLight(_, dir) => Some(Incidence(Neg(nm.normalize(dir)), 0.0))
    case PointLight(_, p) => Some(Incidence(nm.normalize(Sub(p, at)), Length(nm, Sub(p, at))))
    case SpotLight(_, p, dir, cutoff) =>
      var l := nm.normalize(Sub(p, at));
      if nm.acos(Dot(l, Neg(nm.normalize(dir)))) <= PI * cutoff / 180.0 then Some(Incidence(l, Length(nm, Sub(p, at))))
      else None
  }

  /** The normal light() shades with: mesh triangles, when back faces are allowed, are lit
      from behind as well, so a normal facing away from the light is turned round. */
  function FacingNormal(cfg: Config, obj: Object, snorm: Vec3, l: Vec3): (n: Vec3)
    ensures n == snorm || n == Neg(snorm)
    ensures Dot(snorm, l) >= 0.0 || !cfg.allowHitMeshBack || !(obj.Mesh? || obj.MTriangle?) ==> n == snorm
    ensures n != snorm ==> Dot(snorm, l) < 0.0
  {
    if Dot(snorm, l) < 0.0 && cfg.allowHitMeshBack && (obj.Mesh? || obj.MTriangle?) then Neg(snorm) else snorm
  }

  /** The diffuse and specular parts of one light on normal n, each clamped to [0, 1]. */
  function Lit(cfg: Config, nm: Numerics, obj: Object, e: Vec3, at: Vec3, n: Vec3, c: Vec3, l: Vec3): (r: Vec3)
    ensures LessEq(Zero, r) && LessEq(r, Scale(2.0, One))
  {
    var mat := obj.material;
    var v := nm.normalize(Sub(e, at));
    var dot := Dot(n, l);
    var diffuse := if !cfg.disableDiffuse then Clamp01(Scale(dot, Mul(c, mat.diffuse))) else Zero;
    var rdotv := Dot(Sub(Scale(2.0 * dot, n), l), v);
    var specular := if rdotv > 0.0 && !cfg.disableSpecular
      then Clamp01(Scale(nm.pow(rdotv, mat.shininess), Mul(c, mat.specular))) else Zero;
    SumOfUnits(diffuse, specular);
    Add(diffuse, specular)
  }

  lemma SumOfUnits(a: Vec3, b: Vec3)
    requires InUnit(a) && InUnit(b)
    ensures LessEq(Zero, Add(a, b)) && LessEq(Add(a, b), Scale(2.0, One))
  {
  }

  /** Under transparent shadows a light is dimmed by the opacity in front of it. */
  function Attenuate(cfg: Config, lit: Vec3, opacity: Vec3): (r: Vec3)
    ensures cfg.disableShadowTransparency ==> r == lit
    ensures !cfg.disableShadowTransparency && opacity == One ==> r == Zero
    ensures !cfg.disableShadowTransparency && opacity == Zero ==> r == lit
  {
    if !cfg.disableShadowTransparency then Mul(lit, Sub(One, opacity)) else lit
  }

  /** One light that is not blocked: a surface facing away adds nothing; otherwise the lit
      colour, attenuated, is added and the running colour clamped. */
  function Phong(cfg: Config, nm: Numerics, obj: Object, e: Vec3, at: Vec3, snorm: Vec3,
                 c: Vec3, l: Vec3, opacity: Vec3, direct: Vec3): (r: Vec3)
    ensures r == direct || InUnit(r)
  {
    var n := FacingNormal(cfg, obj, snorm, l);
    if Dot(n, l) > 0.0 then Clamp01(Add(direct, Attenuate(cfg, Lit(cfg, nm, obj, e, at, n, c, l), opacity)))
    else direct
  }

  /** The shadow probe for one light: hit() from the point towards the light, bounded by
      the light's distance, starting from zero opacity; with shadows off, t = -1 and zero
      opacity. */
  function ShadowProbe(ctx: RenderContext, at: Vec3, inc: Incidence, pick: bool): (out: HitOutcome)
    ensures out.opacity.Some?
  {
    if !ctx.cfg.disableShadow then SceneHit(ctx, at, inc.l, SELF_HIT, inc.tfar, Some(Zero), pick)
    else HitOutcome(MISS, Miss, None, Some(Zero))
  }

  /** One pass of light()'s loop. An ambient light adds color * ambient with no clamp; any
      other light adds nothing when out of reach or (under binary shadows) blocked, and
      otherwise adds its Phong part. */
  function LightStep(ctx: RenderContext, obj: Object, e: Vec3, at: Vec3, snorm: Vec3, light: Light, pick: bool, direct: Vec3): (r: Vec3)
    ensures !light.AmbientLight? ==> r == direct || InUnit(r)
  {
    if light.AmbientLight? then
      if !ctx.cfg.disableAmbient then Add(direct, Mul(light.color, obj.material.ambient)) else direct
    else
      match LightIncidence(ctx.nm, light, at)
      case None => direct
      case Some(inc) =>
        var shadow := ShadowProbe(ctx, at, inc, pick);
        if shadow.t > SELF_HIT && ctx.cfg.disableShadowTransparency then direct
        else Phong(ctx.cfg, ctx.nm, obj, e, at, snorm, light.color, inc.l, shadow.opacity.value, direct)
  }

  /** The direct colour: every light in scene order, starting from `direct`. */
  function DirectColour(ctx: RenderContext, obj: Object, e: Vec3, at: Vec3, snorm: Vec3,
                        lights: seq<Light>, pick: bool, direct: Vec3): Vec3
    decreases |lights|
  {
    if lights == [] then direct
    else DirectColour(ctx, obj, e, at, snorm, lights[1..], pick, LightStep(ctx, obj, e, at, snorm, lights[0], pick, direct))
  }

  /** Without ambient lights, a direct colour that starts in [0, 1] stays there. */
  lemma {:induction false} DirectColourInUnit(ctx: RenderContext, obj: Object, e: Vec3, at: Vec3, snorm: Vec3,
                                              lights: seq<Light>, pick: bool, direct: Vec3)
    requires InUnit(direct)
    requires forall l :: l in lights ==> !l.AmbientLight?
    ensures InUnit(DirectColour(ctx, obj, e, at, snorm, lights, pick, direct))
    decreases |lights|
  {
    if lights != [] {
      assert lights[0] in lights;
      assert forall l :: l in lights[1..] ==> l in lights;
      DirectColourInUnit(ctx, obj, e, at, snorm, lights[1..], pick, LightStep(ctx, obj, e, at, snorm, lights[0], pick, direct));
    }
  }

  /** Ambient light is added without clamping: two white ambient lights in a row on a
      material with white ambient give 2 in every channel; only light()'s final clamp
      brings it back to [0, 1]. */
  lemma AmbientIsNotClamped(ctx: RenderContext, obj: Object, e: Vec3, at: Vec3, snorm: Vec3, pick: bool)
    requires !ctx.cfg.disableAmbient && obj.material.ambient == One
    ensures var white := AmbientLight(One);
      LightStep(ctx, obj, e, at, snorm, white, pick, LightStep(ctx, obj, e, at, snorm, white, pick, Zero)) == Vec3(2.0, 2.0, 2.0)
  {
    AmbientStep(ctx, obj, e, at, snorm, AmbientLight(One), pick, Zero);
    AmbientStep(ctx, obj, e, at, snorm, AmbientLight(One), pick, One);
  }

  /** An ambient light adds its colour times the material's ambient colour, unclamped. */
  lemma AmbientStep(ctx: RenderContext, obj: Object, e: Vec3, at: Vec3, snorm: Vec3, light: Light, pick: bool, direct: Vec3)
    requires light.AmbientLight? && !ctx.cfg.disableAmbient
    ensures LightStep(ctx, obj, e, at, snorm, light, pick, direct) == Add(direct, Mul(light.color, obj.material.ambient))
  {
  }

  /** Under binary shadows a light whose shadow probe is blocked adds nothing. */
  lemma BlockedLightAddsNothing(ctx: RenderContext, obj: Object, e: Vec3, at: Vec3, snorm: Vec3, light: Light,
                                pick: bool, direct: Vec3, i: nat)
    requires !light.AmbientLight? && LightIncidence(ctx.nm, light, at).Some?
    requires !ctx.cfg.disableShadow && ctx.cfg.disableShadowTransparency
    requires var inc := LightIncidence(ctx.nm, light, at).value;
      var cs := Candidates(ctx, at, inc.l);
      i < |cs| && Accepts(Intersect(ctx.cfg.allowHitMeshBack, ctx.nm, cs[i], at, inc.l, SELF_HIT, inc.tfar).T(), SELF_HIT, inc.tfar)
    ensures LightStep(ctx, obj, e, at, snorm, light, pick, direct) == direct
  {
    var inc := LightIncidence(ctx.nm, light, at).value;
    BinaryShadow(ctx.cfg, ctx.nm, Candidates(ctx, at, inc.l), at, inc.l, SELF_HIT, pick,
                 HitState(Miss, inc.tfar, None, Some(Zero)));
  }

  /** Under transparent shadows a light behind a fully opaque blocker adds nothing but the
      clamp of the running colour. */
  lemma OpaqueShadowAddsNothing(cfg: Config, nm: Numerics, obj: Object, e: Vec3, at: Vec3, snorm: Vec3,
                                c: Vec3, l: Vec3, direct: Vec3)
    requires !cfg.disableShadowTransparency
    ensures var r := Phong(cfg, nm, obj, e, at, snorm, c, l, One, direct);
      r == direct || r == Clamp01(direct)
  {
    var n := FacingNormal(cfg, obj, snorm, l);
    assert Attenuate(cfg, Lit(cfg, nm, obj, e, at, n, c, l), One) == Zero;
    AddZero(direct);
  }

  // ---------------------------------------------------------------------------
  // light, reflect, transmit

  /** The end of light(): the reflected colour, when not black, is added weighted by
      `reflective`; the transmitted colour, when not black, is blended in as
      colour * (1 - transmissive) + transmit * transmissive; then the result is clamped. */
  function Composite(direct: Vec3, reflected: Vec3, transmitted: Vec3, mat: Material): (c: Vec3)
    ensures InUnit(c)
  {
    var withReflection := if reflected != Zero then Add(direct, Mul(reflected, mat.reflective)) else direct;
    var withTransmission := if transmitted != Zero
      then Add(Mul(withReflection, Sub(One, mat.transmissive)), Mul(transmitted, mat.transmissive))
      else withReflection;
    Clamp01(withTransmission)
  }

  /** Without secondary colours the result is the clamped direct colour. */
  lemma CompositeDirectOnly(direct: Vec3, mat: Material)
    ensures Composite(direct, Zero, Zero, mat) == Clamp01(direct)
  {
  }

  lemma Blend(a: real, b: real, w: real)
    requires 0.0 <= a <= 1.0 && 0.0 <= b <= 1.0 && 0.0 <= w <= 1.0
    ensures 0.0 <= a * (1.0 - w) + b * w <= 1.0
  {
    assert 0.0 <= a * (1.0 - w) <= 1.0 - w;
    assert 0.0 <= b * w <= w;
  }

  /** Transmission is a blend: with unit colours and transmissive in [0, 1], nothing is lost
      to the clamp; a fully transmissive surface shows only what lies behind it. */
  lemma CompositeTransmission(direct: Vec3, transmitted: Vec3, mat: Material)
    requires InUnit(direct) && InUnit(transmitted) && InUnit(mat.transmissive) && transmitted != Zero
    ensures Composite(direct, Zero, transmitted, mat) ==
            Add(Mul(direct, Sub(One, mat.transmissive)), Mul(transmitted, mat.transmissive))
    ensures mat.transmissive == One ==> Composite(direct, Zero, transmitted, mat) == transmitted
  {
    var tr := mat.transmissive;
    var blend := Add(Mul(direct, Sub(One, tr)), Mul(transmitted, tr));
    BlendInUnit(direct, transmitted, tr);
    assert Composite(direct, Zero, transmitted, mat) == Clamp01(blend);
  }

  lemma BlendInUnit(a: Vec3, b: Vec3, w: Vec3)
    requires InUnit(a) && InUnit(b) && InUnit(w)
    ensures InUnit(Add(Mul(a, Sub(One, w)), Mul(b, w)))
  {
    Blend(a.x, b.x, w.x);
    Blend(a.y, b.y, w.y);
    Blend(a.z, b.z, w.z);
  }

  /** light(obj, e, at, snorm, r_depth): reflection and transmission only for a material
      that has them, below the depth limit; the result is in [0, 1]. */
  function LightColour(ctx: RenderContext, obj: Object, e: Vec3, at: Vec3, snorm: Vec3, depth: nat, pick: bool): (c: Vec3)
    ensures InUnit(c)
    decreases MAX_R_DEPTH - depth, 2
  {
    var mat := obj.material;
    var reflected := if mat.reflective != Zero && depth < MAX_R_DEPTH && !ctx.cfg.disableReflection
      then ReflectColour(ctx, e, at, snorm, depth, pick) else Zero;
    var transmitted := if mat.transmissive != Zero && depth < MAX_R_DEPTH && !ctx.cfg.disableTransmission
      then TransmitColour(ctx, obj, e, at, snorm, depth, pick) else Zero;
    Composite(DirectColour(ctx, obj, e, at, snorm, ctx.lights, pick, Zero), reflected, transmitted, mat)
  }

  /** The colour seen along a secondary ray from `at`: light() one level deeper at the
      nearest hit at or beyond SELF_HIT, else the background. */
  function SecondaryColour(ctx: RenderContext, at: Vec3, dir: Vec3, depth: nat, pick: bool): Vec3
    requires depth < MAX_R_DEPTH
    decreases MAX_R_DEPTH - depth, 0
  {
    var out := SceneHit(ctx, at, dir, SELF_HIT, 0.0, None, pick);
    if out.t >= SELF_HIT then LightColour(ctx, out.obj.value, at, out.nearest.at, out.nearest.normal, depth + 1, pick)
    else ctx.background
  }

  /** The direction reflect() traces: the unit vector towards the eye, mirrored about the
      normal, 2 (n . v) n - v, normalised. */
  function MirrorDirection(nm: Numerics, e: Vec3, at: Vec3, snorm: Vec3): Vec3 {
    var v := nm.normalize(Sub(e, at));
    nm.normalize(Sub(Scale(2.0 * Dot(snorm, v), snorm), v))
  }

  /** reflect(). */
  function ReflectColour(ctx: RenderContext, e: Vec3, at: Vec3, snorm: Vec3, depth: nat, pick: bool): Vec3
    requires depth < MAX_R_DEPTH
    decreases MAX_R_DEPTH - depth, 1
  {
    SecondaryColour(ctx, at, MirrorDirection(ctx.nm, e, at, snorm), depth, pick)
  }

  /** The direction transmit() traces: straight on, unless the material refracts. The
      Boolean results of refract and schlickRefract are not used: on total internal
      reflection refract's mirror direction is taken, and when Schlick declines the ray
      goes straight on. */
  function TransmitDirection(ctx: RenderContext, obj: Object, e: Vec3, at: Vec3, snorm: Vec3, depth: nat): Vec3 {
    var mat := obj.material;
    var vi := ctx.nm.normalize(Sub(at, e));
    if mat.refraction > 0.0 && !ctx.cfg.disableRefraction then
      if !ctx.cfg.disableSchlickRefraction then SchlickRefractAsWritten(ctx.nm, vi, snorm, mat.refraction, ctx.draw(depth, at), vi).dir
      else Refract(ctx.nm, vi, snorm, mat.refraction).dir
    else vi
  }

  /** The three cases of the transmitted direction. Without refraction the ray goes straight
      on; with Schlick's test off it is refract()'s direction; with the test on, a ray
      entering the surface goes straight on for every draw below 1, since the test as written
      never lets it refract. */
  lemma TransmitDirectionCases(ctx: RenderContext, obj: Object, e: Vec3, at: Vec3, snorm: Vec3, depth: nat)
    ensures var vi := ctx.nm.normalize(Sub(at, e));
      var refracts := obj.material.refraction > 0.0 && !ctx.cfg.disableRefraction;
      && (!refracts ==> TransmitDirection(ctx, obj, e, at, snorm, depth) == vi)
      && (refracts && ctx.cfg.disableSchlickRefraction ==>
            TransmitDirection(ctx, obj, e, at, snorm, depth) == Refract(ctx.nm, vi, snorm, obj.material.refraction).dir)
      && (refracts && !ctx.cfg.disableSchlickRefraction && Dot(vi, snorm) < 0.0 && ctx.draw(depth, at) < 1.0 ==>
            TransmitDirection(ctx, obj, e, at, snorm, depth) == vi)
  {
    var vi := ctx.nm.normalize(Sub(at, e));
    var mat := obj.material;
    if mat.refraction > 0.0 && !ctx.cfg.disableRefraction && !ctx.cfg.disableSchlickRefraction &&
       Dot(vi, snorm) < 0.0 && ctx.draw(depth, at) < 1.0 {
      SchlickAsWrittenNeverRefractsEntering(ctx.nm, vi, snorm, mat.refraction, ctx.draw(depth, at), vi);
    }
  }

  /** transmit(). */
  function TransmitColour(ctx: RenderContext, obj: Object, e: Vec3, at: Vec3, snorm: Vec3, depth: nat, pick: bool): Vec3
    requires depth < MAX_R_DEPTH
    decreases MAX_R_DEPTH - depth, 1
  {
    SecondaryColour(ctx, at, TransmitDirection(ctx, obj, e, at, snorm, depth), depth, pick)
  }

  /** At the depth limit no secondary ray is traced: the colour is the clamped direct
      colour. So light() nests at most MAX_R_DEPTH levels below the primary hit. */
  lemma DepthLimitStopsRecursion(ctx: RenderContext, obj: Object, e: Vec3, at: Vec3, snorm: Vec3, depth: nat, pick: bool)
    requires depth >= MAX_R_DEPTH
    ensures LightColour(ctx, obj, e, at, snorm, depth, pick) ==
            Clamp01(DirectColour(ctx, obj, e, at, snorm, ctx.lights, pick, Zero))
  {
  }

  /** A material with neither reflective nor transmissive colour is lit by direct light only. */
  lemma MatteIsDirectOnly(ctx: RenderContext, obj: Object, e: Vec3, at: Vec3, snorm: Vec3, depth: nat, pick: bool)
    requires obj.material.reflective == Zero && obj.material.transmissive == Zero
    ensures LightColour(ctx, obj, e, at, snorm, depth, pick) ==
            Clamp01(DirectColour(ctx, obj, e, at, snorm, ctx.lights, pick, Zero))
  {
  }

  /** A matte surface whose only light is a white ambient one shows exactly its ambient
      colour, whatever the ray. */
  lemma AmbientOnlyColour(ctx: RenderContext, obj: Object, e: Vec3, at: Vec3, snorm: Vec3, depth: nat, pick: bool)
    requires ctx.lights == [AmbientLight(One)] && !ctx.cfg.disableAmbient
    requires obj.material.reflective == Zero && obj.material.transmissive == Zero
    requires InUnit(obj.material.ambient)
    ensures LightColour(ctx, obj, e, at, snorm, depth, pick) == obj.material.ambient
  {
    var amb := obj.material.ambient;
    MatteIsDirectOnly(ctx, obj, e, at, snorm, depth, pick);
    AmbientStep(ctx, obj, e, at, snorm, AmbientLight(One), pick, Zero);
    assert Add(Zero, Mul(One, amb)) == amb;
    assert ctx.lights[1..] == [];
    assert DirectColour(ctx, obj, e, at, snorm, ctx.lights, pick, Zero) == amb;
  }

  /** A spot light whose cone does not hold the point adds nothing to it. */
  lemma SpotOutsideConeAddsNothing(ctx: RenderContext, obj: Object, e: Vec3, at: Vec3, snorm: Vec3, light: Light,
                                   pick: bool, direct: Vec3)
    requires light.SpotLight?
    requires var l := ctx.nm.normalize(Sub(light.position, at));
      ctx.nm.acos(Dot(l, Neg(ctx.nm.normalize(light.direction)))) > PI * light.cutoff / 180.0
    ensures LightStep(ctx, obj, e, at, snorm, light, pick, direct) == direct
  {
    assert LightIncidence(ctx.nm, light, at) == None;
  }

  /** One pass of light()'s loop, with the shadow probe run by hit(). */
  method AddLight(ctx: RenderContext, obj: Object, e: Vec3, at: Vec3, snorm: Vec3, light: Light, pick: bool, direct: Vec3)
    returns (r: Vec3)
    ensures r == LightStep(ctx, obj, e, at, snorm, light, pick, direct)
  {
    r := direct;
    if light.AmbientLight? {
      if !ctx.cfg.disableAmbient {
        r := Add(r, Mul(light.color, obj.material.ambient));
      }
      return;
    }
    var reach := LightIncidence(ctx.nm, light, at);
    if reach.Some? {
      var inc := reach.value;
      var t := MISS;
      var shadowOpacity := Zero;
      if !ctx.cfg.disableShadow {
        var out := FindHit(ctx, at, inc.l, SELF_HIT, inc.tfar, Some(Zero), pick);
        t := out.t;
        shadowOpacity := out.opacity.value;
      }
      if !(t > SELF_HIT && ctx.cfg.disableShadowTransparency) {
        r := Phong(ctx.cfg, ctx.nm, obj, e, at, snorm, light.color, inc.l, shadowOpacity, r);
      }
    }
  }

  lemma DirectColourStep(ctx: RenderContext, obj: Object, e: Vec3, at: Vec3, snorm: Vec3,
                         lights: seq<Light>, i: nat, pick: bool, direct: Vec3)
    requires i < |lights|
    ensures DirectColour(ctx, obj, e, at, snorm, lights[i..], pick, direct) ==
            DirectColour(ctx, obj, e, at, snorm, lights[i + 1..], pick, LightStep(ctx, obj, e, at, snorm, lights[i], pick, direct))
  {
    assert lights[i..][0] == lights[i] && lights[i..][1..] == lights[i + 1..];
  }

  /** light()'s loop over the scene lights. */
  method AllLights(ctx: RenderContext, obj: Object, e: Vec3, at: Vec3, snorm: Vec3, pick: bool) returns (directColour: Vec3)
    ensures directColour == DirectColour(ctx, obj, e, at, snorm, ctx.lights, pick, Zero)
  {
    directColour := Zero;
    for i := 0 to |ctx.lights|
      invariant DirectColour(ctx, obj, e, at, snorm, ctx.lights[i..], pick, directColour) ==
                DirectColour(ctx, obj, e, at, snorm, ctx.lights, pick, Zero)
    {
      DirectColourStep(ctx, obj, e, at, snorm, ctx.lights, i, pick, directColour);
      directColour := AddLight(ctx, obj, e, at, snorm, ctx.lights[i], pick, directColour);
    }
    assert directColour == DirectColour(ctx, obj, e, at, snorm, ctx.lights, pick, Zero) by {
      assert ctx.lights[|ctx.lights|..] == [];
    }
  }

  /** light(). */
  method Light(ctx: RenderContext, obj: Object, e: Vec3, at: Vec3, snorm: Vec3, depth: nat, pick: bool)
    returns (colour: Vec3)
    ensures colour == LightColour(ctx, obj, e, at, snorm, depth, pick)
    decreases MAX_R_DEPTH - depth, 2
  {
    var mat := obj.material;
    var reflectColour := Zero;
    var transmitColour := Zero;
    if mat.reflective != Zero && depth < MAX_R_DEPTH && !ctx.cfg.disableReflection {
      reflectColour := Reflect(ctx, e, at, snorm, depth, pick);
    }
    if mat.transmissive != Zero && depth < MAX_R_DEPTH && !ctx.cfg.disableTransmission {
      transmitColour := Transmit(ctx, obj, e, at, snorm, depth, pick);
    }
    var directColour := AllLights(ctx, obj, e, at, snorm, pick);
    colour := directColour;
    if reflectColour != Zero {
      colour := Add(colour, Mul(reflectColour, mat.reflective));
    }
    if transmitColour != Zero {
      colour := Mul(colour, Sub(One, mat.transmissive));
      colour := Add(colour, Mul(transmitColour, mat.transmissive));
    }
    colour := Clamp01(colour);
  }

  /** The secondary trace shared by reflect() and transmit(). */
  method Secondary(ctx: RenderContext, at: Vec3, dir: Vec3, depth: nat, pick: bool) returns (colour: Vec3)
    requires depth < MAX_R_DEPTH
    ensures colour == SecondaryColour(ctx, at, dir, depth, pick)
    decreases MAX_R_DEPTH - depth, 0
  {
    var out := FindHit(ctx, at, dir, SELF_HIT, 0.0, None, pick);
    if out.t >= SELF_HIT {
      colour := Light(ctx, out.obj.value, at, out.nearest.at, out.nearest.normal, depth + 1, pick);
    } else {
      colour := ctx.background;
    }
  }

  /** reflect(). */
  method Reflect(ctx: RenderContext, e: Vec3, at: Vec3, snorm: Vec3, depth: nat, pick: bool) returns (colour: Vec3)
    requires depth < MAX_R_DEPTH
    ensures colour == ReflectColour(ctx, e, at, snorm, depth, pick)
    decreases MAX_R_DEPTH - depth, 1
  {
    var r := MirrorDirection(ctx.nm, e, at, snorm);
    colour := Secondary(ctx, at, r, depth, pick);
  }

  /** transmit(). */
  method Transmit(ctx: RenderContext, obj: Object, e: Vec3, at: Vec3, snorm: Vec3, depth: nat, pick: bool) returns (colour: Vec3)
    requires depth < MAX_R_DEPTH
    ensures colour == TransmitColour(ctx, obj, e, at, snorm, depth, pick)
    decreases MAX_R_DEPTH - depth, 1
  {
    var mat := obj.material;
    var vi := ctx.nm.normalize(Sub(at, e));
    var vr := vi;
    if mat.refraction > 0.0 && !ctx.cfg.disableRefraction {
      if !ctx.cfg.disableSchlickRefraction {
        var s := SchlickRefractAsWritten(ctx.nm, vi, snorm, mat.refraction, ctx.draw(depth, at), vr);
        vr := s.dir;
      } else {
        var s := Refract(ctx.nm, vi, snorm, mat.refraction);
        vr := s.dir;
      }
    }
    colour := Secondary(ctx, at, vr, depth, pick);
  }

  // ---------------------------------------------------------------------------
  // trace and ssTrace

  datatype TraceResult = TraceResult(hit: bool, colour: Vec3)

  /** trace(e, s, colour): a primary ray from the eye through s, accepting hits at t >= 1;
      on a hit the colour is light() at depth 0, otherwise the caller's colour is kept. */
  function Trace(ctx: RenderContext, e: Vec3, s: Vec3, colour: Vec3, pick: bool): (r: TraceResult)
    ensures r.hit ==> InUnit(r.colour)
    ensures !r.hit ==> r.colour == colour
  {
    var d := ctx.nm.normalize(Sub(s, e));
    var out := SceneHit(ctx, e, d, 1.0, 0.0, None, pick);
    if out.t >= 1.0 then TraceResult(true, LightColour(ctx, out.obj.value, e, out.nearest.at, out.nearest.normal, 0, pick))
    else TraceResult(false, colour)
  }

  /** trace() reports a hit exactly when some candidate's routine hits the primary ray, and
      then shades the nearest one. */
  lemma TraceHitsIffSomeCandidate(ctx: RenderContext, e: Vec3, s: Vec3, colour: Vec3, pick: bool)
    ensures var d := ctx.nm.normalize(Sub(s, e));
      var cs := Candidates(ctx, e, d);
      Trace(ctx, e, s, colour, pick).hit <==>
        exists i :: 0 <= i < |cs| && Intersect(ctx.cfg.allowHitMeshBack, ctx.nm, cs[i], e, d, 1.0, 0.0).Hit?
  {
    var d := ctx.nm.normalize(Sub(s, e));
    var cs := Candidates(ctx, e, d);
    SceneHitIsNearest(ctx, e, d, 1.0, 0.0, pick);
    if exists i :: 0 <= i < |cs| && Intersect(ctx.cfg.allowHitMeshBack, ctx.nm, cs[i], e, d, 1.0, 0.0).Hit? {
      var i :| 0 <= i < |cs| && Intersect(ctx.cfg.allowHitMeshBack, ctx.nm, cs[i], e, d, 1.0, 0.0).Hit?;
      IntersectAccepted(ctx.cfg.allowHitMeshBack, ctx.nm, cs[i], e, d, 1.0, 0.0);
    }
  }

  /** trace(). */
  method TraceRay(ctx: RenderContext, e: Vec3, s: Vec3, colour: Vec3, pick: bool) returns (r: TraceResult)
    ensures r == Trace(ctx, e, s, colour, pick)
  {
    var d := ctx.nm.normalize(Sub(s, e));
    var out := FindHit(ctx, e, d, 1.0, 0.0, None, pick);
    if out.t >= 1.0 {
      var c := Light(ctx, out.obj.value, e, out.nearest.at, out.nearest.normal, 0, pick);
      return TraceResult(true, c);
    }
    return TraceResult(false, colour);
  }

  /** One of ssTrace's four sub-samples: a miss, or the light() colour and the object hit. */
  datatype Sample = Missed | Shaded(colour: Vec3, obj: Object)

  /** A sample's share of totalColor: a miss adds nothing. */
  function Colour(s: Sample): Vec3 {
    if s.Shaded? then s.colour else Zero
  }

  function SampleAt(ctx: RenderContext, e: Vec3, s: Vec3, pick: bool): (r: Sample)
    ensures r.Shaded? ==> InUnit(r.colour)
  {
    var d := ctx.nm.normalize(Sub(s, e));
    var out := SceneHit(ctx, e, d, 1.0, 0.0, None, pick);
    if out.t >= 1.0 then Shaded(LightColour(ctx, out.obj.value, e, out.nearest.at, out.nearest.normal, 0, pick), out.obj.value)
    else Missed
  }

  function Samples(ctx: RenderContext, e: Vec3, ss: seq<Vec3>, pick: bool): (r: seq<Sample>)
    ensures |r| == |ss|
  {
    seq(|ss|, i requires 0 <= i < |ss| => SampleAt(ctx, e, ss[i], pick))
  }

  /** totalColor: the sum of the samples' colours. */
  function SumColours(samples: seq<Sample>): Vec3 {
    if samples == [] then Zero
    else Add(SumColours(samples[..|samples| - 1]), Colour(samples[|samples| - 1]))
  }

  /** totalValidTrace. */
  function ValidCount(samples: seq<Sample>): (n: nat)
    ensures n <= |samples|
  {
    if samples == [] then 0
    else ValidCount(samples[..|samples| - 1]) + (if samples[|samples| - 1].Shaded? then 1 else 0)
  }

  /** totalHitObjs: the objects of the valid samples, in order. */
  function HitObjects(samples: seq<Sample>): (objs: seq<Object>)
    ensures |objs| == ValidCount(samples)
  {
    if samples == [] then []
    else
      var last := samples[|samples| - 1];
      HitObjects(samples[..|samples| - 1]) + (if last.Shaded? then [last.obj] else [])
  }

  function Quarter(c: Vec3): Vec3 { Vec3(c.x / 4.0, c.y / 4.0, c.z / 4.0) }

  /** The toon shading of ssTrace: white (outline), the darkest channel (sketch) or the
      average, then black where the four samples disagree: some hit and some missed, or
      they hit different objects. */
  function ToonOf(cfg: Config, total: Vec3, valid: nat, invalid: nat, objs: seq<Object>): Vec3 {
    var base := if !cfg.disableOutlineShading then One
      else if !cfg.disableSketchShading then
        var m := Min(Min(total.x, total.y), total.z);
        Vec3(m, m, m)
      else Quarter(total);
    if valid > 0 && invalid > 0 then Zero
    else if |objs| == 4 && !(objs[0] == objs[1] && objs[0] == objs[2] && objs[0] == objs[3] &&
                            objs[1] == objs[2] && objs[1] == objs[3] && objs[2] == objs[3]) then Zero
    else base
  }

  function Toon(cfg: Config, samples: seq<Sample>): Vec3 {
    ToonOf(cfg, SumColours(samples), ValidCount(samples), |samples| - ValidCount(samples), HitObjects(samples))
  }

  datatype SsOutcome = SampleOutOfRange | Traced(hit: bool, colour: Vec3)

  /** The end of ssTrace on its samples: no valid sample keeps the caller's colour;
      otherwise the toon rule or, without toon shading, the average. */
  function Combine(cfg: Config, samples: seq<Sample>, colour: Vec3): (r: SsOutcome)
    ensures r.Traced?
  {
    if ValidCount(samples) == 0 then Traced(false, colour)
    else if !cfg.disableToonShading then Traced(true, Toon(cfg, samples))
    else Traced(true, Quarter(SumColours(samples)))
  }

  /** ssTrace(e, ss, colour): four sub-sample rays through ss[0..3]; ss.at(i) throws when
      there are fewer than four. */
  function SsTrace(ctx: RenderContext, e: Vec3, ss: seq<Vec3>, colour: Vec3, pick: bool): (r: SsOutcome)
    ensures r == SampleOutOfRange <==> |ss| < 4
    ensures |ss| >= 4 ==> forall i :: 0 <= i < 4 ==> Samples(ctx, e, ss[..4], pick)[i] == SampleAt(ctx, e, ss[i], pick)
  {
    if |ss| < 4 then SampleOutOfRange
    else Combine(ctx.cfg, Samples(ctx, e, ss[..4], pick), colour)
  }

  lemma {:induction false} SumColoursBound(samples: seq<Sample>)
    requires forall i :: 0 <= i < |samples| ==> InUnit(Colour(samples[i]))
    ensures LessEq(Zero, SumColours(samples))
    ensures LessEq(SumColours(samples), Scale(|samples| as real, One))
  {
    if samples != [] {
      SumColoursBound(samples[..|samples| - 1]);
    }
  }

  /** Without toon shading, ssTrace's colour is the average of the four samples, misses
      counting as black, and lies in [0, 1]; it reports a hit iff some sample hit, and
      otherwise keeps the caller's colour. */
  lemma CombineAverage(cfg: Config, samples: seq<Sample>, colour: Vec3)
    requires |samples| == 4 && cfg.disableToonShading
    requires forall i :: 0 <= i < 4 ==> samples[i].Shaded? ==> InUnit(samples[i].colour)
    ensures var r := Combine(cfg, samples, colour);
      && (r.hit <==> exists i :: 0 <= i < 4 && samples[i].Shaded?)
      && (r.hit ==> r.colour == Quarter(SumColours(samples)) && InUnit(r.colour))
      && (!r.hit ==> r.colour == colour)
  {
    SumColoursBound(samples);
    QuarterOfFour(SumColours(samples));
    SomeValid(samples);
  }

  lemma QuarterOfFour(c: Vec3)
    requires LessEq(Zero, c) && LessEq(c, Scale(4.0, One))
    ensures InUnit(Quarter(c))
  {
  }

  lemma SomeValid(samples: seq<Sample>)
    ensures ValidCount(samples) != 0 <==> exists i :: 0 <= i < |samples| && samples[i].Shaded?
  {
    ValidCountZero(samples);
    if ValidCount(samples) != 0 {
      var i :| 0 <= i < |samples| && !samples[i].Missed?;
      assert samples[i].Shaded?;
    }
  }

  lemma {:induction false} ValidCountZero(samples: seq<Sample>)
    ensures ValidCount(samples) == 0 <==> forall i :: 0 <= i < |samples| ==> samples[i].Missed?
  {
    if samples != [] {
      ValidCountZero(samples[..|samples| - 1]);
    }
  }

  /** With toon shading, a pixel whose samples partly hit and partly miss is black. */
  lemma CombineToonEdge(cfg: Config, samples: seq<Sample>, colour: Vec3, i: nat, j: nat)
    requires !cfg.disableToonShading
    requires i < |samples| && j < |samples| && samples[i].Shaded? && samples[j].Missed?
    ensures Combine(cfg, samples, colour) == Traced(true, Zero)
  {
    ValidCountZero(samples);
    ValidCountFull(samples);
  }

  /** With toon shading, four samples that all hit but not all the same object give a
      black pixel (the outline between objects). */
  lemma CombineToonBoundary(cfg: Config, samples: seq<Sample>, colour: Vec3, i: nat, j: nat)
    requires !cfg.disableToonShading && |samples| == 4
    requires forall k :: 0 <= k < 4 ==> samples[k].Shaded?
    requires i < 4 && j < 4 && samples[i].obj != samples[j].obj
    ensures Combine(cfg, samples, colour) == Traced(true, Zero)
  {
    ValidCountFull(samples);
    HitObjectsAllValid(samples);
  }

  lemma {:induction false} HitObjectsAllValid(samples: seq<Sample>)
    requires forall k :: 0 <= k < |samples| ==> samples[k].Shaded?
    ensures |HitObjects(samples)| == |samples|
    ensures forall k :: 0 <= k < |samples| ==> HitObjects(samples)[k] == samples[k].obj
  {
    ValidCountFull(samples);
    if samples != [] {
      var front := samples[..|samples| - 1];
      assert forall k :: 0 <= k < |front| ==> front[k] == samples[k];
      HitObjectsAllValid(front);
    }
  }

  lemma {:induction false} ValidCountFull(samples: seq<Sample>)
    ensures ValidCount(samples) == |samples| <==> forall i :: 0 <= i < |samples| ==> samples[i].Shaded?
  {
    if samples != [] {
      ValidCountFull(samples[..|samples| - 1]);
    }
  }

  /** One sub-sample of ssTrace: hit() through s, and light() at depth 0 on a hit. */
  method Subsample(ctx: RenderContext, e: Vec3, s: Vec3, pick: bool) returns (sample: Sample)
    ensures sample == SampleAt(ctx, e, s, pick)
  {
    var d := ctx.nm.normalize(Sub(s, e));
    var out := FindHit(ctx, e, d, 1.0, 0.0, None, pick);
    if out.t >= 1.0 {
      var c := Light(ctx, out.obj.value, e, out.nearest.at, out.nearest.normal, 0, pick);
      sample := Shaded(c, out.obj.value);
    } else {
      sample := Missed;
    }
  }

  /** ssTrace()'s loop over its four sub-samples, accumulating totalColor,
      totalValidTrace, totalInvalidTrace and totalHitObjs. */
  method SampleTotals(ctx: RenderContext, e: Vec3, ss: seq<Vec3>, pick: bool)
    returns (traceResult: bool, totalColor: Vec3, totalValidTrace: nat, totalInvalidTrace: nat, totalHitObjs: seq<Object>)
    requires |ss| >= 4
    ensures var samples := Samples(ctx, e, ss[..4], pick);
      && totalColor == SumColours(samples)
      && totalValidTrace == ValidCount(samples)
      && totalInvalidTrace == 4 - totalValidTrace
      && totalHitObjs == HitObjects(samples)
      && (traceResult <==> totalValidTrace > 0)
  {
    ghost var samples := Samples(ctx, e, ss[..4], pick);
    traceResult := false;
    totalColor := Zero;
    totalValidTrace := 0;
    totalInvalidTrace := 0;
    totalHitObjs := [];
    for i := 0 to 4
      invariant totalColor == SumColours(samples[..i])
      invariant totalValidTrace == ValidCount(samples[..i])
      invariant totalInvalidTrace == i - totalValidTrace
      invariant totalHitObjs == HitObjects(samples[..i])
      invariant traceResult <==> totalValidTrace > 0
    {
      TotalsStep(samples, i);
      assert samples[i] == SampleAt(ctx, e, ss[i], pick) by {
        assert ss[..4][i] == ss[i];
      }
      var sample := Subsample(ctx, e, ss[i], pick);
      if sample.Shaded? {
        traceResult := true;
        totalValidTrace := totalValidTrace + 1;
        totalColor := Add(totalColor, sample.colour);
        totalHitObjs := totalHitObjs + [sample.obj];
      } else {
        totalInvalidTrace := totalInvalidTrace + 1;
      }
    }
    assert samples[..4] == samples;
  }

  /** Adding one sample to the totals. */
  lemma TotalsStep(samples: seq<Sample>, i: nat)
    requires i < |samples|
    ensures SumColours(samples[..i + 1]) == Add(SumColours(samples[..i]), Colour(samples[i]))
    ensures ValidCount(samples[..i + 1]) == ValidCount(samples[..i]) + (if samples[i].Shaded? then 1 else 0)
    ensures HitObjects(samples[..i + 1]) == HitObjects(samples[..i]) + (if samples[i].Shaded? then [samples[i].obj] else [])
  {
    assert samples[..i + 1][..i] == samples[..i];
  }

  /** ssTrace(). */
  method SsTraceRays(ctx: RenderContext, e: Vec3, ss: seq<Vec3>, colour: Vec3, pick: bool) returns (r: SsOutcome)
    ensures r == SsTrace(ctx, e, ss, colour, pick)
  {
    if |ss| < 4 {
      return SampleOutOfRange;
    }
    var traceResult, totalColor, totalValidTrace, totalInvalidTrace, totalHitObjs := SampleTotals(ctx, e, ss, pick);
    if !traceResult {
      return Traced(false, colour);
    }
    var c: Vec3;
    if !ctx.cfg.disableToonShading {
      c := ToonRule(ctx.cfg, totalColor, totalValidTrace, totalInvalidTrace, totalHitObjs);
    } else {
      c := Quarter(totalColor);
    }
    return Traced(true, c);
  }

  /** The toon branch of ssTrace(), on the loop's totals. */
  method ToonRule(cfg: Config, totalColor: Vec3, totalValidTrace: nat, totalInvalidTrace: nat, totalHitObjs: seq<Object>)
    returns (c: Vec3)
    ensures c == ToonOf(cfg, totalColor, totalValidTrace, totalInvalidTrace, totalHitObjs)
  {
    if !cfg.disableOutlineShading {
      c := One;
    } else if !cfg.disableSketchShading {
      var maxColor := Min(totalColor.x, totalColor.y);
      maxColor := Min(maxColor, totalColor.z);
      c := Vec3(maxColor, maxColor, maxColor);
    } else {
      c := Quarter(totalColor);
    }
    if totalValidTrace > 0 && totalInvalidTrace > 0 {
      c := Zero;
    } else if |totalHitObjs| == 4 {
      if totalHitObjs[0] != totalHitObjs[1] || totalHitObjs[0] != totalHitObjs[2] || totalHitObjs[0] != totalHitObjs[3] ||
         totalHitObjs[1] != totalHitObjs[2] || totalHitObjs[1] != totalHitObjs[3] || totalHitObjs[2] != totalHitObjs[3] {
        c := Zero;
      }
    }
  }
}
