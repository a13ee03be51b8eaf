/**
 * The ray tracer of ray_tracing/RayTrace.c: background fill, clamping,
 * ray/sphere and ray/scene intersection, Phong shading with shadow rays,
 * the pixel loop and the packing of the raster into an RGB byte buffer.
 *
 * C `float` is modelled as `real`; square root, power and normalisation
 * come from a `MathLib` parameter (see module Geometry).
 */
module RayTrace {
  import opened Geometry

  datatype Option<T> = None | Some(value: T)

  /** What hitScene writes through its four out-parameters on a hit. */
  datatype Hit = Hit(pos: Vector3, normal: Vector3, color: Color, spec: Color)

  /** GLubyte. */
  newtype byte = b: int | 0 <= b < 256

  /** The Phong exponent used by shade. */
  const Shininess: real := 100.0

  // ---------------------------------------------------------------------
  // Background fill
  // ---------------------------------------------------------------------

  /** Sets every cell of the height x width raster to the background colour. */
  method InitImageWithBackground(background: Color, image: array2<Color>)
    modifies image
    ensures forall i, j :: 0 <= i < image.Length0 && 0 <= j < image.Length1 ==>
      image[i, j] == background
  {
    var i := 0;
    while i < image.Length0
      invariant 0 <= i <= image.Length0
      invariant forall i', j' :: 0 <= i' < i && 0 <= j' < image.Length1 ==>
        image[i', j'] == background
    {
      var j := 0;
      while j < image.Length1
        invariant 0 <= j <= image.Length1
        invariant forall i', j' :: 0 <= i' < i && 0 <= j' < image.Length1 ==>
          image[i', j'] == background
        invariant forall j' :: 0 <= j' < j ==> image[i, j'] == background
      {
        image[i, j] := background;
        j := j + 1;
      }
      i := i + 1;
    }
  }

  // ---------------------------------------------------------------------
  // Clamping
  // ---------------------------------------------------------------------

  /** fminf(fmaxf(x, lo), hi). */
  function ClampChannel(x: real, lo: real, hi: real): (r: real)
    ensures lo <= hi ==> lo <= r <= hi
    ensures lo <= x <= hi ==> r == x
    ensures lo <= hi && x < lo ==> r == lo
    ensures lo <= hi && hi < x ==> r == hi
    ensures hi < lo ==> r == hi
  {
    var atLeast := if x < lo then lo else x;
    if atLeast > hi then hi else atLeast
  }

  predicate InRange(c: Color, lo: real, hi: real) {
    lo <= c.red <= hi && lo <= c.green <= hi && lo <= c.blue <= hi
  }

  /** The colour clamp leaves behind. */
  function Clamped(c: Color, lo: real, hi: real): Color {
    Color(ClampChannel(c.red, lo, hi), ClampChannel(c.green, lo, hi), ClampChannel(c.blue, lo, hi))
  }

  /** Clamps each channel of c into [lo, hi], one channel after the other. */
  method Clamp(c: Color, lo: real, hi: real) returns (r: Color)
    ensures r == Clamped(c, lo, hi)
    ensures lo <= hi ==> InRange(r, lo, hi)
    ensures InRange(c, lo, hi) ==> r == c
  {
    r := c;
    r := r.(red := ClampChannel(r.red, lo, hi));
    r := r.(green := ClampChannel(r.green, lo, hi));
    r := r.(blue := ClampChannel(r.blue, lo, hi));
  }

  /** Clamping a clamped colour changes nothing, whatever the bounds. */
  lemma ClampIdempotent(c: Color, lo: real, hi: real)
    ensures Clamped(Clamped(c, lo, hi), lo, hi) == Clamped(c, lo, hi)
  {
  }

  // ---------------------------------------------------------------------
  // Ray / sphere
  // ---------------------------------------------------------------------

  /** ud*ud - c*c + radius*radius with u = origin - center, ud = u.d, c = |u|. */
  function Discriminant(lib: MathLib, origin: Vector3, direction: Vector3, s: Sphere): real {
    var u := origin.Minus(s.center);
    var c := lib.Norm(u);
    var ud := u.Dot(direction);
    ud * ud - c * c + s.radius * s.radius
  }

  /** The near root -ud - sqrt(discriminant), the only one hitSphere tries. */
  function NearRoot(lib: MathLib, origin: Vector3, direction: Vector3, s: Sphere): real {
    -origin.Minus(s.center).Dot(direction) - lib.sqrt(Discriminant(lib, origin, direction, s))
  }

  /** The far root -ud + sqrt(discriminant), which hitSphere never considers. */
  function FarRoot(lib: MathLib, origin: Vector3, direction: Vector3, s: Sphere): real {
    -origin.Minus(s.center).Dot(direction) + lib.sqrt(Discriminant(lib, origin, direction, s))
  }

  /**
   * hitSphere: Some(t) (return value 1, *t = t) exactly when the
   * discriminant is non-negative and the near root lies in front of the
   * origin; None (return value 0) otherwise.
   */
  function HitSphere(lib: MathLib, origin: Vector3, direction: Vector3, s: Sphere): (t: Option<real>)
    ensures t.Some? <==>
      0.0 <= Discriminant(lib, origin, direction, s) && 0.0 <= NearRoot(lib, origin, direction, s)
    ensures t.Some? ==> t.value == NearRoot(lib, origin, direction, s) && 0.0 <= t.value
  {
    if 0.0 <= Discriminant(lib, origin, direction, s) && 0.0 <= NearRoot(lib, origin, direction, s)
    then Some(NearRoot(lib, origin, direction, s))
    else None
  }

  /** 0 <= q and q*q > a*a imply q > a and q > -a. */
  lemma SquareDominates(q: real, a: real)
    requires 0.0 <= q && q * q > a * a
    ensures q > a && q > -a
  {
  }

  /**
   * With an exact square root, a ray whose origin is strictly inside the
   * sphere reports no hit, even though the far root is a forward
   * intersection: the near-root-only rule.
   */
  lemma InsideSphereMisses(lib: MathLib, origin: Vector3, direction: Vector3, s: Sphere)
    requires lib.ExactSqrt()
    requires origin.Minus(s.center).Dot(origin.Minus(s.center)) < s.radius * s.radius
    ensures HitSphere(lib, origin, direction, s) == None
    ensures FarRoot(lib, origin, direction, s) > 0.0
  {
    var u := origin.Minus(s.center);
    var ud := u.Dot(direction);
    var c := lib.Norm(u);
    assert 0.0 <= u.Dot(u);
    assert c * c == u.Dot(u);
    var disc := Discriminant(lib, origin, direction, s);
    assert disc > ud * ud;
    var q := lib.sqrt(disc);
    assert 0.0 <= q && q * q == disc;
    SquareDominates(q, ud);
    assert NearRoot(lib, origin, direction, s) == -ud - q < 0.0;
  }

  /** |u + t d|^2 expanded. */
  lemma DotExpand(u: Vector3, d: Vector3, t: real)
    ensures u.Plus(d.Times(t)).Dot(u.Plus(d.Times(t))) == u.Dot(u) + 2.0 * t * u.Dot(d) + t * t * d.Dot(d)
  {
  }

  /**
   * With an exact square root and a unit direction, the reported hit
   * point origin + t*direction lies on the sphere.
   */
  lemma HitPointOnSphere(lib: MathLib, origin: Vector3, direction: Vector3, s: Sphere, t: real)
    requires lib.ExactSqrt()
    requires direction.Dot(direction) == 1.0
    requires HitSphere(lib, origin, direction, s) == Some(t)
    ensures var p := origin.Plus(direction.Times(t)).Minus(s.center);
      p.Dot(p) == s.radius * s.radius
  {
    var u := origin.Minus(s.center);
    var ud := u.Dot(direction);
    var c := lib.Norm(u);
    assert 0.0 <= u.Dot(u);
    assert c * c == u.Dot(u);
    var disc := Discriminant(lib, origin, direction, s);
    var q := lib.sqrt(disc);
    assert q * q == disc == ud * ud - u.Dot(u) + s.radius * s.radius;
    assert t == -ud - q;
    var p := origin.Plus(direction.Times(t)).Minus(s.center);
    assert p == u.Plus(direction.Times(t));
    DotExpand(u, direction, t);
    assert u.Dot(direction) == ud;
    calc {
      p.Dot(p);
      u.Dot(u) + 2.0 * t * ud + t * t;
      u.Dot(u) - 2.0 * (ud + q) * ud + (ud + q) * (ud + q);
      u.Dot(u) - ud * ud + q * q;
      s.radius * s.radius;
    }
  }

  /**
   * With an exact square root, a ray leaving a point of the sphere's
   * surface misses that sphere when it points outward (u.d > 0) and hits
   * it at distance 0 when it points inward (u.d < 0), u being the point
   * minus the centre: shade's shadow ray, cast from the hit point itself,
   * is blocked by its own sphere exactly for lights behind the surface.
   */
  lemma SurfaceShadowRay(lib: MathLib, origin: Vector3, direction: Vector3, s: Sphere)
    requires lib.ExactSqrt()
    requires origin.Minus(s.center).Dot(origin.Minus(s.center)) == s.radius * s.radius
    ensures origin.Minus(s.center).Dot(direction) > 0.0 ==> HitSphere(lib, origin, direction, s) == None
    ensures origin.Minus(s.center).Dot(direction) < 0.0 ==> HitSphere(lib, origin, direction, s) == Some(0.0)
  {
    var u := origin.Minus(s.center);
    var ud := u.Dot(direction);
    var c := lib.Norm(u);
    assert 0.0 <= u.Dot(u);
    assert c * c == u.Dot(u);
    assert Discriminant(lib, origin, direction, s) == ud * ud;
    if ud > 0.0 {
      SqrtOfSquare(lib, ud);
      assert NearRoot(lib, origin, direction, s) == -ud - ud;
    } else if ud < 0.0 {
      var a := -ud;
      assert a * a == ud * ud;
      assert Discriminant(lib, origin, direction, s) == a * a;
      SqrtOfSquare(lib, a);
      assert NearRoot(lib, origin, direction, s) == -ud - a;
    }
  }

  /**
   * With an exact square root, a ray from outside a sphere that points
   * toward its centre (u.d < 0) and meets it (discriminant >= 0) is hit at
   * the near root, a positive distance.
   */
  lemma OutsideForwardRayHits(lib: MathLib, origin: Vector3, direction: Vector3, s: Sphere)
    requires lib.ExactSqrt()
    requires origin.Minus(s.center).Dot(origin.Minus(s.center)) > s.radius * s.radius
    requires origin.Minus(s.center).Dot(direction) < 0.0
    requires 0.0 <= Discriminant(lib, origin, direction, s)
    ensures HitSphere(lib, origin, direction, s) == Some(NearRoot(lib, origin, direction, s))
    ensures NearRoot(lib, origin, direction, s) > 0.0
  {
    var u := origin.Minus(s.center);
    var ud := u.Dot(direction);
    var c := lib.Norm(u);
    assert 0.0 <= u.Dot(u);
    assert c * c == u.Dot(u);
    var disc := Discriminant(lib, origin, direction, s);
    assert disc < ud * ud;
    var q := lib.sqrt(disc);
    assert 0.0 <= q && q * q == disc;
    var a := -ud;
    assert a * a == ud * ud;
    if a < q {
      SquareMonotone(a, q);
    }
    assert q < a;
    assert NearRoot(lib, origin, direction, s) == a - q;
  }

  /**
   * With an exact square root and a unit direction, the distance hitSphere
   * reports is the closest intersection: every t' that puts
   * origin + t'*direction on the sphere is at least t.
   */
  lemma NearRootIsClosest(lib: MathLib, origin: Vector3, direction: Vector3, s: Sphere, t: real, t': real)
    requires lib.ExactSqrt()
    requires direction.Dot(direction) == 1.0
    requires HitSphere(lib, origin, direction, s) == Some(t)
    requires var p := origin.Plus(direction.Times(t')).Minus(s.center);
      p.Dot(p) == s.radius * s.radius
    ensures t <= t'
  {
    var ud, uu, q := HitDistance(lib, origin, direction, s, t);
    var u := origin.Minus(s.center);
    assert origin.Plus(direction.Times(t')).Minus(s.center) == u.Plus(direction.Times(t'));
    OnRayScalar(u, direction, t', s.radius * s.radius, ud, uu);
    SmallerRoot(uu, ud, s.radius * s.radius, ud * ud - uu + s.radius * s.radius, q, t');
  }

  /**
   * With an exact square root, a reported distance is -ud - q, where
   * q >= 0 is the square root of ud * ud - uu + r * r.
   */
  lemma HitDistance(lib: MathLib, origin: Vector3, direction: Vector3, s: Sphere, t: real)
    returns (ud: real, uu: real, q: real)
    requires lib.ExactSqrt()
    requires HitSphere(lib, origin, direction, s) == Some(t)
    ensures ud == origin.Minus(s.center).Dot(direction)
    ensures uu == origin.Minus(s.center).Dot(origin.Minus(s.center))
    ensures 0.0 <= q && q * q == ud * ud - uu + s.radius * s.radius
    ensures t == -ud - q
  {
    var disc := Discriminant(lib, origin, direction, s);
    ud, uu := ExactDiscriminant(lib, origin, direction, s);
    q := lib.sqrt(disc);
    ExactSqrtOf(lib, disc);
  }

  /** The point u + t*d (d a unit vector) at squared distance rr from the origin, as a scalar equation in t. */
  lemma OnRayScalar(u: Vector3, d: Vector3, t: real, rr: real, ud: real, uu: real)
    requires d.Dot(d) == 1.0
    requires ud == u.Dot(d) && uu == u.Dot(u)
    requires u.Plus(d.Times(t)).Dot(u.Plus(d.Times(t))) == rr
    ensures uu + 2.0 * t * ud + t * t == rr
  {
    DotExpand(u, d, t);
  }

  /**
   * With an exact square root, the discriminant is ud * ud - uu + r * r,
   * with ud = u.d and uu = u.u for u = origin - center.
   */
  lemma ExactDiscriminant(lib: MathLib, origin: Vector3, direction: Vector3, s: Sphere) returns (ud: real, uu: real)
    requires lib.ExactSqrt()
    ensures ud == origin.Minus(s.center).Dot(direction)
    ensures uu == origin.Minus(s.center).Dot(origin.Minus(s.center))
    ensures Discriminant(lib, origin, direction, s) == ud * ud - uu + s.radius * s.radius
  {
    var u := origin.Minus(s.center);
    ud, uu := u.Dot(direction), u.Dot(u);
    assert 0.0 <= uu;
  }

  lemma ExactSqrtOf(lib: MathLib, x: real)
    requires lib.ExactSqrt()
    requires 0.0 <= x
    ensures 0.0 <= lib.sqrt(x) && lib.sqrt(x) * lib.sqrt(x) == x
  {
  }

  /**
   * The scalar step: if t' solves uu + 2 t' ud + t'^2 == rr and q >= 0 is a
   * square root of disc == ud^2 - uu + rr, then t' is at least -ud - q.
   */
  lemma SmallerRoot(uu: real, ud: real, rr: real, disc: real, q: real, t': real)
    requires 0.0 <= q && q * q == disc
    requires disc == ud * ud - uu + rr
    requires uu + 2.0 * t' * ud + t' * t' == rr
    ensures -ud - q <= t'
  {
    var x := t' + ud;
    assert x * x == t' * t' + 2.0 * t' * ud + ud * ud;
    assert x * x == q * q;
    assert (-x) * (-x) == x * x;
    if x < -q {
      SquareMonotone(q, -x);
    }
  }

  // ---------------------------------------------------------------------
  // Ray / scene
  // ---------------------------------------------------------------------

  /** Some sphere of the list passes hitSphere. */
  ghost predicate AnyHit(lib: MathLib, origin: Vector3, direction: Vector3, spheres: seq<Sphere>) {
    exists j :: 0 <= j < |spheres| && HitSphere(lib, origin, direction, spheres[j]).Some?
  }

  /**
   * Sphere k is hit, no hit sphere is nearer, and every hit sphere before
   * k is strictly farther: the first of equally near spheres wins.
   */
  ghost predicate IsNearest(lib: MathLib, origin: Vector3, direction: Vector3, spheres: seq<Sphere>, k: int) {
    && 0 <= k < |spheres|
    && HitSphere(lib, origin, direction, spheres[k]).Some?
    && (forall j :: 0 <= j < |spheres| && HitSphere(lib, origin, direction, spheres[j]).Some? ==>
          HitSphere(lib, origin, direction, spheres[k]).value <= HitSphere(lib, origin, direction, spheres[j]).value)
    && (forall j :: 0 <= j < k && HitSphere(lib, origin, direction, spheres[j]).Some? ==>
          HitSphere(lib, origin, direction, spheres[k]).value < HitSphere(lib, origin, direction, spheres[j]).value)
  }

  /** At most one index is the nearest. */
  lemma NearestIsUnique(lib: MathLib, origin: Vector3, direction: Vector3, spheres: seq<Sphere>, a: int, b: int)
    requires IsNearest(lib, origin, direction, spheres, a)
    requires IsNearest(lib, origin, direction, spheres, b)
    ensures a == b
  {
  }

  /** The running minimum of hitScene's scan: hit_idx and t_min. */
  datatype Nearest = Nearest(index: nat, t: real)

  /**
   * Where hitScene's scan ends (None for hit_idx == -1): after each
   * sphere the running minimum is replaced only by a strictly smaller t.
   */
  function Closest(lib: MathLib, origin: Vector3, direction: Vector3, spheres: seq<Sphere>): (r: Option<Nearest>)
    ensures r.Some? ==> r.value.index < |spheres|
    decreases |spheres|
  {
    if |spheres| == 0 then None
    else
      var k := |spheres| - 1;
      var prev := Closest(lib, origin, direction, spheres[..k]);
      match HitSphere(lib, origin, direction, spheres[k])
      case None => prev
      case Some(t) => if prev.None? || t < prev.value.t then Some(Nearest(k, t)) else prev
  }

  /**
   * The scan finds nothing exactly when no sphere passes hitSphere, and
   * otherwise finds the nearest sphere, the lowest index on ties, together
   * with its hitSphere distance.
   */
  lemma {:induction false} ClosestIsNearest(lib: MathLib, origin: Vector3, direction: Vector3, spheres: seq<Sphere>)
    ensures Closest(lib, origin, direction, spheres).None? <==> !AnyHit(lib, origin, direction, spheres)
    ensures Closest(lib, origin, direction, spheres).Some? ==>
      var n := Closest(lib, origin, direction, spheres).value;
      && HitSphere(lib, origin, direction, spheres[n.index]) == Some(n.t)
      && IsNearest(lib, origin, direction, spheres, n.index)
    decreases |spheres|
  {
    if |spheres| > 0 {
      var k := |spheres| - 1;
      var prefix := spheres[..k];
      ClosestIsNearest(lib, origin, direction, prefix);
      assert forall j :: 0 <= j < k ==> prefix[j] == spheres[j];
      if AnyHit(lib, origin, direction, prefix) {
        var j :| 0 <= j < k && HitSphere(lib, origin, direction, prefix[j]).Some?;
        assert HitSphere(lib, origin, direction, spheres[j]).Some?;
      }
    }
  }

  /** The hit record for sphere s at distance t along the ray. */
  function HitAt(origin: Vector3, direction: Vector3, s: Sphere, t: real): Hit
    requires s.radius > 0.0
  {
    var pos := origin.Plus(direction.Times(t));
    Hit(pos, pos.Minus(s.center).Times(1.0 / s.radius), s.color, s.colorSpec)
  }

  /** What hitScene reports for a ray. */
  function SceneHit(lib: MathLib, origin: Vector3, direction: Vector3, spheres: seq<Sphere>): Option<Hit>
    requires PositiveRadii(spheres)
  {
    match Closest(lib, origin, direction, spheres)
    case None => None
    case Some(n) => Some(HitAt(origin, direction, spheres[n.index], n.t))
  }

  /**
   * hitScene: scans the spheres, keeping the smallest t found so far;
   * reports None when no sphere is hit, otherwise the hit position,
   * normal and colours of the nearest sphere (the first on ties).
   */
  method HitScene(lib: MathLib, origin: Vector3, direction: Vector3, spheres: seq<Sphere>)
    returns (r: Option<Hit>)
    requires PositiveRadii(spheres)
    ensures r == SceneHit(lib, origin, direction, spheres)
  {
    var tMin := 0.0;  // read only once hitIdx != -1
    var hitIdx := -1;
    var hitSph: Sphere := Sphere(Vector3(0.0, 0.0, 0.0), 1.0, Black, Black);
    var i := 0;
    while i < |spheres|
      invariant 0 <= i <= |spheres|
      invariant -1 <= hitIdx < i
      invariant Closest(lib, origin, direction, spheres[..i]) == if hitIdx == -1 then None else Some(Nearest(hitIdx, tMin))
      invariant hitIdx != -1 ==> hitSph == spheres[hitIdx]
    {
      var curr := spheres[i];
      var t := HitSphere(lib, origin, direction, curr);
      if t.Some? {
        if hitIdx == -1 || t.value < tMin {
          hitIdx := i;
          tMin := t.value;
          hitSph := curr;
        }
      }
      assert spheres[..i + 1][..i] == spheres[..i];
      i := i + 1;
    }
    assert spheres[..|spheres|] == spheres;
    if hitIdx == -1 {
      return None;
    }
    var pos := origin.Plus(direction.Times(tMin));
    var normal := pos.Minus(hitSph.center).Times(1.0 / hitSph.radius);
    r := Some(Hit(pos, normal, hitSph.color, hitSph.colorSpec));
  }

  /**
   * On a hit, hitScene's record belongs to the nearest sphere k (the first
   * on ties): position origin + t*direction, normal (position -
   * center) / radius, and k's diffuse and specular colours.
   */
  lemma SceneHitIsNearest(lib: MathLib, origin: Vector3, direction: Vector3, spheres: seq<Sphere>)
    requires PositiveRadii(spheres)
    requires AnyHit(lib, origin, direction, spheres)
    ensures Closest(lib, origin, direction, spheres).Some?
    ensures var k := Closest(lib, origin, direction, spheres).value.index;
      var t := Closest(lib, origin, direction, spheres).value.t;
      var h := SceneHit(lib, origin, direction, spheres);
      && IsNearest(lib, origin, direction, spheres, k)
      && HitSphere(lib, origin, direction, spheres[k]) == Some(t)
      && h.Some?
      && h.value.pos == origin.Plus(direction.Times(t))
      && h.value.normal == h.value.pos.Minus(spheres[k].center).Times(1.0 / spheres[k].radius)
      && h.value.color == spheres[k].color
      && h.value.spec == spheres[k].colorSpec
  {
    ClosestIsNearest(lib, origin, direction, spheres);
  }

  /**
   * The pair of spheres of the nearest-hit test: A at (0,0,-5) and B at
   * (0,0,-3), both of radius 1, seen from the origin along -z. B, at
   * distance 2, is reported although A comes first in the list.
   */
  lemma NearerSphereWins(lib: MathLib)
    requires lib.ExactSqrt()
    ensures var a := Sphere(Vector3(0.0, 0.0, -5.0), 1.0, Black, Black);
      var b := Sphere(Vector3(0.0, 0.0, -3.0), 1.0, Black, Black);
      var o := Vector3(0.0, 0.0, 0.0);
      var d := Vector3(0.0, 0.0, -1.0);
      && HitSphere(lib, o, d, a) == Some(4.0)
      && HitSphere(lib, o, d, b) == Some(2.0)
      && Closest(lib, o, d, [a, b]) == Some(Nearest(1, 2.0))
  {
    var a := Sphere(Vector3(0.0, 0.0, -5.0), 1.0, Black, Black);
    var b := Sphere(Vector3(0.0, 0.0, -3.0), 1.0, Black, Black);
    var o := Vector3(0.0, 0.0, 0.0);
    var d := Vector3(0.0, 0.0, -1.0);
    SqrtOfSquare(lib, 1.0);
    AxisHit(lib, a, 5.0);
    AxisHit(lib, b, 3.0);
    assert [a, b][..1] == [a];
    assert [a][..0] == [];
  }

  /** With an exact square root, sqrt(x * x) == x for x >= 0. */
  lemma SqrtOfSquare(lib: MathLib, x: real)
    requires lib.ExactSqrt()
    requires 0.0 <= x
    ensures lib.sqrt(x * x) == x
  {
    var q := lib.sqrt(x * x);
    assert 0.0 <= q && q * q == x * x;
    if q < x {
      SquareMonotone(q, x);
    } else if x < q {
      SquareMonotone(x, q);
    }
  }

  lemma SquareMonotone(a: real, b: real)
    requires 0.0 <= a < b
    ensures a * a < b * b
  {
    MulPositive(b - a, b + a);
    assert (b - a) * (b + a) == b * b - a * a;
  }

  lemma MulPositive(x: real, y: real)
    requires 0.0 < x && 0.0 < y
    ensures 0.0 < x * y
  {
  }

  /**
   * A unit sphere centred at (0, 0, -z) with z > 1 is hit at distance
   * z - 1 by the ray from the origin along -z.
   */
  lemma AxisHit(lib: MathLib, s: Sphere, z: real)
    requires lib.ExactSqrt()
    requires 1.0 < z
    requires s.center == Vector3(0.0, 0.0, -z) && s.radius == 1.0
    ensures HitSphere(lib, Vector3(0.0, 0.0, 0.0), Vector3(0.0, 0.0, -1.0), s) == Some(z - 1.0)
  {
    SqrtOfSquare(lib, 1.0);
    var o := Vector3(0.0, 0.0, 0.0);
    var d := Vector3(0.0, 0.0, -1.0);
    var u := o.Minus(s.center);
    assert u == Vector3(0.0, 0.0, z);
    var c := lib.Norm(u);
    assert c * c == z * z;
    assert u.Dot(d) == -z;
    assert Discriminant(lib, o, d, s) == 1.0;
  }

  // ---------------------------------------------------------------------
  // Shading
  // ---------------------------------------------------------------------

  /** The unit vector from a point toward a light. */
  function LightDirection(lib: MathLib, from: Vector3, light: Light): Vector3 {
    lib.normalize(light.pos.Minus(from))
  }

  /** hitScene reports a hit for the shadow ray from the point toward the light. */
  predicate Shadowed(lib: MathLib, scene: Scene, from: Vector3, light: Light) {
    Closest(lib, from, LightDirection(lib, from, light), scene.spheres).Some?
  }

  /**
   * The shadow test through hitScene holds exactly when some sphere of the
   * scene passes hitSphere for the ray from the point toward the light.
   */
  lemma ShadowedIffSphereHit(lib: MathLib, scene: Scene, from: Vector3, light: Light)
    ensures Shadowed(lib, scene, from, light) <==> AnyHit(lib, from, LightDirection(lib, from, light), scene.spheres)
  {
    ClosestIsNearest(lib, from, LightDirection(lib, from, light), scene.spheres);
  }

  function MaxZero(x: real): real {
    if x > 0.0 then x else 0.0
  }

  /** hit_color * light_color * max(inner, 0), channel by channel. */
  function Diffuse(h: Hit, light: Light, inner: real): Color {
    h.color.Modulate(light.color).Modulate(Color(MaxZero(inner), MaxZero(inner), MaxZero(inner)))
  }

  /** r = -l + 2 * inner * n: the light direction mirrored about the normal. */
  function Reflection(n: Vector3, l: Vector3, inner: real): Vector3 {
    Vector3(-l.x + 2.0 * n.x * inner, -l.y + 2.0 * n.y * inner, -l.z + 2.0 * n.z * inner)
  }

  /** hit_spec * light_color * pow(max(v.r, 0), shininess), channel by channel. */
  function Specular(lib: MathLib, h: Hit, light: Light, camera: Vector3, l: Vector3, inner: real): Color {
    var v := lib.normalize(camera.Minus(h.pos));
    var r := lib.normalize(Reflection(h.normal, l, inner));
    SpecularTerm(h, light, lib.pow(MaxZero(v.Dot(r)), Shininess))
  }

  /** hit_spec * light_color * faim, channel by channel. */
  function SpecularTerm(h: Hit, light: Light, faim: real): Color {
    h.spec.Modulate(light.color).Modulate(Color(faim, faim, faim))
  }

  /** What one light adds at the hit point: nothing when it is shadowed. */
  function Contribution(lib: MathLib, h: Hit, scene: Scene, light: Light): Color {
    if Shadowed(lib, scene, h.pos, light) then Black
    else
      var l := LightDirection(lib, h.pos, light);
      var inner := h.normal.Dot(l);
      Diffuse(h, light, inner).Plus(Specular(lib, h, light, scene.camera, l, inner))
  }

  /** The contribution of each light, in list order. */
  function LightTerms(lib: MathLib, h: Hit, scene: Scene, lights: seq<Light>): (cs: seq<Color>)
    ensures |cs| == |lights|
    decreases |lights|
  {
    if lights == [] then []
    else LightTerms(lib, h, scene, lights[..|lights| - 1]) + [Contribution(lib, h, scene, lights[|lights| - 1])]
  }

  /** The channel-by-channel sum of a list of colours. */
  function Sum(cs: seq<Color>): Color
    decreases |cs|
  {
    if cs == [] then Black else Sum(cs[..|cs| - 1]).Plus(cs[|cs| - 1])
  }

  /** The sum of the contributions of the lights. */
  function Lighting(lib: MathLib, h: Hit, scene: Scene, lights: seq<Light>): Color {
    Sum(LightTerms(lib, h, scene, lights))
  }

  /** Ambient term plus every unshadowed light's diffuse and specular terms. */
  function Shading(lib: MathLib, h: Hit, scene: Scene): Color {
    h.color.Modulate(scene.ambient).Plus(Lighting(lib, h, scene, scene.lights))
  }

  /**
   * shade: adds the ambient term to color, then, for each light in turn,
   * casts a shadow ray and adds the diffuse and specular terms only when
   * that ray hits nothing.
   */
  method Shade(lib: MathLib, h: Hit, scene: Scene, color0: Color) returns (color: Color)
    requires PositiveRadii(scene.spheres)
    ensures color == color0.Plus(h.color.Modulate(scene.ambient)).Plus(Lighting(lib, h, scene, scene.lights))
  {
    var v := lib.normalize(scene.camera.Minus(h.pos));
    color := color0.Plus(h.color.Modulate(scene.ambient));
    ghost var base := color;
    ghost var terms := LightTerms(lib, h, scene, scene.lights);
    var l := 0;
    assert terms[..0] == [];
    while l < |scene.lights|
      invariant 0 <= l <= |scene.lights|
      invariant color == base.Plus(Sum(terms[..l]))
    {
      ghost var before := color;
      color := AddLight(lib, h, scene, scene.lights[l], v, color);
      LightTermsAt(lib, h, scene, scene.lights, l);
      SumStep(terms, l);
      PlusAssoc(base, Sum(terms[..l]), terms[l]);
      l := l + 1;
    }
    assert terms[..|scene.lights|] == terms;
  }

  /**
   * The body of shade's light loop for one light: casts the shadow ray
   * and, only when it hits nothing, adds the diffuse and then the specular
   * term, channel by channel.
   */
  method AddLight(lib: MathLib, h: Hit, scene: Scene, lt: Light, v: Vector3, color0: Color) returns (color: Color)
    requires PositiveRadii(scene.spheres)
    requires v == lib.normalize(scene.camera.Minus(h.pos))
    ensures color == color0.Plus(Contribution(lib, h, scene, lt))
  {
    color := color0;
    var light := lib.normalize(lt.pos.Minus(h.pos));
    var shadow := HitScene(lib, h.pos, light, scene.spheres);
    if shadow.None? {
      light := lib.normalize(lt.pos.Minus(h.pos));
      color := AddPhong(lib, h, lt, v, light, color);
    }
  }

  /**
   * The diffuse and then the specular term of one visible light, added
   * channel by channel; l is the unit direction toward the light and v
   * the unit direction toward the camera.
   */
  method AddPhong(lib: MathLib, h: Hit, lt: Light, v: Vector3, light: Vector3, color0: Color) returns (color: Color)
    ensures var inner := h.normal.Dot(light);
      var faim := lib.pow(MaxZero(v.Dot(lib.normalize(Reflection(h.normal, light, inner)))), Shininess);
      color == color0.Plus(Diffuse(h, lt, inner).Plus(SpecularTerm(h, lt, faim)))
  {
    var inner := h.normal.Dot(light);
    color := color0.Plus(Diffuse(h, lt, inner));
    var r := Reflection(h.normal, light, inner);
    r := lib.normalize(r);
    var fai := v.Dot(r);
    var faim := lib.pow(MaxZero(fai), Shininess);
    color := color.Plus(SpecularTerm(h, lt, faim));
    PlusAssoc(color0, Diffuse(h, lt, inner), SpecularTerm(h, lt, faim));
  }

  /** Entry i of the list of contributions is the contribution of light i. */
  lemma {:induction false} LightTermsAt(lib: MathLib, h: Hit, scene: Scene, lights: seq<Light>, i: nat)
    requires i < |lights|
    ensures LightTerms(lib, h, scene, lights)[i] == Contribution(lib, h, scene, lights[i])
    decreases |lights|
  {
    var n := |lights| - 1;
    if i < n {
      LightTermsAt(lib, h, scene, lights[..n], i);
    }
  }

  /** The contributions of a concatenation are the concatenated contributions. */
  lemma {:induction false} LightTermsSplit(lib: MathLib, h: Hit, scene: Scene, a: seq<Light>, b: seq<Light>)
    ensures LightTerms(lib, h, scene, a + b) == LightTerms(lib, h, scene, a) + LightTerms(lib, h, scene, b)
    decreases |b|
  {
    if b == [] {
      assert a + b == a;
    } else {
      var k := |b| - 1;
      assert (a + b)[..|a + b| - 1] == a + b[..k];
      LightTermsSplit(lib, h, scene, a, b[..k]);
    }
  }

  /** Adding the next entry of a list to the sum of its prefix. */
  lemma SumStep(cs: seq<Color>, l: nat)
    requires l < |cs|
    ensures Sum(cs[..l + 1]) == Sum(cs[..l]).Plus(cs[l])
  {
    assert cs[..l + 1][..l] == cs[..l];
  }

  lemma PlusAssoc(a: Color, b: Color, c: Color)
    ensures a.Plus(b).Plus(c) == a.Plus(b.Plus(c))
  {
  }

  /** The sum of a concatenation is the sum of the two sums. */
  lemma {:induction false} SumSplit(x: seq<Color>, y: seq<Color>)
    ensures Sum(x + y) == Sum(x).Plus(Sum(y))
    decreases |y|
  {
    if y == [] {
      assert x + y == x;
    } else {
      var k := |y| - 1;
      assert (x + y)[..|x + y| - 1] == x + y[..k];
      SumSplit(x, y[..k]);
    }
  }

  /** The lighting of a concatenation is the sum of the two lightings. */
  lemma LightingSplit(lib: MathLib, h: Hit, scene: Scene, a: seq<Light>, b: seq<Light>)
    ensures Lighting(lib, h, scene, a + b) == Lighting(lib, h, scene, a).Plus(Lighting(lib, h, scene, b))
  {
    LightTermsSplit(lib, h, scene, a, b);
    SumSplit(LightTerms(lib, h, scene, a), LightTerms(lib, h, scene, b));
  }

  /** A shadowed light contributes nothing: adding it leaves the lighting unchanged. */
  lemma ShadowedLightAddsNothing(lib: MathLib, h: Hit, scene: Scene, lights: seq<Light>, light: Light)
    requires Shadowed(lib, scene, h.pos, light)
    ensures Lighting(lib, h, scene, lights + [light]) == Lighting(lib, h, scene, lights)
  {
    LightingSplit(lib, h, scene, lights, [light]);
    assert [light][..0] == [];
  }

  /** A sum of blacks is black. */
  lemma {:induction false} SumOfBlack(cs: seq<Color>)
    requires forall i :: 0 <= i < |cs| ==> cs[i] == Black
    ensures Sum(cs) == Black
    decreases |cs|
  {
    if cs != [] {
      SumOfBlack(cs[..|cs| - 1]);
    }
  }

  /** If every light is shadowed the lighting is black. */
  lemma AllShadowedIsBlack(lib: MathLib, h: Hit, scene: Scene, lights: seq<Light>)
    requires forall i :: 0 <= i < |lights| ==> Shadowed(lib, scene, h.pos, lights[i])
    ensures Lighting(lib, h, scene, lights) == Black
  {
    var cs := LightTerms(lib, h, scene, lights);
    forall i | 0 <= i < |cs|
      ensures cs[i] == Black
    {
      LightTermsAt(lib, h, scene, lights, i);
    }
    SumOfBlack(cs);
  }

  /** A point that sees none of the lights gets the ambient term only. */
  lemma FullShadowGivesAmbient(lib: MathLib, h: Hit, scene: Scene)
    requires forall i :: 0 <= i < |scene.lights| ==> Shadowed(lib, scene, h.pos, scene.lights[i])
    ensures Shading(lib, h, scene) == h.color.Modulate(scene.ambient)
  {
    AllShadowedIsBlack(lib, h, scene, scene.lights);
  }

  /** a, b, c >= 0 implies a*b*c >= 0. */
  lemma TripleProductNonNegative(a: real, b: real, c: real)
    requires 0.0 <= a && 0.0 <= b && 0.0 <= c
    ensures 0.0 <= a * b * c
  {
    MulNonNegative(a, b);
    MulNonNegative(a * b, c);
  }

  lemma MulNonNegative(x: real, y: real)
    requires 0.0 <= x && 0.0 <= y
    ensures 0.0 <= x * y
  {
  }

  /**
   * With non-negative material and light colours and a pow that is
   * non-negative on non-negative bases, one light only ever brightens.
   */
  lemma ContributionNonNegative(lib: MathLib, h: Hit, scene: Scene, light: Light)
    requires lib.PowNonNegative()
    requires h.color.NonNegative() && h.spec.NonNegative() && light.color.NonNegative()
    ensures Contribution(lib, h, scene, light).NonNegative()
  {
    if !Shadowed(lib, scene, h.pos, light) {
      var l := LightDirection(lib, h.pos, light);
      var inner := h.normal.Dot(l);
      DiffuseNonNegative(h, light, inner);
      var v := lib.normalize(scene.camera.Minus(h.pos));
      var r := lib.normalize(Reflection(h.normal, l, inner));
      var faim := lib.pow(MaxZero(v.Dot(r)), Shininess);
      SpecularTermNonNegative(h, light, faim);
    }
  }

  lemma DiffuseNonNegative(h: Hit, light: Light, inner: real)
    requires h.color.NonNegative() && light.color.NonNegative()
    ensures Diffuse(h, light, inner).NonNegative()
  {
    var f := MaxZero(inner);
    TripleProductNonNegative(h.color.red, light.color.red, f);
    TripleProductNonNegative(h.color.green, light.color.green, f);
    TripleProductNonNegative(h.color.blue, light.color.blue, f);
  }

  lemma SpecularTermNonNegative(h: Hit, light: Light, faim: real)
    requires h.spec.NonNegative() && light.color.NonNegative() && 0.0 <= faim
    ensures SpecularTerm(h, light, faim).NonNegative()
  {
    TripleProductNonNegative(h.spec.red, light.color.red, faim);
    TripleProductNonNegative(h.spec.green, light.color.green, faim);
    TripleProductNonNegative(h.spec.blue, light.color.blue, faim);
  }

  /** A sum of non-negative colours is non-negative. */
  lemma {:induction false} SumNonNegative(cs: seq<Color>)
    requires forall i :: 0 <= i < |cs| ==> cs[i].NonNegative()
    ensures Sum(cs).NonNegative()
    decreases |cs|
  {
    if cs != [] {
      SumNonNegative(cs[..|cs| - 1]);
    }
  }

  /** Under the same assumptions, the lights together only ever brighten. */
  lemma LightingNonNegative(lib: MathLib, h: Hit, scene: Scene, lights: seq<Light>)
    requires lib.PowNonNegative()
    requires h.color.NonNegative() && h.spec.NonNegative()
    requires forall i :: 0 <= i < |lights| ==> lights[i].color.NonNegative()
    ensures Lighting(lib, h, scene, lights).NonNegative()
  {
    var cs := LightTerms(lib, h, scene, lights);
    forall i | 0 <= i < |cs|
      ensures cs[i].NonNegative()
    {
      LightTermsAt(lib, h, scene, lights, i);
      ContributionNonNegative(lib, h, scene, lights[i]);
    }
    SumNonNegative(cs);
  }

  // ---------------------------------------------------------------------
  // One primary ray
  // ---------------------------------------------------------------------

  /** The colour rayTrace computes for a ray, or None when it misses. */
  function Traced(lib: MathLib, origin: Vector3, direction: Vector3, scene: Scene): Option<Color>
    requires PositiveRadii(scene.spheres)
  {
    match SceneHit(lib, origin, direction, scene.spheres)
    case None => None
    case Some(h) => Some(Shading(lib, h, scene))
  }

  /**
   * rayTrace: on a hit, starts the colour at black and shades the nearest
   * hit point; on a miss reports None and the colour is left alone.
   */
  method RayTrace(lib: MathLib, origin: Vector3, direction: Vector3, scene: Scene) returns (color: Option<Color>)
    requires PositiveRadii(scene.spheres)
    ensures color == Traced(lib, origin, direction, scene)
  {
    var hit := HitScene(lib, origin, direction, scene.spheres);
    if hit.None? {
      return None;
    }
    var c := Black;
    c := Shade(lib, hit.value, scene, c);
    color := Some(c);
  }

  // ---------------------------------------------------------------------
  // The pixel loop
  // ---------------------------------------------------------------------

  /** The normalised direction from the camera through pixel (row i, column j). */
  function PrimaryDirection(lib: MathLib, scene: Scene, width: nat, height: nat, i: nat, j: nat): Vector3 {
    var x := ScreenCoordinate(scene.scale, j, width);
    var y := ScreenCoordinate(scene.scale, i, height);
    lib.normalize(Vector3(x - scene.camera.x, y - scene.camera.y, -scene.camera.z))
  }

  /** The scene-space coordinate of pixel index k on an axis of n pixels. */
  function ScreenCoordinate(scale: real, k: nat, n: nat): real {
    scale * (k as real) - 0.5 * scale * (n as real)
  }

  /**
   * The pixel (i, j) at the middle of the raster, 2i = height and
   * 2j = width, sits at the origin of the screen plane z = 0, so its
   * primary ray aims from the camera at that origin.
   */
  lemma PrimaryDirectionAtCentre(lib: MathLib, scene: Scene, width: nat, height: nat, i: nat, j: nat)
    requires height == 2 * i && width == 2 * j
    ensures PrimaryDirection(lib, scene, width, height, i, j)
      == lib.normalize(Vector3(-scene.camera.x, -scene.camera.y, -scene.camera.z))
  {
    HalfScaleCancels(scene.scale, j, width);
    HalfScaleCancels(scene.scale, i, height);
    assert Vector3(ScreenCoordinate(scene.scale, j, width) - scene.camera.x,
                   ScreenCoordinate(scene.scale, i, height) - scene.camera.y, -scene.camera.z)
      == Vector3(-scene.camera.x, -scene.camera.y, -scene.camera.z);
  }

  lemma HalfScaleCancels(scale: real, k: nat, n: nat)
    requires n == 2 * k
    ensures ScreenCoordinate(scale, k, n) == 0.0
  {
    assert (n as real) == 2.0 * (k as real);
  }

  /** A pixel after the pixel loop, given its colour before. */
  function PixelAfter(lib: MathLib, scene: Scene, width: nat, height: nat, i: nat, j: nat, before: Color): Color
    requires PositiveRadii(scene.spheres)
  {
    match Traced(lib, scene.camera, PrimaryDirection(lib, scene, width, height, i, j), scene)
    case None => before
    case Some(c) => Clamped(c, 0.0, 1.0)
  }

  /**
   * The pixel loop of rayTraceScene: a pixel is overwritten, with the
   * shaded colour clamped to [0, 1], only when its primary ray hits.
   */
  method TracePixels(lib: MathLib, scene: Scene, image: array2<Color>)
    requires PositiveRadii(scene.spheres)
    modifies image
    ensures forall i, j :: 0 <= i < image.Length0 && 0 <= j < image.Length1 ==>
      image[i, j] == PixelAfter(lib, scene, image.Length1, image.Length0, i, j, old(image[i, j]))
  {
    var i := 0;
    while i < image.Length0
      invariant 0 <= i <= image.Length0
      invariant forall i', j' :: 0 <= i' < i && 0 <= j' < image.Length1 ==>
        image[i', j'] == PixelAfter(lib, scene, image.Length1, image.Length0, i', j', old(image[i', j']))
      invariant forall i', j' :: i <= i' < image.Length0 && 0 <= j' < image.Length1 ==>
        image[i', j'] == old(image[i', j'])
    {
      TraceRow(lib, scene, image, i);
      i := i + 1;
    }
  }

  /** One row of the pixel loop: only row i changes. */
  method TraceRow(lib: MathLib, scene: Scene, image: array2<Color>, i: nat)
    requires PositiveRadii(scene.spheres)
    requires i < image.Length0
    modifies image
    ensures forall j :: 0 <= j < image.Length1 ==>
      image[i, j] == PixelAfter(lib, scene, image.Length1, image.Length0, i, j, old(image[i, j]))
    ensures forall i', j' :: 0 <= i' < image.Length0 && i' != i && 0 <= j' < image.Length1 ==>
      image[i', j'] == old(image[i', j'])
  {
    var j := 0;
    while j < image.Length1
      invariant 0 <= j <= image.Length1
      invariant forall j' :: 0 <= j' < j ==>
        image[i, j'] == PixelAfter(lib, scene, image.Length1, image.Length0, i, j', old(image[i, j']))
      invariant forall i', j' :: 0 <= i' < image.Length0 && 0 <= j' < image.Length1 && (i' != i || j' >= j) ==>
        image[i', j'] == old(image[i', j'])
    {
      var direction := PrimaryDirection(lib, scene, image.Length1, image.Length0, i, j);
      var origin := scene.camera;
      var color := RayTrace(lib, origin, direction, scene);
      if color.Some? {
        var c := Clamp(color.value, 0.0, 1.0);
        image[i, j] := c;
      }
      j := j + 1;
    }
  }

  // ---------------------------------------------------------------------
  // Packing into bytes
  // ---------------------------------------------------------------------

  /** Conversion of a float to an integer: truncation toward zero. */
  function Truncate(x: real): int {
    if 0.0 <= x then x.Floor else -((-x).Floor)
  }

  /**
   * (unsigned char)(x * 255): truncation, then reduction modulo 256. For a
   * channel in [0, 1] this is floor(255 x).
   */
  function ChannelByte(x: real): (b: byte)
    ensures 0.0 <= x <= 1.0 ==> b as int == (x * 255.0).Floor
  {
    (Truncate(x * 255.0) % 256) as byte
  }

  /** The byte values of the channels 0, 0.5 and 1. */
  lemma ChannelByteSamples()
    ensures ChannelByte(0.0) == 0 && ChannelByte(0.5) == 127 && ChannelByte(1.0) == 255
  {
  }

  /** R, G, B bytes of one pixel. */
  function PixelBytes(c: Color): seq<byte> {
    [ChannelByte(c.red), ChannelByte(c.green), ChannelByte(c.blue)]
  }

  /** The bytes of a row of pixels, left to right. */
  function PackRow(row: seq<Color>): (r: seq<byte>)
    ensures |r| == 3 * |row|
    decreases |row|
  {
    if row == [] then [] else PackRow(row[..|row| - 1]) + PixelBytes(row[|row| - 1])
  }

  /** The bytes of a raster, row after row. */
  function Pack(rows: seq<seq<Color>>, width: nat): (r: seq<byte>)
    requires forall i :: 0 <= i < |rows| ==> |rows[i]| == width
    ensures |r| == 3 * width * |rows|
    decreases |rows|
  {
    if rows == [] then [] else Pack(rows[..|rows| - 1], width) + PackRow(rows[|rows| - 1])
  }

  /** Packing one more row appends that row's bytes. */
  lemma PackStep(rows: seq<seq<Color>>, width: nat, i: nat)
    requires forall r :: 0 <= r < |rows| ==> |rows[r]| == width
    requires i < |rows|
    ensures Pack(rows[..i + 1], width) == Pack(rows[..i], width) + PackRow(rows[i])
  {
    assert rows[..i + 1][..i] == rows[..i];
  }

  /** A buffer holding the packing of row[..j] followed by the bytes of pixel j holds the packing of row[..j + 1]. */
  lemma PackRowGrows(t: seq<byte>, row: seq<Color>, j: nat, start: nat, count: nat)
    requires j < |row| && start <= count && count + 3 <= |t|
    requires t[start..count] == PackRow(row[..j])
    requires t[count..count + 3] == PixelBytes(row[j])
    ensures t[start..count + 3] == PackRow(row[..j + 1])
  {
    assert row[..j + 1][..j] == row[..j];
    assert t[start..count + 3] == t[start..count] + t[count..count + 3];
  }

  /** A buffer holding the packing of rows[..i] followed by row i holds the packing of rows[..i + 1]. */
  lemma PackGrows(t: seq<byte>, rows: seq<seq<Color>>, width: nat, i: nat, count: nat, next: nat)
    requires forall r :: 0 <= r < |rows| ==> |rows[r]| == width
    requires i < |rows| && count <= next <= |t|
    requires t[..count] == Pack(rows[..i], width)
    requires t[count..next] == PackRow(rows[i])
    ensures t[..next] == Pack(rows[..i + 1], width)
  {
    assert t[..next] == t[..count] + t[count..next];
    PackStep(rows, width, i);
  }

  /** Byte 3j + k of a packed row is channel k of pixel j. */
  lemma {:induction false} PackRowAt(row: seq<Color>, j: nat, k: nat)
    requires j < |row| && k < 3
    ensures PackRow(row)[3 * j + k] == ChannelByte(row[j].Channel(k))
    decreases |row|
  {
    var n := |row| - 1;
    if j < n {
      PackRowAt(row[..n], j, k);
    } else {
      assert |PackRow(row[..n])| == 3 * n;
    }
  }

  /** Byte 3(i*width + j) + k of a packed raster is channel k of pixel (i, j). */
  lemma {:induction false} PackAt(rows: seq<seq<Color>>, width: nat, i: nat, j: nat, k: nat)
    requires forall r :: 0 <= r < |rows| ==> |rows[r]| == width
    requires i < |rows| && j < width && k < 3
    ensures 3 * (i * width + j) + k < |Pack(rows, width)|
    ensures Pack(rows, width)[3 * (i * width + j) + k] == ChannelByte(rows[i][j].Channel(k))
    decreases |rows|
  {
    var n := |rows| - 1;
    var prefix := Pack(rows[..n], width);
    assert |prefix| == 3 * width * n;
    if i < n {
      assert i * width + j < (i + 1) * width <= n * width by {
        assert (i + 1) * width == i * width + width;
        assert i + 1 <= n;
        MulMonotone(i + 1, n, width);
      }
      PackAt(rows[..n], width, i, j, k);
    } else {
      assert 3 * (i * width + j) + k == |prefix| + 3 * j + k;
      PackRowAt(rows[n], j, k);
    }
  }

  /** One more row of rowLen bytes still fits below rowLen * h. */
  lemma RowFits(rowLen: nat, i: nat, h: nat)
    requires i < h
    ensures rowLen * (i + 1) == rowLen * i + rowLen <= rowLen * h
  {
    assert rowLen * (i + 1) == rowLen * i + rowLen;
    MulLeft(rowLen, i + 1, h);
  }

  lemma MulLeft(c: nat, a: nat, b: nat)
    requires a <= b
    ensures c * a <= c * b
  {
    assert c * b == c * a + c * (b - a);
  }

  lemma NatProduct(a: nat, b: nat)
    ensures 0 <= a * b
  {
  }

  lemma MulMonotone(a: nat, b: nat, c: nat)
    requires a <= b
    ensures a * c <= b * c
  {
  }

  /** The raster as rows of colours. */
  ghost function Rows(image: array2<Color>): (rows: seq<seq<Color>>)
    reads image
    ensures |rows| == image.Length0
    ensures forall i :: 0 <= i < image.Length0 ==> |rows[i]| == image.Length1
    ensures forall i, j :: 0 <= i < image.Length0 && 0 <= j < image.Length1 ==> rows[i][j] == image[i, j]
  {
    seq(image.Length0, i requires 0 <= i < image.Length0 reads image => seq(image.Length1, j reads image requires 0 <= i < image.Length0 && 0 <= j < image.Length1 => image[i, j]))
  }

  /**
   * saveRaw: allocates 3 * width * height bytes and writes the R, G, B
   * bytes of every pixel in row-major order, advancing a running count.
   */
  method SaveRaw(image: array2<Color>) returns (texture: array<byte>)
    ensures fresh(texture)
    ensures texture.Length == 3 * image.Length1 * image.Length0
    ensures texture[..] == Pack(Rows(image), image.Length1)
  {
    var height, width := image.Length0, image.Length1;
    ghost var rows := Rows(image);
    texture := new byte[3 * width * height];
    ghost var rowLen := 3 * width;
    var count := 0;
    var i := 0;
    while i < height
      invariant 0 <= i <= height
      invariant count == rowLen * i
      invariant texture[..count] == Pack(rows[..i], width)
    {
      RowFits(rowLen, i, height);
      var next := SaveRow(image, i, texture, count);
      PackGrows(texture[..], rows, width, i, count, next);
      assert next == rowLen * (i + 1);
      count := next;
      i := i + 1;
    }
    assert rows[..height] == rows;
    assert texture[..] == texture[..count];
  }

  /** The three byte stores of one pixel at position count. */
  method PutPixel(texture: array<byte>, count: nat, c: Color)
    requires count + 3 <= texture.Length
    modifies texture
    ensures texture[..count] == old(texture[..count])
    ensures texture[count..count + 3] == PixelBytes(c)
    ensures texture[count + 3..] == old(texture[count + 3..])
  {
    var red := ChannelByte(c.red);
    var green := ChannelByte(c.green);
    var blue := ChannelByte(c.blue);
    texture[count] := red;
    texture[count + 1] := green;
    texture[count + 2] := blue;
  }

  /**
   * One row of saveRaw's loop: writes the bytes of row i from position
   * start on and leaves the bytes before start alone.
   */
  method SaveRow(image: array2<Color>, i: nat, texture: array<byte>, start: nat) returns (count: nat)
    requires i < image.Length0
    requires start + 3 * image.Length1 <= texture.Length
    modifies texture
    ensures count == start + 3 * image.Length1
    ensures texture[..start] == old(texture[..start])
    ensures texture[start..count] == PackRow(Rows(image)[i])
    ensures texture[count..] == old(texture[count..])
  {
    ghost var row := Rows(image)[i];
    count := start;
    var j := 0;
    while j < image.Length1
      invariant 0 <= j <= image.Length1
      invariant count == start + 3 * j
      invariant texture[..start] == old(texture[..start])
      invariant texture[start..count] == PackRow(row[..j])
      invariant texture[count..] == old(texture[count..])
    {
      PutPixel(texture, count, image[i, j]);
      PackRowGrows(texture[..], row, j, start, count);
      count := count + 3;
      j := j + 1;
    }
    assert row[..image.Length1] == row;
  }

  // ---------------------------------------------------------------------
  // The whole frame
  // ---------------------------------------------------------------------

  /** The final colour of pixel (i, j): the clamped shading on a hit, the background on a miss. */
  function PixelColor(lib: MathLib, scene: Scene, width: nat, height: nat, i: nat, j: nat): Color
    requires PositiveRadii(scene.spheres)
  {
    PixelAfter(lib, scene, width, height, i, j, scene.background)
  }

  /** The rendered raster. */
  ghost function Render(lib: MathLib, scene: Scene, width: nat, height: nat): (rows: seq<seq<Color>>)
    requires PositiveRadii(scene.spheres)
    ensures |rows| == height
    ensures forall i :: 0 <= i < height ==> |rows[i]| == width
  {
    seq(height, i requires 0 <= i < height => seq(width, j requires 0 <= i < height && 0 <= j < width => PixelColor(lib, scene, width, height, i, j)))
  }

  /**
   * rayTraceScene: fills a fresh raster with the background, runs the
   * pixel loop and packs the result into 3 * width * height bytes; byte
   * 3(i*width + j) + k is channel k of pixel (i, j).
   */
  method RayTraceScene(lib: MathLib, scene: Scene, width: nat, height: nat) returns (texture: array<byte>)
    requires PositiveRadii(scene.spheres)
    ensures fresh(texture)
    ensures texture.Length == 3 * width * height
    ensures texture[..] == Pack(Render(lib, scene, width, height), width)
  {
    var image := new Color[height, width];
    InitImageWithBackground(scene.background, image);
    TracePixels(lib, scene, image);
    assert Rows(image) == Render(lib, scene, width, height) by {
      forall i | 0 <= i < height
        ensures Rows(image)[i] == Render(lib, scene, width, height)[i]
      {
      }
    }
    texture := SaveRaw(image);
  }

  /** A pixel whose primary ray hits no sphere keeps the background colour. */
  lemma MissKeepsBackground(lib: MathLib, scene: Scene, width: nat, height: nat, i: nat, j: nat)
    requires PositiveRadii(scene.spheres)
    requires !AnyHit(lib, scene.camera, PrimaryDirection(lib, scene, width, height, i, j), scene.spheres)
    ensures PixelColor(lib, scene, width, height, i, j) == scene.background
  {
    ClosestIsNearest(lib, scene.camera, PrimaryDirection(lib, scene, width, height, i, j), scene.spheres);
  }

  /**
   * A pixel whose primary ray hits gets the clamped shading of the nearest
   * hit point, started from black; its bytes are floor(255 x) of its
   * channels.
   */
  lemma HitPixelIsShaded(lib: MathLib, scene: Scene, width: nat, height: nat, i: nat, j: nat, k: nat)
    requires PositiveRadii(scene.spheres)
    requires AnyHit(lib, scene.camera, PrimaryDirection(lib, scene, width, height, i, j), scene.spheres)
    requires k < 3
    ensures var d := PrimaryDirection(lib, scene, width, height, i, j);
      var h := SceneHit(lib, scene.camera, d, scene.spheres);
      && h.Some?
      && PixelColor(lib, scene, width, height, i, j) == Clamped(Shading(lib, h.value, scene), 0.0, 1.0)
      && InRange(PixelColor(lib, scene, width, height, i, j), 0.0, 1.0)
      && ChannelByte(PixelColor(lib, scene, width, height, i, j).Channel(k)) as int
         == (PixelColor(lib, scene, width, height, i, j).Channel(k) * 255.0).Floor
  {
    ClosestIsNearest(lib, scene.camera, PrimaryDirection(lib, scene, width, height, i, j), scene.spheres);
  }

  /** Byte 3(i*width + j) + k of the frame is channel k of pixel (i, j). */
  lemma FrameByteAt(lib: MathLib, scene: Scene, width: nat, height: nat, i: nat, j: nat, k: nat)
    requires PositiveRadii(scene.spheres)
    requires i < height && j < width && k < 3
    ensures var bytes := Pack(Render(lib, scene, width, height), width);
      var n := 3 * (i * width + j) + k;
      && |bytes| == 3 * width * height
      && 0 <= n < |bytes|
      && bytes[n] == ChannelByte(PixelColor(lib, scene, width, height, i, j).Channel(k))
  {
    NatProduct(i, width);
    PackAt(Render(lib, scene, width, height), width, i, j, k);
  }
}
