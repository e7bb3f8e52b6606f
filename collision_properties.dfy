/**
 * Properties of the collision tests that relate several calls, or relate
 * a test to an independent geometric reading of what it decides.
 */
module CollisionProperties {
  import opened Wrappers
  import opened Vectors
  import opened RealArith
  import opened Collisions

  // ---------------------------------------------------------------------
  // Squared distance and sphere-sphere

  lemma DistanceSqSymmetric(p: Vec4, q: Vec4)
    ensures DistanceSq(p, q) == DistanceSq(q, p)
  {
  }

  lemma DistanceSqIgnoresW(p: Vec4, q: Vec4, wp: real, wq: real)
    ensures DistanceSq(p.(w := wp), q.(w := wq)) == DistanceSq(p, q)
  {
  }

  lemma SphereSphereSymmetric(s1: BoundingSphere, s2: BoundingSphere)
    ensures SphereSphere(s1, s2) == SphereSphere(s2, s1)
  {
    DistanceSqSymmetric(s1.center, s2.center);
  }

  /** Enlarging the radii (while their sum stays non-negative) never turns a collision into a miss. */
  lemma SphereSphereGrow(s1: BoundingSphere, s2: BoundingSphere, r1: real, r2: real)
    requires 0.0 <= s1.radius + s2.radius <= r1 + r2
    requires SphereSphere(s1, s2)
    ensures SphereSphere(s1.(radius := r1), s2.(radius := r2))
  {
    SquareMonotone(s1.radius + s2.radius, r1 + r2);
  }

  // ---------------------------------------------------------------------
  // Ray-sphere: the quadratic and its roots

  /** The point the ray reaches at parameter `t`. */
  function PointAt(ray: Ray, t: real): Vec4
  {
    Add(ray.origin, Scale(t, ray.direction))
  }

  lemma QuadraticCompleted(b: real, c: real, t: real)
    ensures Quadratic(b, c, t) == (t + b / 2.0) * (t + b / 2.0) - (b * b - 4.0 * c) / 4.0
  {
  }

  lemma QuadraticFactored(b: real, c: real, sd: real, t: real)
    requires sd * sd == b * b - 4.0 * c
    ensures Quadratic(b, c, t) == (t - (-b - sd) / 2.0) * (t - (-b + sd) / 2.0)
  {
    assert (t - (-b - sd) / 2.0) * (t - (-b + sd) / 2.0) == t * t + b * t + (b * b - sd * sd) / 4.0;
  }

  /** A non-positive value of the quadratic anywhere means the discriminant is non-negative. */
  lemma NonPositiveMeansRealRoots(ray: Ray, sphere: BoundingSphere, t: real)
    requires Quadratic(LinearCoefficient(ray, sphere), ConstantCoefficient(ray, sphere), t) <= 0.0
    ensures Discriminant(ray, sphere) >= 0.0
  {
    var b, c := LinearCoefficient(ray, sphere), ConstantCoefficient(ray, sphere);
    QuadraticCompleted(b, c, t);
    SquareNonNegative(t + b / 2.0);
  }

  /**
   * Which root the test reports: the near root when it is non-negative,
   * else the far root when that one is; when both are negative (the sphere
   * lies behind the origin) the result is a miss and the out-parameter
   * holds the sentinel rather than the caller's old value.
   */
  lemma RaySphereChoosesRoot(ray: Ray, sphere: BoundingSphere, tIn: Option<real>, sd: real)
    requires IsSqrtOfDiscriminant(ray, sphere, sd)
    requires Discriminant(ray, sphere) >= 0.0
    ensures NearRoot(ray, sphere, sd) >= 0.0 ==>
      RaySphere(ray, sphere, tIn, sd) == RayHit(true, Some(NearRoot(ray, sphere, sd)))
    ensures NearRoot(ray, sphere, sd) < 0.0 <= FarRoot(ray, sphere, sd) ==>
      RaySphere(ray, sphere, tIn, sd) == RayHit(true, Some(FarRoot(ray, sphere, sd)))
    ensures FarRoot(ray, sphere, sd) < 0.0 ==>
      RaySphere(ray, sphere, tIn, sd) == RayHit(false, None)
  {
    RootsSolveQuadratic(ray, sphere, sd);
  }

  /** Any non-negative parameter at which the quadratic is non-positive makes the test report a hit. */
  lemma RaySphereHitsAhead(ray: Ray, sphere: BoundingSphere, tIn: Option<real>, sd: real, t: real)
    requires IsSqrtOfDiscriminant(ray, sphere, sd)
    requires t >= 0.0
    requires Quadratic(LinearCoefficient(ray, sphere), ConstantCoefficient(ray, sphere), t) <= 0.0
    ensures RaySphere(ray, sphere, tIn, sd).hit
  {
    var b, c := LinearCoefficient(ray, sphere), ConstantCoefficient(ray, sphere);
    NonPositiveMeansRealRoots(ray, sphere, t);
    var t1, t2 := NearRoot(ray, sphere, sd), FarRoot(ray, sphere, sd);
    RootsSolveQuadratic(ray, sphere, sd);
    QuadraticFactored(b, c, sd, t);
    assert Quadratic(b, c, t) == (t - t1) * (t - t2);
    if t2 < 0.0 {
      ProductPositive(t - t1, t - t2, Quadratic(b, c, t));
      assert false;
    }
    RaySphereChoosesRoot(ray, sphere, tIn, sd);
    if t1 >= 0.0 {
      assert RaySphere(ray, sphere, tIn, sd) == RayHit(true, Some(t1));
    } else {
      assert RaySphere(ray, sphere, tIn, sd) == RayHit(true, Some(t2));
    }
  }

  /**
   * The test reports a hit exactly when the quadratic is non-positive at
   * some non-negative parameter, whatever the direction's length. For the
   * geometric reading (the ray reaches the sphere) under a unit direction
   * with matching `w`, see `RaySphereHitIffReachesSphere`.
   */
  lemma RaySphereHitIff(ray: Ray, sphere: BoundingSphere, tIn: Option<real>, sd: real)
    requires IsSqrtOfDiscriminant(ray, sphere, sd)
    ensures RaySphere(ray, sphere, tIn, sd).hit <==>
      exists t :: t >= 0.0 && Quadratic(LinearCoefficient(ray, sphere), ConstantCoefficient(ray, sphere), t) <= 0.0
  {
    var b, c := LinearCoefficient(ray, sphere), ConstantCoefficient(ray, sphere);
    var r := RaySphere(ray, sphere, tIn, sd);
    if r.hit {
      assert r.tOut.value >= 0.0 && Quadratic(b, c, r.tOut.value) <= 0.0;
    }
    if exists t :: t >= 0.0 && Quadratic(b, c, t) <= 0.0 {
      var t :| t >= 0.0 && Quadratic(b, c, t) <= 0.0;
      RaySphereHitsAhead(ray, sphere, tIn, sd, t);
    }
  }

  /**
   * With a unit direction whose `w` is zero and an origin and centre with
   * equal `w`, the test reports a hit exactly when some point of the ray at
   * a non-negative parameter lies on or inside the sphere.
   */
  lemma RaySphereHitIffReachesSphere(ray: Ray, sphere: BoundingSphere, tIn: Option<real>, sd: real)
    requires IsSqrtOfDiscriminant(ray, sphere, sd)
    requires Dot(ray.direction, ray.direction) == 1.0
    requires ray.direction.w == 0.0 && ray.origin.w == sphere.center.w
    ensures RaySphere(ray, sphere, tIn, sd).hit <==>
      exists t :: t >= 0.0 && DistanceSq(PointAt(ray, t), sphere.center) <= sphere.radius * sphere.radius
  {
    var r := RaySphere(ray, sphere, tIn, sd);
    if r.hit {
      RayQuadraticMeasuresDistance(ray, sphere, r.tOut.value);
      assert DistanceSq(PointAt(ray, r.tOut.value), sphere.center) <= sphere.radius * sphere.radius;
    }
    if exists t :: t >= 0.0 && DistanceSq(PointAt(ray, t), sphere.center) <= sphere.radius * sphere.radius {
      var t :| t >= 0.0 && DistanceSq(PointAt(ray, t), sphere.center) <= sphere.radius * sphere.radius;
      RayQuadraticMeasuresDistance(ray, sphere, t);
      RaySphereHitsAhead(ray, sphere, tIn, sd, t);
    }
  }

  /** The reported parameter is the nearest non-negative root: no non-negative root lies before it. */
  lemma RaySphereNearestRoot(ray: Ray, sphere: BoundingSphere, tIn: Option<real>, sd: real, t: real)
    requires IsSqrtOfDiscriminant(ray, sphere, sd)
    requires t >= 0.0
    requires Quadratic(LinearCoefficient(ray, sphere), ConstantCoefficient(ray, sphere), t) == 0.0
    ensures RaySphere(ray, sphere, tIn, sd).hit
    ensures RaySphere(ray, sphere, tIn, sd).tOut.value <= t
  {
    var b, c := LinearCoefficient(ray, sphere), ConstantCoefficient(ray, sphere);
    NonPositiveMeansRealRoots(ray, sphere, t);
    var t1, t2 := NearRoot(ray, sphere, sd), FarRoot(ray, sphere, sd);
    QuadraticFactored(b, c, sd, t);
    ZeroProduct(t - t1, t - t2);
    RaySphereChoosesRoot(ray, sphere, tIn, sd);
  }

  /**
   * A negative constant term (with matching `w`, an origin strictly inside
   * the sphere; see `OriginInsideSphere`) puts the near root behind the
   * origin and the far one ahead of it, so the test reports the far root.
   */
  lemma RaySphereFromInside(ray: Ray, sphere: BoundingSphere, tIn: Option<real>, sd: real)
    requires IsSqrtOfDiscriminant(ray, sphere, sd)
    requires ConstantCoefficient(ray, sphere) < 0.0
    ensures NearRoot(ray, sphere, sd) < 0.0 < FarRoot(ray, sphere, sd)
    ensures RaySphere(ray, sphere, tIn, sd) == RayHit(true, Some(FarRoot(ray, sphere, sd)))
  {
    var b, c := LinearCoefficient(ray, sphere), ConstantCoefficient(ray, sphere);
    SquareNonNegative(b);
    var t1, t2 := NearRoot(ray, sphere, sd), FarRoot(ray, sphere, sd);
    assert t1 * t2 == (b * b - sd * sd) / 4.0;
    if t1 >= 0.0 {
      MulNonNegative(t1, t2);
    }
    RaySphereChoosesRoot(ray, sphere, tIn, sd);
  }

  /** An origin strictly inside the sphere, with equal homogeneous components, makes the constant term negative. */
  lemma OriginInsideSphere(ray: Ray, sphere: BoundingSphere)
    requires ray.origin.w == sphere.center.w
    requires DistanceSq(ray.origin, sphere.center) < sphere.radius * sphere.radius
    ensures ConstantCoefficient(ray, sphere) < 0.0
  {
  }

  /**
   * With a unit direction the quadratic is the squared four-component
   * distance from the ray point to the centre minus the squared radius;
   * with a zero `w` in the direction and equal `w` in origin and centre it
   * is the squared (three-component) distance minus the squared radius.
   */
  lemma RayQuadraticMeasuresDistance(ray: Ray, sphere: BoundingSphere, t: real)
    requires Dot(ray.direction, ray.direction) == 1.0
    ensures var l := Sub(PointAt(ray, t), sphere.center);
      Quadratic(LinearCoefficient(ray, sphere), ConstantCoefficient(ray, sphere), t)
        == Dot(l, l) - sphere.radius * sphere.radius
    ensures ray.direction.w == 0.0 && ray.origin.w == sphere.center.w ==>
      Quadratic(LinearCoefficient(ray, sphere), ConstantCoefficient(ray, sphere), t)
        == DistanceSq(PointAt(ray, t), sphere.center) - sphere.radius * sphere.radius
  {
    var d, l0 := ray.direction, Sub(ray.origin, sphere.center);
    var l := Sub(PointAt(ray, t), sphere.center);
    assert l == Add(l0, Scale(t, d));
    DotAlongLine(l0, d, t);
  }

  /**
   * With a unit direction and matching homogeneous components, a hit is a
   * point on the sphere's surface, and no earlier non-negative parameter
   * reaches the surface.
   */
  lemma RaySphereHitOnSurface(ray: Ray, sphere: BoundingSphere, tIn: Option<real>, sd: real)
    requires IsSqrtOfDiscriminant(ray, sphere, sd)
    requires Dot(ray.direction, ray.direction) == 1.0
    requires ray.direction.w == 0.0 && ray.origin.w == sphere.center.w
    requires RaySphere(ray, sphere, tIn, sd).hit
    ensures DistanceSq(PointAt(ray, RaySphere(ray, sphere, tIn, sd).tOut.value), sphere.center)
      == sphere.radius * sphere.radius
    ensures forall t :: 0.0 <= t < RaySphere(ray, sphere, tIn, sd).tOut.value ==>
      DistanceSq(PointAt(ray, t), sphere.center) != sphere.radius * sphere.radius
  {
    var hitAt := RaySphere(ray, sphere, tIn, sd).tOut.value;
    RayQuadraticMeasuresDistance(ray, sphere, hitAt);
    forall t | 0.0 <= t < hitAt
      ensures DistanceSq(PointAt(ray, t), sphere.center) != sphere.radius * sphere.radius
    {
      RayQuadraticMeasuresDistance(ray, sphere, t);
      if DistanceSq(PointAt(ray, t), sphere.center) == sphere.radius * sphere.radius {
        RaySphereNearestRoot(ray, sphere, tIn, sd, t);
      }
    }
  }

  /**
   * A ray with a unit direction that starts at distance `k` from the
   * centre, outside the sphere, and points straight at the centre hits at
   * parameter `k - radius`.
   */
  lemma RaySphereAimedAtCenter(ray: Ray, sphere: BoundingSphere, tIn: Option<real>, sd: real, k: real)
    requires Dot(ray.direction, ray.direction) == 1.0
    requires ray.origin == Sub(sphere.center, Scale(k, ray.direction))
    requires 0.0 <= sphere.radius <= k
    requires IsSqrtOfDiscriminant(ray, sphere, sd)
    ensures ray.direction.w == 0.0 ==> DistanceSq(ray.origin, sphere.center) == k * k
    ensures RaySphere(ray, sphere, tIn, sd) == RayHit(true, Some(k - sphere.radius))
  {
    var d, r := ray.direction, sphere.radius;
    var l := Sub(ray.origin, sphere.center);
    assert l == Scale(-k, d);
    assert Dot(d, l) == -k * Dot(d, d);
    assert Dot(l, l) == k * k * Dot(d, d);
    assert LinearCoefficient(ray, sphere) == -2.0 * k;
    assert ConstantCoefficient(ray, sphere) == k * k - r * r;
    assert Discriminant(ray, sphere) == (2.0 * r) * (2.0 * r);
    SquareNonNegative(2.0 * r);
    SqrtUnique(sd, 2.0 * r);
    RaySphereChoosesRoot(ray, sphere, tIn, sd);
  }

  // ---------------------------------------------------------------------
  // Cylinder-sphere

  /** Height `y` lies within the cylinder's closed vertical span. */
  predicate WithinCylinderHeight(cylinder: BoundingCylinder, y: real)
  {
    cylinder.center.y - cylinder.height / 2.0 <= y <= cylinder.center.y + cylinder.height / 2.0
  }

  /** Height `y` lies within the sphere's closed vertical span. */
  predicate WithinSphereHeight(sphere: BoundingSphere, y: real)
  {
    sphere.center.y - sphere.radius <= y <= sphere.center.y + sphere.radius
  }

  /**
   * For non-degenerate volumes the vertical test is the existence of a
   * height shared by the cylinder's span and the sphere's span.
   */
  lemma CylinderSphereSharedHeight(cylinder: BoundingCylinder, sphere: BoundingSphere)
    requires cylinder.height >= 0.0 && sphere.radius >= 0.0
    ensures CylinderSphere(cylinder, sphere) <==>
      && Sq(sphere.center.x - cylinder.center.x) + Sq(sphere.center.z - cylinder.center.z)
         <= Sq(cylinder.radius + sphere.radius)
      && exists y :: WithinCylinderHeight(cylinder, y) && WithinSphereHeight(sphere, y)
  {
    var lo1, hi1 := cylinder.center.y - cylinder.height / 2.0, cylinder.center.y + cylinder.height / 2.0;
    var lo2, hi2 := sphere.center.y - sphere.radius, sphere.center.y + sphere.radius;
    if lo1 <= hi2 && lo2 <= hi1 {
      var y := if lo1 < lo2 then lo2 else lo1;
      assert WithinCylinderHeight(cylinder, y) && WithinSphereHeight(sphere, y);
    }
  }

  /** A sphere centred on the cylinder's centre always collides with it. */
  lemma CylinderSphereCentered(cylinder: BoundingCylinder, sphere: BoundingSphere)
    requires sphere.center == cylinder.center
    requires cylinder.height >= 0.0 && sphere.radius >= 0.0
    ensures CylinderSphere(cylinder, sphere)
  {
    var c, s := cylinder.center, sphere.center;
    assert c.x == s.x && c.y == s.y && c.z == s.z;
    assert Sq(s.x - c.x) == 0.0;
    assert Sq(s.z - c.z) == 0.0;
    assert Sq(cylinder.radius + sphere.radius) >= 0.0;
    assert c.y - cylinder.height / 2.0 <= s.y + sphere.radius;
    assert s.y - sphere.radius <= c.y + cylinder.height / 2.0;
  }

  lemma CylinderSphereIgnoresW(cylinder: BoundingCylinder, sphere: BoundingSphere, wc: real, ws: real)
    ensures CylinderSphere(cylinder.(center := cylinder.center.(w := wc)), sphere.(center := sphere.center.(w := ws)))
      == CylinderSphere(cylinder, sphere)
  {
  }

  // ---------------------------------------------------------------------
  // The factories combined with the tests

  /** The aircraft collides with a drone when their centres are within 0.6 of each other. */
  lemma AircraftHitsEnemy(aircraftPosition: Vec4, enemyPosition: Vec4)
    ensures SphereSphere(AircraftBoundingSphere(aircraftPosition), EnemyBoundingSphere(enemyPosition))
      <==> DistanceSq(aircraftPosition, enemyPosition) <= 0.36
  {
  }

  /** The aircraft touches a checkpoint when their centres are within 1.8 of each other. */
  lemma AircraftTouchesCheckpoint(aircraftPosition: Vec4, checkpointPosition: Vec4)
    ensures SphereSphere(AircraftBoundingSphere(aircraftPosition), CheckpointBoundingSphere(checkpointPosition))
      <==> DistanceSq(aircraftPosition, checkpointPosition) <= 3.24
  {
  }

  /** The aircraft hits an asteroid when it is within 0.8 of its axis and within 0.8 of its centre's height. */
  lemma AsteroidHitsAircraft(asteroidPosition: Vec4, aircraftPosition: Vec4)
    ensures CylinderSphere(AsteroidBoundingCylinder(asteroidPosition), AircraftBoundingSphere(aircraftPosition))
      <==> && Sq(aircraftPosition.x - asteroidPosition.x) + Sq(aircraftPosition.z - asteroidPosition.z) <= 0.64
           && -0.8 <= aircraftPosition.y - asteroidPosition.y <= 0.8
  {
  }

}
