/**
 * The collision-test library of the game: bounding volumes, the squared
 * distance between two positions, and the sphere-sphere, ray-sphere and
 * cylinder-sphere intersection tests, with the factories that build the
 * bounding volume of each kind of entity at its current position.
 *
 * Arithmetic is over the reals. The square root the ray-sphere test takes
 * of its discriminant is supplied by the caller as the parameter `sd`, and
 * the largest-float sentinel that test stores in its out-parameter is the
 * `None` of an `Option`.
 */
module Collisions {
  import opened Wrappers
  import opened Vectors

  /** Radius of the moon the entities orbit (exported by the library's header; no collision test uses it). */
  const MOON_RADIUS: real := 16.0
  /** Bounding-sphere radius shared by the aircraft and the enemy drones. */
  const AIRCRAFT_SPHERE_RADIUS: real := 0.3
  const CHECKPOINT_RADIUS: real := 1.5
  const ASTEROID_CYLINDER_RADIUS: real := 0.5
  const ASTEROID_CYLINDER_HEIGHT: real := 1.0

  datatype BoundingSphere = BoundingSphere(center: Vec4, radius: real)

  /** A ray; `direction` is expected to have unit length, so the quadratic's leading coefficient is 1. */
  datatype Ray = Ray(origin: Vec4, direction: Vec4)

  /** A cylinder whose axis is the world Y axis through `center`; it spans `height` centred on `center.y`. */
  datatype BoundingCylinder = BoundingCylinder(center: Vec4, radius: real, height: real)

  function Sq(a: real): (r: real)
    ensures r >= 0.0
  {
    a * a
  }

  /**
   * Squared Euclidean distance between two positions; the homogeneous
   * component of the difference is zeroed before the dot product, so `w`
   * plays no part.
   */
  function DistanceSq(p1: Vec4, p2: Vec4): (r: real)
    ensures r == Sq(p1.x - p2.x) + Sq(p1.y - p2.y) + Sq(p1.z - p2.z)
    ensures r >= 0.0
    ensures p1.x == p2.x && p1.y == p2.y && p1.z == p2.z ==> r == 0.0
  {
    var diff := Sub(p1, p2).(w := 0.0);
    assert Dot(diff, diff) == Sq(diff.x) + Sq(diff.y) + Sq(diff.z);
    Dot(diff, diff)
  }

  /** Sphere-sphere overlap test: squared centre distance against the squared sum of radii, touching included. */
  function SphereSphere(s1: BoundingSphere, s2: BoundingSphere): (r: bool)
    ensures DistanceSq(s1.center, s2.center) == Sq(s1.radius + s2.radius) ==> r
    ensures s1.center == s2.center ==> r
    ensures r <==> Sq(s1.center.x - s2.center.x) + Sq(s1.center.y - s2.center.y) + Sq(s1.center.z - s2.center.z)
                   <= Sq(s1.radius + s2.radius)
  {
    var distanceSquared := DistanceSq(s1.center, s2.center);
    var radiusSum := s1.radius + s2.radius;
    var radiusSumSquared := radiusSum * radiusSum;
    assert radiusSumSquared == Sq(s1.radius + s2.radius);
    distanceSquared <= radiusSumSquared
  }

  // ---------------------------------------------------------------------
  // Ray-sphere

  /** `B = 2 d.L` with `L = origin - center`; all four components take part. */
  function LinearCoefficient(ray: Ray, sphere: BoundingSphere): real
  {
    2.0 * Dot(ray.direction, Sub(ray.origin, sphere.center))
  }

  /** `C = L.L - r^2` with `L = origin - center`; all four components take part. */
  function ConstantCoefficient(ray: Ray, sphere: BoundingSphere): real
  {
    var l := Sub(ray.origin, sphere.center);
    Dot(l, l) - sphere.radius * sphere.radius
  }

  /**
   * The quadratic `t^2 + B t + C` the ray-sphere test solves (leading
   * coefficient fixed at 1). For a unit direction with matching `w` its
   * roots are where the ray meets the sphere; see
   * `CollisionProperties.RaySphereHitIffReachesSphere`.
   */
  function Quadratic(b: real, c: real, t: real): real
  {
    t * t + b * t + c
  }

  /** `B^2 - 4AC` with `A = 1`. */
  function Discriminant(ray: Ray, sphere: BoundingSphere): real
  {
    var b := LinearCoefficient(ray, sphere);
    b * b - 4.0 * ConstantCoefficient(ray, sphere)
  }

  /** `sd` is the square root of the discriminant whenever the discriminant has one. */
  predicate IsSqrtOfDiscriminant(ray: Ray, sphere: BoundingSphere, sd: real)
  {
    Discriminant(ray, sphere) >= 0.0 ==> sd >= 0.0 && sd * sd == Discriminant(ray, sphere)
  }

  /** The smaller root `t1 = (-B - sqrt(disc)) / 2`. */
  function NearRoot(ray: Ray, sphere: BoundingSphere, sd: real): real
  {
    (-LinearCoefficient(ray, sphere) - sd) / 2.0
  }

  /** The larger root `t2 = (-B + sqrt(disc)) / 2`. */
  function FarRoot(ray: Ray, sphere: BoundingSphere, sd: real): real
  {
    (-LinearCoefficient(ray, sphere) + sd) / 2.0
  }

  /** Both roots of a non-negative discriminant solve the quadratic, and the near one is not above the far one. */
  lemma RootsSolveQuadratic(ray: Ray, sphere: BoundingSphere, sd: real)
    requires IsSqrtOfDiscriminant(ray, sphere, sd)
    requires Discriminant(ray, sphere) >= 0.0
    ensures NearRoot(ray, sphere, sd) <= FarRoot(ray, sphere, sd)
    ensures Quadratic(LinearCoefficient(ray, sphere), ConstantCoefficient(ray, sphere), NearRoot(ray, sphere, sd)) == 0.0
    ensures Quadratic(LinearCoefficient(ray, sphere), ConstantCoefficient(ray, sphere), FarRoot(ray, sphere, sd)) == 0.0
  {
    var b, c := LinearCoefficient(ray, sphere), ConstantCoefficient(ray, sphere);
    assert sd * sd == b * b - 4.0 * c;
    var t1, t2 := (-b - sd) / 2.0, (-b + sd) / 2.0;
    assert t1 * t1 == (b * b + 2.0 * b * sd + sd * sd) / 4.0;
    assert t2 * t2 == (b * b - 2.0 * b * sd + sd * sd) / 4.0;
  }

  /** The contents of the out-parameter `t_out`; `None` is the largest-float sentinel. */
  datatype RayHit = RayHit(hit: bool, tOut: Option<real>)

  /** `t < slot`, where the sentinel stands above every real. */
  predicate BelowSlot(t: real, slot: Option<real>)
  {
    match slot
    case None => true
    case Some(v) => t < v
  }

  /**
   * Ray-sphere intersection. `tIn` is what the caller's out-parameter held
   * before the call. With a negative discriminant the result is a miss and
   * the out-parameter is untouched; otherwise the out-parameter is first
   * reset to the sentinel, then set to the nearest non-negative root, and
   * the result is a hit exactly when some root was non-negative.
   */
  function RaySphere(ray: Ray, sphere: BoundingSphere, tIn: Option<real>, sd: real): (r: RayHit)
    requires IsSqrtOfDiscriminant(ray, sphere, sd)
    ensures Discriminant(ray, sphere) < 0.0 ==> !r.hit && r.tOut == tIn
    ensures Discriminant(ray, sphere) >= 0.0 ==> (r.hit <==> r.tOut.Some?)
    ensures r.hit ==> r.tOut.Some? && r.tOut.value >= 0.0
    ensures r.hit ==> Quadratic(LinearCoefficient(ray, sphere), ConstantCoefficient(ray, sphere), r.tOut.value) == 0.0
  {
    // The body follows the source step by step: `a` is the leading
    // coefficient fixed at 1, and `discriminant`, `t1`, `t2` are the values
    // `Discriminant`, `NearRoot` and `FarRoot` give for the contract.
    var a := 1.0;
    var b := LinearCoefficient(ray, sphere);
    var c := ConstantCoefficient(ray, sphere);
    var discriminant := b * b - 4.0 * a * c;
    if discriminant < 0.0 then
      RayHit(false, tIn)
    else
      var t1 := (-b - sd) / (2.0 * a);
      var t2 := (-b + sd) / (2.0 * a);
      RootsSolveQuadratic(ray, sphere, sd);
      var t0: Option<real> := None;
      var ta := if t1 >= 0.0 then Some(t1) else t0;
      var tb := if t2 >= 0.0 && BelowSlot(t2, ta) then Some(t2) else ta;
      if tb == None then RayHit(false, tb) else RayHit(true, tb)
  }

  // ---------------------------------------------------------------------
  // Cylinder-sphere

  /**
   * Cylinder-sphere overlap: a radial test in the XZ plane (the sphere
   * centre is lifted to the cylinder centre's height, so only x and z
   * differ) followed by an overlap test of the two closed Y intervals.
   */
  function CylinderSphere(cylinder: BoundingCylinder, sphere: BoundingSphere): (r: bool)
    ensures r <==>
      && Sq(sphere.center.x - cylinder.center.x) + Sq(sphere.center.z - cylinder.center.z)
         <= Sq(cylinder.radius + sphere.radius)
      && cylinder.center.y - cylinder.height / 2.0 <= sphere.center.y + sphere.radius
      && sphere.center.y - sphere.radius <= cylinder.center.y + cylinder.height / 2.0
  {
    var sphereCenterXZ := sphere.center.(y := cylinder.center.y);
    var distanceXZSquared := DistanceSq(cylinder.center, sphereCenterXZ);
    var radialRadiusSum := cylinder.radius + sphere.radius;
    if distanceXZSquared > radialRadiusSum * radialRadiusSum then
      false
    else
      var halfHeight := cylinder.height / 2.0;
      var cylinderMinY := cylinder.center.y - halfHeight;
      var cylinderMaxY := cylinder.center.y + halfHeight;
      var sphereMinY := sphere.center.y - sphere.radius;
      var sphereMaxY := sphere.center.y + sphere.radius;
      if sphereMaxY < cylinderMinY || sphereMinY > cylinderMaxY then
        false
      else
        true
  }

  // ---------------------------------------------------------------------
  // Bounding-volume factories

  function AsteroidBoundingCylinder(asteroidPosition: Vec4): (c: BoundingCylinder)
    ensures c.center == asteroidPosition
    ensures c.radius == 0.5 && c.height == 1.0
  {
    BoundingCylinder(asteroidPosition, ASTEROID_CYLINDER_RADIUS, ASTEROID_CYLINDER_HEIGHT)
  }

  function EnemyBoundingSphere(enemyPosition: Vec4): (s: BoundingSphere)
    ensures s.center == enemyPosition && s.radius == 0.3
  {
    BoundingSphere(enemyPosition, AIRCRAFT_SPHERE_RADIUS)
  }

  function AircraftBoundingSphere(aircraftPosition: Vec4): (s: BoundingSphere)
    ensures s.center == aircraftPosition && s.radius == 0.3
  {
    BoundingSphere(aircraftPosition, AIRCRAFT_SPHERE_RADIUS)
  }

  function CheckpointBoundingSphere(checkpointPosition: Vec4): (s: BoundingSphere)
    ensures s.center == checkpointPosition && s.radius == 1.5
  {
    BoundingSphere(checkpointPosition, CHECKPOINT_RADIUS)
  }

}
