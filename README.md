# Collision tests of the orbital flight game

This project models the collision-test library of a small orbital
flight-combat game (`src/collisions.cpp`, with its types in
`include/collisions.h`) and proves properties of it in Dafny.

The library is a set of stateless geometric predicates over GLM
four-component vectors `(x, y, z, w)`:

- the squared distance between two positions, which zeroes the homogeneous `w`;
- the sphere-sphere test (aircraft against drone);
- the ray-sphere test (the aircraft's trajectory against a checkpoint), which solves a quadratic with leading coefficient 1 and writes the nearest non-negative root to an out-parameter;
- the cylinder-sphere test (asteroid against aircraft): a radial test in the XZ plane and an overlap test of the two Y intervals;
- the factories that build each entity's bounding volume at its position, with the fixed radii 0.3 (aircraft, drone) and 1.5 (checkpoint) and the asteroid cylinder of radius 0.5 and height 1.0.

Files:

- `vectors.dfy` (module `Vectors`): the subset of GLM's `vec4` used here, namely subtraction, addition, scaling and the four-component dot product.
- `collisions.dfy` (module `Collisions`): the constants, `BoundingSphere`, `Ray`, `BoundingCylinder` and the tests and factories. `BoundingCylinder` is not declared in the header. It is defined as (center, radius, height), as its uses in the source show.
- `collision_properties.dfy` (module `CollisionProperties`): lemmas relating the tests to each other and to geometric readings of what they decide.
- `real_arith.dfy` and `wrappers.dfy`: sign facts about real products, and `Option`.

Modelling choices:

- Coordinates are real numbers, not IEEE floats.
- `std::sqrt` of the discriminant is the parameter `sd`. Its precondition says that whenever the discriminant is non-negative, `sd` is its non-negative square root.
- The out-parameter `t_out` is passed in as `tIn` and returned in `RayHit.tOut`. The `std::numeric_limits<float>::max()` sentinel is `None`, and it lies above every real.
- With a negative discriminant the test returns `tIn` unchanged. Otherwise the source first stores the sentinel (`src/collisions.cpp:70`). So when both roots are negative, the caller's variable ends up holding the sentinel, not its old value. The model keeps this.
- Unlike the squared distance, the ray-sphere test does not zero `w`: `L.w` enters both `B` and `C`. The model keeps this too. The lemmas that read the quadratic as a distance to the sphere assume a direction with `w = 0` and an origin and centre with equal `w`.

## Model

| member | source | states |
|---|---|---|
| `Collisions.DistanceSq` | src/collisions.cpp:21-27 | the result is dx²+dy²+dz², so `w` plays no part; it is non-negative, and it is zero when the x, y and z coordinates agree |
| `CollisionProperties.DistanceSqSymmetric` | src/collisions.cpp:21-27 | swapping the two positions gives the same squared distance |
| `CollisionProperties.DistanceSqIgnoresW` | src/collisions.cpp:22-23 | changing the `w` of either position leaves the squared distance unchanged |
| `Collisions.SphereSphere` | src/collisions.cpp:32-39 | collision iff the squared centre distance is at most the squared sum of radii; touching spheres collide, and so do spheres with equal centres |
| `CollisionProperties.SphereSphereSymmetric` | src/collisions.cpp:32-39 | swapping the two spheres gives the same answer |
| `CollisionProperties.SphereSphereGrow` | src/collisions.cpp:35-38 | enlarging the radii, while their sum stays non-negative, keeps a collision a collision |
| `Collisions.RaySphere` | src/collisions.cpp:44-85 | a negative discriminant gives a miss and leaves the out-parameter as it was; otherwise it is a hit iff the out-parameter holds a value, not the sentinel; on a hit that value is non-negative and is a root of t²+Bt+C |
| `Collisions.RootsSolveQuadratic` | src/collisions.cpp:64-67 | both roots (-B∓sd)/2 solve t²+Bt+C=0, and t1 ≤ t2 |
| `CollisionProperties.NonPositiveMeansRealRoots` | src/collisions.cpp:58-62 | if the quadratic is ≤ 0 at any parameter, the discriminant is non-negative, so the early miss is not taken |
| `CollisionProperties.RaySphereChoosesRoot` | src/collisions.cpp:66-84 | t1 ≥ 0 reports t1; t1 < 0 ≤ t2 reports t2; t2 < 0 is a miss with the sentinel in the out-parameter |
| `CollisionProperties.RaySphereHitsAhead` | src/collisions.cpp:58-84 | any parameter t ≥ 0 at which the quadratic is ≤ 0 forces a hit |
| `CollisionProperties.RaySphereHitIff` | src/collisions.cpp:44-85 | hit iff the quadratic t²+Bt+C (leading coefficient fixed at 1) is ≤ 0 at some non-negative parameter; for any direction, unit or not |
| `CollisionProperties.RaySphereHitIffReachesSphere` | src/collisions.cpp:44-85 | for a unit direction with w = 0 and an origin and centre with equal w: hit iff some ray point at a parameter t ≥ 0 lies on or inside the sphere (`DistanceSq` ≤ r²) |
| `CollisionProperties.RaySphereNearestRoot` | src/collisions.cpp:69-78 | every non-negative root t gives a hit whose reported parameter is ≤ t, so the nearest non-negative root is chosen |
| `CollisionProperties.RaySphereFromInside` | src/collisions.cpp:72-78 | when C < 0 (origin inside), t1 < 0 < t2 and the test reports a hit at t2 |
| `CollisionProperties.OriginInsideSphere` | src/collisions.cpp:46-55 | an origin strictly inside the sphere, with the same `w` as the centre, makes C negative |
| `CollisionProperties.RayQuadraticMeasuresDistance` | src/collisions.cpp:46-55 | for a unit direction, t²+Bt+C is the squared four-component distance from the ray point to the centre minus r²; with `w` differences zero it is `DistanceSq` minus r² |
| `CollisionProperties.RaySphereHitOnSurface` | src/collisions.cpp:44-85 | for a unit direction and zero `w` differences, a hit lies on the sphere's surface, and no earlier non-negative parameter reaches the surface |
| `CollisionProperties.RaySphereAimedAtCenter` | src/collisions.cpp:44-85 | a unit ray starting at distance k ≥ r and aimed at the centre hits at k − r |
| `Collisions.CylinderSphere` | src/collisions.cpp:91-123 | collision iff the XZ squared distance is ≤ (rc+rs)² and the closed intervals [cy−h/2, cy+h/2] and [sy−rs, sy+rs] overlap, touching included |
| `CollisionProperties.CylinderSphereSharedHeight` | src/collisions.cpp:106-122 | for non-negative height and sphere radius, the vertical test holds iff some height lies in both spans |
| `CollisionProperties.CylinderSphereCentered` | src/collisions.cpp:91-123 | a sphere centred on the cylinder's centre always collides, given a non-negative height and sphere radius |
| `CollisionProperties.CylinderSphereIgnoresW` | src/collisions.cpp:95-99 | the `w` of either centre does not affect the answer |
| `Collisions.AsteroidBoundingCylinder` | src/collisions.cpp:126-132 | the cylinder is centred at the asteroid's position, with radius 0.5 and height 1.0 |
| `Collisions.EnemyBoundingSphere` | src/collisions.cpp:134-139 | the sphere is centred at the drone's position, with radius 0.3 |
| `Collisions.AircraftBoundingSphere` | src/collisions.cpp:141-146 | the sphere is centred at the aircraft's position, with radius 0.3 |
| `Collisions.CheckpointBoundingSphere` | src/collisions.cpp:148-153 | the sphere is centred at the checkpoint's position, with radius 1.5 |
| `CollisionProperties.AircraftHitsEnemy` | src/collisions.cpp:134-146 | aircraft and drone collide iff their squared distance is ≤ 0.36 |
| `CollisionProperties.AircraftTouchesCheckpoint` | src/collisions.cpp:141-153 | aircraft and checkpoint spheres overlap iff their squared distance is ≤ 3.24 |
| `CollisionProperties.AsteroidHitsAircraft` | src/collisions.cpp:126-146 | asteroid and aircraft collide iff their XZ squared distance is ≤ 0.64 and their heights differ by at most 0.8 |

## Left out

- `src/main.cpp` is not modelled. It creates the window, reads and compiles shaders and runs the render loop, all of which is I/O and calls into graphics libraries.
- IEEE float rounding is not modelled. The constants are the decimal values (0.3, not the float nearest to it), and arithmetic is exact.
- NaN and infinite coordinates are not modelled, since real numbers have no such values. A NaN in x, y, z or a radius makes the source's sphere test answer false (src/collisions.cpp:38). In the cylinder test, a NaN turns off each early exit whose comparison it reaches (lines 102, 117), so the test answers true unless the other exit fires. A NaN in `w` is zeroed by `distanceSq` (line 23) and has no effect.
- `RaySphere`: with a direction that is not of unit length, the quadratic (leading coefficient fixed at 1) no longer measures distance along the ray, so a hit no longer means the ray reaches the sphere. The source assumes a normalised direction (src/collisions.cpp:48-49), and the geometric lemmas require it.
- The largest-float sentinel is an explicit `None`. The float comparison `t2 < FLT_MAX` is therefore true for every root, which it is for every finite float below the maximum.
- `std::sqrt` is not modelled. Its result is the constrained parameter `sd` of `RaySphere`.
- The out-parameter is a value passed in and returned, not a reference the callee writes through.
- `checkPointSphereCollision` is declared at `include/collisions.h:41`, but no definition of it is part of the source, so there is nothing to model.
- `MOON_RADIUS` (`src/collisions.cpp:11`) is kept as a constant. Nothing in the collision library uses it.
- The game engine around the library is not modelled: orbital motion, drone steering, projectiles, the per-tick collision resolution and reset. None of it is part of the source files modelled here.
