# CinderBox2D core: distance proxy, edge shape, motor joint

This project models three pieces of CinderBox2D, a port of the Box2D 2D rigid-body
physics engine to the Cinder framework. It proves properties of each.

- **Distance proxy** (`distance.dfy`, module `Distance`). This is the vertex buffer with a
  skin radius that the GJK distance query works on.
  - `GetSupport` and `GetSupportVertex` keep the source's left-to-right scan with a strict `>`.
    Both are proved to return the unique support point: the furthest vertex along a
    direction, with ties going to the lowest index.
  - The simplex cache and the query's input and output records are datatypes. The input holds
    both proxies by value, as copies of their vertices and radius.
- **Edge shape** (`edge_shape.dfy`, module `EdgeShape`). This is a line segment with optional
  adjacent vertices.
  - Its child count, point test, bounding box and mass are modelled.
  - Its ray cast is proved sound: a reported hit lies on the segment at the reported fraction.
  - The ray cast is proved complete: a crossing that is not parallel to the edge is found at
    its fraction.
  - A ray parallel to the edge is proved never to hit it.
  - The reported normal is proved to be a unit normal to the edge. For a hit beyond the ray's
    start it is proved to face against the ray. At fraction 0 the normal's side is not
    flipped, so it may point along the ray.
  - The world-frame forms of these facts (the edge placed by a transform whose rotation is
    proper) are proved for the corrected cast. Soundness, completeness and unit length are also
    proved in the edge's own frame.
- **Motor joint** (`motor_joint.dfy`, module `MotorJoint`). This joint drives body B towards a
  target offset from body A.
  - The linear and angular impulses per step are limited by a maximum force and torque.
  - `InitVelocityConstraints` and `SolveVelocityConstraints` are methods that update the
    joint's fields and the island's velocity array. Each is specified by pure step functions.
  - For those step functions the project proves:
    - the clamped impulses stay within the step's limits, over any number of iterations;
    - each unclipped block cancels its velocity error exactly;
    - the impulses applied over successive iterations telescope;
    - the effective mass is invertible for bodies with positive mass;
    - linear momentum is conserved;
    - when both constraints are already met within the limits, an iteration changes nothing.
- **2D maths** (`math2d.dfy`, module `Math2D`). This holds the vectors, rotations, transforms
  and 2x2 matrices the core uses, with the round-trip and inverse lemmas the proofs need.

## Modelling choices

- Floats are modelled as reals, so there is no rounding, no NaN and no overflow.
- The square root is a parameter `sqrt` constrained by `IsSqrt`.
- The rotation built from an angle (`b2Rot(angle)`) is a parameter `rotOf`.
- C++ structs that are only copied become datatypes. The joint, the bodies it wakes, the
  proxy and the edge shape become classes, because their fields are updated in place.
- The island's velocity array stays an `array`. The joint reads and writes it at the two bodies'
  island indices, and it may be the same index for both. Body B's write comes last, as in the
  source.
- The two solver methods compute their results with pure functions, `SolverTemps` and
  `MotorJoint.Iterate`, and then store them. Their `ensures` tie the new state to those functions.
- The joint has a ghost flag `tempsReady`. It records whether the solver temporaries have been
  captured, so `SolveVelocityConstraints` can only run after `InitVelocityConstraints`, as in the
  island solver's order of calls.

## Model

| member | source | states |
|---|---|---|
| Distance.DistanceProxy.constructor | src/CinderBox2D/Collision/cb2Distance.h:31 | A default proxy has no vertex buffer, a count of 0, a radius of 0 and no vertices |
| Distance.DistanceProxy.GetVertexCount | src/CinderBox2D/Collision/cb2Distance.h:96-99 | The count is the number of vertices the proxy exposes |
| Distance.DistanceProxy.GetVertex | src/CinderBox2D/Collision/cb2Distance.h:101-105 | Only an index in [0, count) is allowed; the result is that vertex |
| Distance.SupportIndex | src/CinderBox2D/Collision/cb2Distance.h:107-122 | The scan's index is a support index: no vertex lies further along d, and every earlier vertex lies strictly less far |
| Distance.SupportIsUnique | src/CinderBox2D/Collision/cb2Distance.h:114 | The strict comparison makes the support index unique, so the query is deterministic |
| Distance.DistanceProxy.GetSupport | src/CinderBox2D/Collision/cb2Distance.h:107-122 | The loop returns the support index of the vertices in direction d |
| Distance.DistanceProxy.GetSupportVertex | src/CinderBox2D/Collision/cb2Distance.h:124-139 | The loop returns the vertex at the support index, which is a furthest vertex along d |
| Distance.FirstCallCache | src/CinderBox2D/Collision/cb2Distance.h:55-63 | The cache for a first call is well formed, with count 0 and indices that fit in an unsigned char |
| Math2D.Clamp | src/CinderBox2D/Dynamics/Joints/cb2MotorJoint.cpp:160 | The result lies in [low, high] when that range is not empty, equals a when a is already inside, is low when a is below low, is high when a is above a non-empty range, and is always one of a, low and high |
| Math2D.Normalize | src/CinderBox2D/Dynamics/Joints/cb2MotorJoint.cpp:179 | A non-zero vector is scaled to unit length by a positive factor |
| Math2D.Inverted | src/CinderBox2D/Dynamics/Joints/cb2MotorJoint.cpp:105 | A non-singular matrix gets its left and right inverse; a singular one gets the zero matrix |
| Math2D.TransformRoundTrip | src/CinderBox2D/Collision/Shapes/cb2EdgeShape.cpp:61-62 | Moving a point into a unit transform's frame and back returns the point |
| Math2D.RotatePreservesCross | src/CinderBox2D/Collision/Shapes/cb2EdgeShape.cpp:61-62 | A proper rotation keeps the cross product, so a ray parallel to the edge in one frame is parallel in the other |
| EdgeShape.EdgeShape.constructor | src/CinderBox2D/Common/cb2Settings.h:60-69 | A new edge has the polygon skin radius (2 x 0.005) and no adjacent vertices |
| EdgeShape.EdgeShape.Set | src/CinderBox2D/Collision/Shapes/cb2EdgeShape.cpp:23-29 | The end vertices become v1 and v2 and both adjacent-vertex flags are cleared; nothing else changes |
| EdgeShape.EdgeShape.GetChildCount | src/CinderBox2D/Collision/Shapes/cb2EdgeShape.cpp:39-42 | An edge is one child |
| EdgeShape.EdgeShape.TestPoint | src/CinderBox2D/Collision/Shapes/cb2EdgeShape.cpp:44-49 | No point is inside an edge |
| EdgeShape.EdgeNormal | src/CinderBox2D/Collision/Shapes/cb2EdgeShape.cpp:67-69 | The normal of a non-zero edge is a unit vector orthogonal to it, pointing along (e.y, -e.x) |
| EdgeShape.RayCastLocal | src/CinderBox2D/Collision/Shapes/cb2EdgeShape.cpp:63-113 | A hit has its fraction in [0, maxFraction] and a unit normal orthogonal to the edge; a zero-length edge is never hit |
| EdgeShape.RayCastLocalParallelMisses | src/CinderBox2D/Collision/Shapes/cb2EdgeShape.cpp:74-80 | A ray parallel to the edge is never reported as a hit |
| EdgeShape.RayCastLocalHitIsOnEdge | src/CinderBox2D/Collision/Shapes/cb2EdgeShape.cpp:82-105 | Soundness: the point at the reported fraction of the ray is on the segment, with s in [0, 1] |
| EdgeShape.RayCastLocalFindsCrossing | src/CinderBox2D/Collision/Shapes/cb2EdgeShape.cpp:71-105 | Completeness: a non-parallel ray that meets the segment at fraction t in [0, maxFraction] is reported, with fraction t |
| EdgeShape.RayCastLocalNormalOpposesRay | src/CinderBox2D/Collision/Shapes/cb2EdgeShape.cpp:105-113 | The normal of a hit beyond the ray's start has a negative dot product with the ray direction |
| EdgeShape.EdgeShape.RayCastAsWritten | src/CinderBox2D/Collision/Shapes/cb2EdgeShape.cpp:55-115 | The source's ray cast: the fraction is in [0, maxFraction] and the normal is orthogonal to the edge in the edge's local frame |
| EdgeShape.EdgeShape.RayCast | src/CinderBox2D/Collision/Shapes/cb2EdgeShape.cpp:55-115 | The corrected ray cast, with the normal rotated into the world: the fraction is in [0, maxFraction], and a zero-length edge is never hit |
| EdgeShape.EdgeShape.LocalDirection | src/CinderBox2D/Collision/Shapes/cb2EdgeShape.cpp:61-63 | The ray direction in the edge's frame is the world direction rotated back by the transform |
| EdgeShape.EdgeShape.RayCastNormalOpposesRay | src/CinderBox2D/Collision/Shapes/cb2EdgeShape.cpp:105-113 | The corrected world normal of a hit beyond the ray's start faces against the world ray |
| EdgeShape.EdgeShape.RayCastHitIsOnEdge | src/CinderBox2D/Collision/Shapes/cb2EdgeShape.cpp:55-115 | Under a proper rotation, the world hit point lies on the placed edge |
| EdgeShape.EdgeShape.RayCastNormalIsUnit | src/CinderBox2D/Collision/Shapes/cb2EdgeShape.cpp:67-113 | Under a proper rotation, the corrected world normal has unit length and is perpendicular to the placed edge |
| EdgeShape.EdgeShape.RayCastParallelMisses | src/CinderBox2D/Collision/Shapes/cb2EdgeShape.cpp:74-80 | Under a proper rotation, a world ray parallel to the placed edge is never reported as a hit |
| EdgeShape.EdgeShape.RayCastFindsCrossing | src/CinderBox2D/Collision/Shapes/cb2EdgeShape.cpp:55-115 | World completeness: under a proper rotation, a world ray that meets the placed edge at fraction t in [0, maxFraction], not parallel to it, is reported with fraction t |
| EdgeShape.EdgeShape.RayCastAsWrittenDisagrees | src/CinderBox2D/Collision/Shapes/cb2EdgeShape.cpp:105-113 | Under any rotation other than the identity, the source's cast reports the corrected fraction but a different normal |
| EdgeShape.EdgeShape.RayCastAsWrittenNormalAlongRay | src/CinderBox2D/Collision/Shapes/cb2EdgeShape.cpp:105-113 | Under a half turn, the source's normal points along the ray instead of against it |
| EdgeShape.EdgeShape.ComputeAABB | src/CinderBox2D/Collision/Shapes/cb2EdgeShape.cpp:117-130 | The box holds both placed end vertices widened by the radius, each face touches one of them, and the box is not inverted for a non-negative radius |
| EdgeShape.EdgeShape.ComputeMass | src/CinderBox2D/Collision/Shapes/cb2EdgeShape.cpp:132-139 | The mass and inertia are zero and the centre is the midpoint of the end vertices |
| MotorJoint.DefaultDef | src/CinderBox2D/Dynamics/Joints/cb2MotorJoint.h:27-34 | A default definition is a motor joint with no bodies, zero offsets, unit force and torque limits and a correction factor of 0.3, all within the setters' ranges |
| MotorJoint.MotorJoint.constructor | src/CinderBox2D/Dynamics/Joints/cb2MotorJoint.cpp:47-58 | The joint takes the definition's bodies, offsets and limits, starts with zero accumulated impulses, and has no solver temporaries captured yet |
| MotorJoint.EffectiveMass | src/CinderBox2D/Dynamics/Joints/cb2MotorJoint.cpp:99-103 | The linear effective mass K is symmetric |
| MotorJoint.EffectiveMassDet | src/CinderBox2D/Dynamics/Joints/cb2MotorJoint.cpp:99-105 | det K = m^2 + m(iA rA^2 + iB rB^2) + iA iB (rA x rB)^2 with m = mA + mB |
| MotorJoint.EffectiveMassInvertible | src/CinderBox2D/Dynamics/Joints/cb2MotorJoint.cpp:99-105 | For non-negative mass data with mA + mB > 0, det K > 0 and the linear mass inverts K |
| MotorJoint.AngularMass | src/CinderBox2D/Dynamics/Joints/cb2MotorJoint.cpp:107-111 | When iA + iB > 0 the angular mass is its reciprocal; otherwise it is iA + iB itself |
| MotorJoint.ApplyZero | src/CinderBox2D/Dynamics/Joints/cb2MotorJoint.cpp:128-137 | A zero impulse leaves both bodies' velocities unchanged |
| MotorJoint.ApplyUndo | src/CinderBox2D/Dynamics/Joints/cb2MotorJoint.cpp:122-126 | The warm-start update of A (impulse -P, angular -a) and of B (impulse P, angular a) is undone by the opposite impulse |
| MotorJoint.ApplyLinearOnly | src/CinderBox2D/Dynamics/Joints/cb2MotorJoint.cpp:185-189 | A purely linear impulse moves A by -mA p and B by mB p, and each angular velocity by its inverse inertia times the moment of p about its lever arm |
| MotorJoint.RigidMotionHasNoRelativeVelocity | src/CinderBox2D/Dynamics/Joints/cb2MotorJoint.cpp:169 | Two bodies moving as one rigid body, with the anchors at one world point, have zero relative anchor velocity |
| MotorJoint.ApplyCompose | src/CinderBox2D/Dynamics/Joints/cb2MotorJoint.cpp:163-189 | Applying two impulses in turn is applying their sum |
| MotorJoint.ApplyConservesMomentum | src/CinderBox2D/Dynamics/Joints/cb2MotorJoint.cpp:122-126 | For bodies with finite non-zero mass, the impulses on A and B leave the total linear momentum unchanged |
| MotorJoint.AngularResponse | src/CinderBox2D/Dynamics/Joints/cb2MotorJoint.cpp:155-164 | An angular impulse a changes the relative angular velocity by (iA + iB) a |
| MotorJoint.LinearResponse | src/CinderBox2D/Dynamics/Joints/cb2MotorJoint.cpp:169-189 | A linear impulse p changes the relative anchor velocity by K p |
| MotorJoint.ClampLinear | src/CinderBox2D/Dynamics/Joints/cb2MotorJoint.cpp:175-181 | The result is no longer than the limit; an impulse within the limit is unchanged; a longer one is rescaled to exactly the limit, keeping its direction |
| MotorJoint.AngularStep | src/CinderBox2D/Dynamics/Joints/cb2MotorJoint.cpp:153-165 | The new angular accumulator is the old one plus -angularMass Cdot, clamped to [-h maxTorque, h maxTorque]; only the accumulator's change is applied to the bodies |
| MotorJoint.LinearStep | src/CinderBox2D/Dynamics/Joints/cb2MotorJoint.cpp:167-190 | The new linear accumulator is the old one minus linearMass Cdot, clamped by ClampLinear to length h maxForce; only the accumulator's change is applied to the bodies |
| MotorJoint.AngularStepSolves | src/CinderBox2D/Dynamics/Joints/cb2MotorJoint.cpp:153-165 | An angular block that the limit does not clip brings the biased relative angular velocity to exactly zero |
| MotorJoint.LinearStepSolves | src/CinderBox2D/Dynamics/Joints/cb2MotorJoint.cpp:167-190 | A linear block that the limit does not clip, with linear mass K^-1, brings the biased relative anchor velocity to exactly zero |
| MotorJoint.VelocityIteration | src/CinderBox2D/Dynamics/Joints/cb2MotorJoint.cpp:140-196 | After the angular block and then the linear block, both accumulators are within the limits, and each body has received exactly the change of the accumulators |
| MotorJoint.VelocityIterationClamps | src/CinderBox2D/Dynamics/Joints/cb2MotorJoint.cpp:153-190 | The angular accumulator is the clamped sum on the entry velocities; the linear one is the clamped sum on the velocities left by the angular block |
| MotorJoint.AngularStepFixedPoint | src/CinderBox2D/Dynamics/Joints/cb2MotorJoint.cpp:153-165 | When the biased relative angular velocity is zero and the accumulator is within the limit, the angular block changes nothing |
| MotorJoint.LinearStepFixedPoint | src/CinderBox2D/Dynamics/Joints/cb2MotorJoint.cpp:167-190 | When the biased relative anchor velocity is zero and the accumulator is within the limit, the linear block changes nothing |
| MotorJoint.VelocityIterationFixedPoint | src/CinderBox2D/Dynamics/Joints/cb2MotorJoint.cpp:140-196 | When both biased constraints are met and both accumulators are within the limits, an iteration changes nothing |
| MotorJoint.Iterations | src/CinderBox2D/Dynamics/Joints/cb2MotorJoint.cpp:140-196 | Over n iterations the applied impulses telescope to the accumulators' total change, and after at least one iteration the accumulators are within the limits |
| MotorJoint.SolverTemps | src/CinderBox2D/Dynamics/Joints/cb2MotorJoint.cpp:84-114 | The lever arms are the negated local centres rotated by each body's angle. The linear mass is the inverse of K, which EffectiveMassInvertible shows is a true inverse for bodies with mass. The angular mass is AngularMass. The errors are the anchor separation less the rotated target offset, and the angle difference less the angular offset; AngularErrorMeaning and LinearErrorMeaning give them their meaning |
| MotorJoint.AngularErrorMeaning | src/CinderBox2D/Dynamics/Joints/cb2MotorJoint.cpp:114 | The angular error is zero exactly when B's angle minus A's angle equals the angular offset, the offset's documented meaning (cb2MotorJoint.h) |
| MotorJoint.LinearErrorMeaning | src/CinderBox2D/Dynamics/Joints/cb2MotorJoint.cpp:113 | Under a proper rotation of A, the linear error is zero exactly when B's origin minus A's origin, in A's frame, equals the linear offset, as the offset is documented in cb2MotorJoint.h |
| MotorJoint.MotorJoint.InitVelocityConstraints | src/CinderBox2D/Dynamics/Joints/cb2MotorJoint.cpp:60-138 | Captures the bodies' data and computes the lever arms, the linear mass (the inverse of K), the angular mass and the position errors, marking the temporaries captured. The impulses are scaled by dtRatio and applied when warm starting, else zeroed with the velocities untouched; other bodies are unchanged |
| MotorJoint.MotorJoint.CaptureBodies | src/CinderBox2D/Dynamics/Joints/cb2MotorJoint.cpp:62-114 | The indices, mass data, lever arms, effective masses and position errors are the ones the current bodies and positions give |
| MotorJoint.MotorJoint.WarmStart | src/CinderBox2D/Dynamics/Joints/cb2MotorJoint.cpp:116-137 | When warm starting, the scaled impulses are applied to both bodies; otherwise the impulses become zero and no velocity changes |
| MotorJoint.MotorJoint.Iterate | src/CinderBox2D/Dynamics/Joints/cb2MotorJoint.cpp:150-190 | One iteration on the joint's state uses biases inv_h x correctionFactor x error, and its accumulators are within h maxTorque and h maxForce |
| MotorJoint.MotorJoint.SolveVelocityConstraints | src/CinderBox2D/Dynamics/Joints/cb2MotorJoint.cpp:140-196 | Runs only once the temporaries are captured. The accumulators and both bodies' velocities become those of Iterate on the old state (B written last); other bodies are unchanged |
| MotorJoint.MotorJoint.Store | src/CinderBox2D/Dynamics/Joints/cb2MotorJoint.cpp:192-195 | The accumulators take the iteration's values, and B's velocity is written last, so it wins when both bodies share an island index; other bodies are unchanged |
| MotorJoint.MotorJoint.SolvePositionConstraints | src/CinderBox2D/Dynamics/Joints/cb2MotorJoint.cpp:198-203 | There is no position constraint, so this always reports success |
| MotorJoint.MotorJoint.GetReactionForce | src/CinderBox2D/Dynamics/Joints/cb2MotorJoint.cpp:215-218 | The reaction force over the step gives back the accumulated linear impulse, and is zero when inv_dt is zero |
| MotorJoint.MotorJoint.GetReactionTorque | src/CinderBox2D/Dynamics/Joints/cb2MotorJoint.cpp:220-223 | The reaction torque over the step gives back the accumulated angular impulse, and is zero when inv_dt is zero |
| MotorJoint.MotorJoint.ReactionForceWithinLimit | src/CinderBox2D/Dynamics/Joints/cb2MotorJoint.cpp:175-181 | An accumulated impulse within the limit for step h gives a reaction force no longer than maxForce |
| MotorJoint.MotorJoint.ReactionTorqueWithinLimit | src/CinderBox2D/Dynamics/Joints/cb2MotorJoint.cpp:159-160 | An accumulated impulse within the limit for step h gives a reaction torque within [-maxTorque, maxTorque] |
| MotorJoint.MotorJoint.SetMaxForce | src/CinderBox2D/Dynamics/Joints/cb2MotorJoint.cpp:225-229 | Only a non-negative force is accepted; the getter then returns it and the limits stay in range |
| MotorJoint.MotorJoint.GetMaxForce | src/CinderBox2D/Dynamics/Joints/cb2MotorJoint.cpp:231-234 | The maximum force is non-negative while the limits are in range |
| MotorJoint.MotorJoint.SetMaxTorque | src/CinderBox2D/Dynamics/Joints/cb2MotorJoint.cpp:236-240 | Only a non-negative torque is accepted; the getter then returns it and the limits stay in range |
| MotorJoint.MotorJoint.GetMaxTorque | src/CinderBox2D/Dynamics/Joints/cb2MotorJoint.cpp:242-245 | The maximum torque is non-negative while the limits are in range |
| MotorJoint.MotorJoint.SetCorrectionFactor | src/CinderBox2D/Dynamics/Joints/cb2MotorJoint.cpp:247-251 | Only a factor in [0, 1] is accepted; the getter then returns it and the limits stay in range |
| MotorJoint.MotorJoint.GetCorrectionFactor | src/CinderBox2D/Dynamics/Joints/cb2MotorJoint.cpp:253-256 | The correction factor is in [0, 1] while the limits are in range |
| MotorJoint.MotorJoint.SetLinearOffset | src/CinderBox2D/Dynamics/Joints/cb2MotorJoint.cpp:258-271 | The getter returns the new offset; a changed offset wakes both bodies, and an unchanged one leaves their sleep state alone |
| MotorJoint.MotorJoint.SetAngularOffset | src/CinderBox2D/Dynamics/Joints/cb2MotorJoint.cpp:273-286 | The getter returns the new offset; a changed offset wakes both bodies, and an unchanged one leaves their sleep state alone |

## Left out

- The GJK query `b2Distance` (cb2Distance.h:89-91) is only declared in the header. Its body and `b2DistanceProxy::set` are in files that are not part of this model. The input, output and cache records are modelled as datatypes.
- Distance.DistanceProxy.GetSupport and GetSupportVertex require a non-empty proxy. The source reads `m_vertices[0]` without checking, so an empty proxy is undefined behaviour there, not a handled case.
- `b2EdgeShape::Clone` (cb2EdgeShape.cpp:31-37) copies the shape into allocator memory. Allocation is not modelled.
- The edge constructor and the `m_radius` field are declared in cb2EdgeShape.h, which is not part of this model. The constructor follows the skin radius `cb2_polygonRadius` from cb2Settings.h:69.
- Floating point: rounding, NaN and infinity are not modelled, and neither is `isValid` in the setters' assertions.
  - A zero-length edge normalises to NaN in the source. Every comparison with NaN then fails, and the `rr == 0` test (cb2EdgeShape.cpp:93-97) rejects the hit. `RayCastLocal` rejects such an edge up front, which has the same outcome.
- The square root and the angle-to-rotation conversion are parameters (`sqrt` with `IsSqrt`, and `rotOf`), not implementations. RayCastHitIsOnEdge, RayCastNormalIsUnit, RayCastParallelMisses and RayCastFindsCrossing require a proper rotation (`c^2 + s^2 = 1`).
- Math2D.Inverted guards on an exact zero determinant. Cinder's `Matrix22::inverted` compares against a small epsilon instead.
- `cb2MotorJointDef::Initialize` (cb2MotorJoint.cpp:35-45) reads body positions and angles through body methods that are not part of this model.
- `GetAnchorA` and `GetAnchorB` (cb2MotorJoint.cpp:205-213) return body positions, which are not part of this model.
- `Dump` (cb2MotorJoint.cpp:288-303) only writes a log.
- The default definition's body pointers and `collideConnected` come from the base `cb2JointDef`. The zero linear offset and the joint's zero initial linear impulse come from Cinder's `Vec2f` default constructor. Neither header is part of this model, so those defaults are stated, not derived.
- `SetAwake(true)` is modelled as setting a body's `awake` flag. Its other effect, resetting the sleep timer, is not modelled.
- MotorJoint.MotorJoint.SolveVelocityConstraints: its `ensures` states the new state through `Iterate`. The impulse limits are proved on `Iterate`, `VelocityIteration` and `Iterations` instead of being repeated in the method's own contract.
- The island solver's loop over velocity iterations is outside the joint. `MotorJoint.Iterations` states what repeated calls do.
- `GetLinearOffset` and `GetAngularOffset` are plain field reads. The setters' contracts state them.

## Findings

| source | as written | input that shows it | evidently intended | confidence | as-written member | corrected member |
|---|---|---|---|---|---|---|
| src/CinderBox2D/Collision/Shapes/cb2EdgeShape.cpp:105-113 | The ray is moved into the edge's frame, but the hit normal is returned in that local frame, never rotated back by `xf.q` | An edge placed by a half-turn transform (`q.s = 0`, `q.c = -1`), hit at a positive fraction: the reported normal points along the world ray | The normal rotated into the world frame (`b2Mul(xf.q, normal)`), facing against the ray | not executed | EdgeShape.EdgeShape.RayCastAsWritten (with RayCastAsWrittenDisagrees and RayCastAsWrittenNormalAlongRay) | EdgeShape.EdgeShape.RayCast (with RayCastNormalOpposesRay, RayCastNormalIsUnit, RayCastHitIsOnEdge and RayCastFindsCrossing) |
