/** The motor joint: a soft constraint that drives body B towards a target
    position and angle relative to body A, with the linear and angular
    impulses it may apply per step limited by a maximum force and torque.
    The joint is solved as an accumulated-impulse velocity constraint with a
    2x2 effective mass for the linear part and a scalar one for the angle. */
module MotorJoint {
  import opened Math2D

  /** A body's centre of mass `c` and angle `a` in the solver's arrays. */
  datatype Position = Position(c: Vec2, a: real)

  /** A body's linear velocity `v` and angular velocity `w`. */
  datatype Velocity = Velocity(v: Vec2, w: real)

  /** The parts of the time step the joint reads. */
  datatype TimeStep = TimeStep(dt: real, invDt: real, dtRatio: real, warmStarting: bool)

  /** The island's shared solver state, indexed by each body's island index. */
  datatype SolverData = SolverData(step: TimeStep, positions: array<Position>, velocities: array<Velocity>)

  datatype JointType = UnknownJoint | MotorJointType

  /** The parts of a rigid body the joint reads or wakes. */
  class Body {
    var awake: bool
    var islandIndex: int
    var localCenter: Vec2
    var invMass: real
    var invI: real

    constructor (islandIndex: int, localCenter: Vec2, invMass: real, invI: real)
      ensures awake && this.islandIndex == islandIndex && this.localCenter == localCenter
      ensures this.invMass == invMass && this.invI == invI
    {
      awake := true;
      this.islandIndex := islandIndex;
      this.localCenter := localCenter;
      this.invMass := invMass;
      this.invI := invI;
    }
  }

  datatype MotorJointDef = MotorJointDef(
    jointType: JointType,
    bodyA: Body?,
    bodyB: Body?,
    collideConnected: bool,
    /** Position of body B minus the position of body A, in A's frame. */
    linearOffset: Vec2,
    /** Angle of body B minus the angle of body A. */
    angularOffset: real,
    maxForce: real,
    maxTorque: real,
    /** Position correction factor, documented to lie in [0, 1]. */
    correctionFactor: real)

  /** The ranges the setters insist on: non-negative limits and a correction
      factor in [0, 1]. */
  predicate InRange(maxForce: real, maxTorque: real, correctionFactor: real)
  {
    0.0 <= maxForce && 0.0 <= maxTorque && 0.0 <= correctionFactor <= 1.0
  }

  /** A default definition: no bodies, zero offsets, unit limits and a
      correction factor of 0.3. */
  function DefaultDef(): (def: MotorJointDef)
    ensures def.jointType == MotorJointType
    ensures def.bodyA == null && def.bodyB == null && !def.collideConnected
    ensures def.linearOffset == Zero && def.angularOffset == 0.0
    ensures def.maxForce == 1.0 && def.maxTorque == 1.0 && def.correctionFactor == 0.3
    ensures InRange(def.maxForce, def.maxTorque, def.correctionFactor)
  {
    MotorJointDef(MotorJointType, null, null, false, Zero, 0.0, 1.0, 1.0, 0.3)
  }

  /** Inverse masses, inverse rotational inertias and lever arms (from each
      centre of mass to its body origin) of the two bodies. */
  datatype Lever = Lever(mA: real, mB: real, iA: real, iB: real, rA: Vec2, rB: Vec2)

  /** The linear effective mass K = J M^-1 J^T of the point constraint. */
  function EffectiveMass(l: Lever): (k: Mat22)
    ensures k.m01 == k.m10
  {
    var m := l.mA + l.mB;
    Mat22(
      m + l.iA * l.rA.y * l.rA.y + l.iB * l.rB.y * l.rB.y,
      -l.iA * l.rA.x * l.rA.y - l.iB * l.rB.x * l.rB.y,
      -l.iA * l.rA.x * l.rA.y - l.iB * l.rB.x * l.rB.y,
      m + l.iA * l.rA.x * l.rA.x + l.iB * l.rB.x * l.rB.x)
  }

  /** The angular effective mass: 1 / (iA + iB), or iA + iB itself when that
      sum is not positive (both bodies have fixed rotation). */
  function AngularMass(iA: real, iB: real): (m: real)
    ensures 0.0 < iA + iB ==> m * (iA + iB) == 1.0
    ensures iA + iB <= 0.0 ==> m == iA + iB
  {
    var k := iA + iB;
    if k > 0.0 then 1.0 / k else k
  }

  /** Body A after the impulse -p (applied at its lever arm) and the angular
      impulse -a. */
  function ApplyA(vel: Velocity, l: Lever, p: Vec2, a: real): Velocity
  {
    Velocity(Sub(vel.v, Scale(l.mA, p)), vel.w - l.iA * (Cross(l.rA, p) + a))
  }

  /** Body B after the impulse p (applied at its lever arm) and the angular
      impulse a. */
  function ApplyB(vel: Velocity, l: Lever, p: Vec2, a: real): Velocity
  {
    Velocity(Add(vel.v, Scale(l.mB, p)), vel.w + l.iB * (Cross(l.rB, p) + a))
  }

  /** Velocity of B's anchor relative to A's anchor (the linear Cdot without
      its position bias). */
  function RelativeVelocity(velA: Velocity, velB: Velocity, l: Lever): Vec2
  {
    Sub(Sub(Add(velB.v, CrossSV(velB.w, l.rB)), velA.v), CrossSV(velA.w, l.rA))
  }

  /** Limit an accumulated linear impulse to length |maxImpulse|: a vector
      that is too long is rescaled to unit length and multiplied by
      maxImpulse. */
  function ClampLinear(p: Vec2, maxImpulse: real, sqrt: real -> real): (r: Vec2)
    requires IsSqrt(sqrt)
    ensures LengthSquared(r) <= Sq(maxImpulse)
    ensures LengthSquared(p) <= Sq(maxImpulse) ==> r == p
    ensures Sq(maxImpulse) < LengthSquared(p) ==> LengthSquared(r) == Sq(maxImpulse)
    ensures Sq(maxImpulse) < LengthSquared(p) && 0.0 < maxImpulse ==> IsPositiveMultiple(r, p)
  {
    if LengthSquared(p) > maxImpulse * maxImpulse then
      var n := Normalize(p, sqrt);
      LengthSquaredScale(maxImpulse, n);
      assert 0.0 < maxImpulse ==> IsPositiveMultiple(Scale(maxImpulse, n), p) by {
        var k :| 0.0 < k && n == Scale(k, p);
        assert Scale(maxImpulse, n) == Scale(maxImpulse * k, p);
        assert 0.0 < maxImpulse ==> 0.0 < maxImpulse * k;
      }
      Scale(maxImpulse, n)
    else
      p
  }

  /** An impulse of zero leaves both bodies as they were. */
  lemma ApplyZero(vel: Velocity, l: Lever)
    ensures ApplyA(vel, l, Zero, 0.0) == vel
    ensures ApplyB(vel, l, Zero, 0.0) == vel
  {
  }

  /** Two impulses' moments about one lever arm add up. */
  lemma MomentOfSum(r: Vec2, p1: Vec2, a1: real, p2: Vec2, a2: real)
    ensures Cross(r, Add(p1, p2)) + (a1 + a2) == (Cross(r, p1) + a1) + (Cross(r, p2) + a2)
  {
    assert r.x * (p1.y + p2.y) == r.x * p1.y + r.x * p2.y;
    assert r.y * (p1.x + p2.x) == r.y * p1.x + r.y * p2.x;
  }

  /** Two scaled steps on one value are one step by the sum. */
  lemma StepsAdd(w: real, k: real, x1: real, x2: real)
    ensures (w - k * x1) - k * x2 == w - k * (x1 + x2)
    ensures (w + k * x1) + k * x2 == w + k * (x1 + x2)
  {
    assert k * (x1 + x2) == k * x1 + k * x2;
  }

  /** Two scaled vector steps on one vector are one step by the sum. */
  lemma VectorStepsAdd(v: Vec2, m: real, p1: Vec2, p2: Vec2)
    ensures Sub(Sub(v, Scale(m, p1)), Scale(m, p2)) == Sub(v, Scale(m, Add(p1, p2)))
    ensures Add(Add(v, Scale(m, p1)), Scale(m, p2)) == Add(v, Scale(m, Add(p1, p2)))
  {
    assert m * (p1.x + p2.x) == m * p1.x + m * p2.x;
    assert m * (p1.y + p2.y) == m * p1.y + m * p2.y;
  }

  /** Applying two impulses in turn is applying their sum. */
  lemma ApplyCompose(vel: Velocity, l: Lever, p1: Vec2, a1: real, p2: Vec2, a2: real)
    ensures ApplyA(ApplyA(vel, l, p1, a1), l, p2, a2) == ApplyA(vel, l, Add(p1, p2), a1 + a2)
    ensures ApplyB(ApplyB(vel, l, p1, a1), l, p2, a2) == ApplyB(vel, l, Add(p1, p2), a1 + a2)
  {
    VectorStepsAdd(vel.v, l.mA, p1, p2);
    VectorStepsAdd(vel.v, l.mB, p1, p2);
    MomentOfSum(l.rA, p1, a1, p2, a2);
    MomentOfSum(l.rB, p1, a1, p2, a2);
    StepsAdd(vel.w, l.iA, Cross(l.rA, p1) + a1, Cross(l.rA, p2) + a2);
    StepsAdd(vel.w, l.iB, Cross(l.rB, p1) + a1, Cross(l.rB, p2) + a2);
  }

  /** The opposite impulse undoes an impulse. */
  lemma ApplyUndo(vel: Velocity, l: Lever, p: Vec2, a: real)
    ensures ApplyA(ApplyA(vel, l, p, a), l, Neg(p), -a) == vel
    ensures ApplyB(ApplyB(vel, l, p, a), l, Neg(p), -a) == vel
  {
    ApplyCompose(vel, l, p, a, Neg(p), -a);
    assert Add(p, Neg(p)) == Zero;
    ApplyZero(vel, l);
  }

  /** Two bodies moving as one rigid body, with the anchors at the same
      world point (so B's centre sits at rA - rB from A's), have no relative
      anchor velocity. */
  lemma RigidMotionHasNoRelativeVelocity(velA: Velocity, velB: Velocity, l: Lever)
    requires velB.w == velA.w
    requires velB.v == Add(velA.v, CrossSV(velA.w, Sub(l.rA, l.rB)))
    ensures RelativeVelocity(velA, velB, l) == Zero
  {
    var w := velA.w;
    assert w * (l.rA.x - l.rB.x) == w * l.rA.x - w * l.rB.x;
    assert w * (l.rA.y - l.rB.y) == w * l.rA.y - w * l.rB.y;
  }

  /** The impulses on A and B are equal and opposite, so the total linear
      momentum of two bodies with positive mass is unchanged. */
  lemma ApplyConservesMomentum(velA: Velocity, velB: Velocity, l: Lever, p: Vec2, a: real)
    requires l.mA != 0.0 && l.mB != 0.0
    ensures var va, vb := ApplyA(velA, l, p, a).v, ApplyB(velB, l, p, a).v;
      Add(Scale(1.0 / l.mA, va), Scale(1.0 / l.mB, vb)) == Add(Scale(1.0 / l.mA, velA.v), Scale(1.0 / l.mB, velB.v))
  {
    var ka, kb := 1.0 / l.mA, 1.0 / l.mB;
    assert ka * l.mA == 1.0 && kb * l.mB == 1.0;
    assert ka * (velA.v.x - l.mA * p.x) == ka * velA.v.x - (ka * l.mA) * p.x;
    assert ka * (velA.v.y - l.mA * p.y) == ka * velA.v.y - (ka * l.mA) * p.y;
    assert kb * (velB.v.x + l.mB * p.x) == kb * velB.v.x + (kb * l.mB) * p.x;
    assert kb * (velB.v.y + l.mB * p.y) == kb * velB.v.y + (kb * l.mB) * p.y;
  }

  /** An angular impulse a changes the relative angular velocity by
      (iA + iB) * a, which is what the angular mass inverts. */
  lemma AngularResponse(velA: Velocity, velB: Velocity, l: Lever, a: real)
    ensures ApplyB(velB, l, Zero, a).w - ApplyA(velA, l, Zero, a).w == velB.w - velA.w + (l.iA + l.iB) * a
  {
    assert l.iA * (Cross(l.rA, Zero) + a) == l.iA * a;
    assert l.iB * (Cross(l.rB, Zero) + a) == l.iB * a;
  }

  /** A linear impulse p changes the relative anchor velocity by K p, with K
      the effective mass. */
  lemma LinearResponse(velA: Velocity, velB: Velocity, l: Lever, p: Vec2)
    ensures RelativeVelocity(ApplyA(velA, l, p, 0.0), ApplyB(velB, l, p, 0.0), l)
         == Add(RelativeVelocity(velA, velB, l), MulMV(EffectiveMass(l), p))
  {
    ApplyLinearOnly(velA, velB, l, p);
    var velA1, velB1 := ApplyA(velA, l, p, 0.0), ApplyB(velB, l, p, 0.0);
    CrossSVSplit(velA1.w, velA.w, -(l.iA * Cross(l.rA, p)), l.rA);
    CrossSVSplit(velB1.w, velB.w, l.iB * Cross(l.rB, p), l.rB);
    var ta := LeverTerm(l.iA, l.rA, p);
    var tb := LeverTerm(l.iB, l.rB, p);
    EffectiveMassTimes(l, p);
    ResponseAlgebra(velA.v, velB.v, CrossSV(velA.w, l.rA), CrossSV(velB.w, l.rB), l.mA, l.mB, p, ta, tb);
  }

  /** A purely linear impulse p moves each body's angular velocity by its
      inverse inertia times the moment of p about the body's lever arm. */
  lemma ApplyLinearOnly(velA: Velocity, velB: Velocity, l: Lever, p: Vec2)
    ensures ApplyA(velA, l, p, 0.0) == Velocity(Sub(velA.v, Scale(l.mA, p)), velA.w - l.iA * Cross(l.rA, p))
    ensures ApplyB(velB, l, p, 0.0) == Velocity(Add(velB.v, Scale(l.mB, p)), velB.w + l.iB * Cross(l.rB, p))
  {
  }

  /** The vector bookkeeping behind LinearResponse. */
  lemma ResponseAlgebra(vA: Vec2, vB: Vec2, cA: Vec2, cB: Vec2, mA: real, mB: real, p: Vec2, ta: Vec2, tb: Vec2)
    ensures Sub(Sub(Add(Add(vB, Scale(mB, p)), Add(cB, tb)), Sub(vA, Scale(mA, p))), Add(cA, Neg(ta)))
         == Add(Sub(Sub(Add(vB, cB), vA), cA), Add(Scale(mA + mB, p), Add(ta, tb)))
  {
    assert (mA + mB) * p.x == mA * p.x + mB * p.x;
    assert (mA + mB) * p.y == mA * p.y + mB * p.y;
  }

  /** K p splits into the mass term and one lever term per body. */
  lemma EffectiveMassTimes(l: Lever, p: Vec2)
    ensures MulMV(EffectiveMass(l), p) == Add(Scale(l.mA + l.mB, p), Add(LeverTerm(l.iA, l.rA, p), LeverTerm(l.iB, l.rB, p)))
  {
    EffectiveMassTimesX(l, p);
    EffectiveMassTimesY(l, p);
  }

  lemma EffectiveMassTimesX(l: Lever, p: Vec2)
    ensures MulMV(EffectiveMass(l), p).x == (l.mA + l.mB) * p.x + (LeverTerm(l.iA, l.rA, p).x + LeverTerm(l.iB, l.rB, p).x)
  {
    var k := EffectiveMass(l);
    MassRow(k.m00, k.m01, l.mA + l.mB, l.iA * l.rA.y * l.rA.y, l.iB * l.rB.y * l.rB.y,
      -l.iA * l.rA.x * l.rA.y, l.iB, l.rB.x, l.rB.y, p.x, p.y);
  }

  lemma EffectiveMassTimesY(l: Lever, p: Vec2)
    ensures MulMV(EffectiveMass(l), p).y == (l.mA + l.mB) * p.y + (LeverTerm(l.iA, l.rA, p).y + LeverTerm(l.iB, l.rB, p).y)
  {
    var k := EffectiveMass(l);
    MassRow(k.m11, k.m10, l.mA + l.mB, l.iA * l.rA.x * l.rA.x, l.iB * l.rB.x * l.rB.x,
      -l.iA * l.rA.x * l.rA.y, l.iB, l.rB.x, l.rB.y, p.y, p.x);
  }

  lemma CrossSVSplit(s: real, w: real, d: real, r: Vec2)
    requires s == w + d
    ensures CrossSV(s, r) == Add(CrossSV(w, r), CrossSV(d, r))
  {
    assert -s * r.y == -w * r.y + -d * r.y;
    assert s * r.x == w * r.x + d * r.x;
  }

  /** The part of K p contributed by one body: i (r x p) rotated a quarter turn times r. */
  function LeverTerm(i: real, r: Vec2, p: Vec2): (t: Vec2)
    ensures CrossSV(i * Cross(r, p), r) == t
    ensures CrossSV(-(i * Cross(r, p)), r) == Neg(t)
  {
    var t := Vec2(i * r.y * r.y * p.x + -i * r.x * r.y * p.y, i * r.x * r.x * p.y + -i * r.x * r.y * p.x);
    LeverTermProof(i, r.x, r.y, p.x, p.y);
    t
  }

  lemma LeverTermProof(i: real, rx: real, ry: real, px: real, py: real)
    ensures -(i * (rx * py - ry * px)) * ry == i * ry * ry * px + -i * rx * ry * py
    ensures (i * (rx * py - ry * px)) * rx == i * rx * rx * py + -i * rx * ry * px
    ensures --(i * (rx * py - ry * px)) * ry == -(i * ry * ry * px + -i * rx * ry * py)
    ensures -(i * (rx * py - ry * px)) * rx == -(i * rx * rx * py + -i * rx * ry * px)
  {
    assert i * (rx * py - ry * px) == i * (rx * py) - i * (ry * px);
    assert (i * (rx * py) - i * (ry * px)) * ry == i * (rx * py) * ry - i * (ry * px) * ry;
    assert (i * (rx * py) - i * (ry * px)) * rx == i * (rx * py) * rx - i * (ry * px) * rx;
  }

  /** One row of K p: (m + a + b) x + c y. */
  lemma MassRow(kd: real, ko: real, m: real, a: real, b: real, c1: real, i: real, rx: real, ry: real, x: real, y: real)
    requires kd == m + a + b && ko == c1 - i * rx * ry
    ensures kd * x + ko * y == m * x + ((a * x + c1 * y) + (b * x + -i * rx * ry * y))
  {
    assert kd * x == (m + a + b) * x;
    assert ko * y == (c1 - i * rx * ry) * y;
    assert -i * rx * ry == -(i * rx * ry);
  }

  /** det K = m^2 + m (iA |rA|^2 + iB |rB|^2) + iA iB (rA x rB)^2 with m = mA + mB. */
  lemma EffectiveMassDet(l: Lever)
    ensures var m := l.mA + l.mB;
      Det(EffectiveMass(l))
      == Sq(m) + m * (l.iA * LengthSquared(l.rA) + l.iB * LengthSquared(l.rB)) + l.iA * l.iB * Sq(Cross(l.rA, l.rB))
  {
    var m := l.mA + l.mB;
    var a := m + l.iA * l.rA.y * l.rA.y + l.iB * l.rB.y * l.rB.y;
    var b := m + l.iA * l.rA.x * l.rA.x + l.iB * l.rB.x * l.rB.x;
    var c := -l.iA * l.rA.x * l.rA.y - l.iB * l.rB.x * l.rB.y;
    calc {
      Det(EffectiveMass(l));
    == { DetSymmetric(EffectiveMass(l), a, b, c); }
      a * b - c * c;
    == { DetOfLeverArms(m, l.iA, l.iB, l.rA, l.rB); }
      Sq(m) + m * (l.iA * LengthSquared(l.rA) + l.iB * LengthSquared(l.rB)) + l.iA * l.iB * Sq(Cross(l.rA, l.rB));
    }
  }

  /** DetFormula with the lever arms as vectors. */
  lemma DetOfLeverArms(m: real, iA: real, iB: real, rA: Vec2, rB: Vec2)
    ensures (m + iA * rA.y * rA.y + iB * rB.y * rB.y) * (m + iA * rA.x * rA.x + iB * rB.x * rB.x)
            - (-iA * rA.x * rA.y - iB * rB.x * rB.y) * (-iA * rA.x * rA.y - iB * rB.x * rB.y)
         == Sq(m) + m * (iA * LengthSquared(rA) + iB * LengthSquared(rB)) + iA * iB * Sq(Cross(rA, rB))
  {
    DetFormula(m, iA, iB, rA.x, rA.y, rB.x, rB.y);
    assert LengthSquared(rA) == Sq(rA.x) + Sq(rA.y);
    assert LengthSquared(rB) == Sq(rB.x) + Sq(rB.y);
  }

  lemma DetFormula(m: real, iA: real, iB: real, x1: real, y1: real, x2: real, y2: real)
    ensures (m + iA * y1 * y1 + iB * y2 * y2) * (m + iA * x1 * x1 + iB * x2 * x2)
            - (-iA * x1 * y1 - iB * x2 * y2) * (-iA * x1 * y1 - iB * x2 * y2)
         == Sq(m) + m * (iA * (Sq(x1) + Sq(y1)) + iB * (Sq(x2) + Sq(y2))) + iA * iB * Sq(x1 * y2 - y1 * x2)
  {
    assert -iA * x1 * y1 == -(iA * x1 * y1);
    DetExpand(m, iA * y1 * y1, iB * y2 * y2, iA * x1 * x1, iB * x2 * x2, iA * x1 * y1, iB * x2 * y2);
    CrossTerms(iA, iB, x1, y1, x2, y2);
    assert m * (iA * y1 * y1 + iB * y2 * y2 + (iA * x1 * x1 + iB * x2 * x2))
        == m * (iA * (Sq(x1) + Sq(y1)) + iB * (Sq(x2) + Sq(y2)));
  }

  lemma DetSymmetric(k: Mat22, a: real, b: real, c: real)
    requires k.m00 == a && k.m11 == b && k.m01 == c && k.m10 == c
    ensures Det(k) == a * b - c * c
  {
  }

  lemma DetExpand(m: real, s1: real, s2: real, t1: real, t2: real, u1: real, u2: real)
    ensures (m + (s1 + s2)) * (m + (t1 + t2)) - (-u1 - u2) * (-u1 - u2)
         == Sq(m) + m * (s1 + s2 + (t1 + t2)) + (s1 * t1 - u1 * u1) + (s2 * t2 - u2 * u2) + (s1 * t2 + s2 * t1 - 2.0 * (u1 * u2))
  {
    var a, b := s1 + s2, t1 + t2;
    assert (m + a) * (m + b) == m * m + m * (a + b) + a * b;
    assert a * b == s1 * t1 + s1 * t2 + s2 * t1 + s2 * t2;
    assert (-u1 - u2) * (-u1 - u2) == u1 * u1 + 2.0 * (u1 * u2) + u2 * u2;
  }

  /** The off-diagonal products of K collapse to iA iB (rA x rB)^2. */
  lemma CrossTerms(iA: real, iB: real, x1: real, y1: real, x2: real, y2: real)
    ensures iA * y1 * y1 * (iA * x1 * x1) - iA * x1 * y1 * (iA * x1 * y1) == 0.0
    ensures iB * y2 * y2 * (iB * x2 * x2) - iB * x2 * y2 * (iB * x2 * y2) == 0.0
    ensures iA * y1 * y1 * (iB * x2 * x2) + iB * y2 * y2 * (iA * x1 * x1) - 2.0 * (iA * x1 * y1 * (iB * x2 * y2))
         == iA * iB * Sq(x1 * y2 - y1 * x2)
  {
    var ab, p, q := iA * iB, x1 * y2, y1 * x2;
    assert iA * y1 * y1 * (iB * x2 * x2) == ab * (q * q);
    assert iB * y2 * y2 * (iA * x1 * x1) == ab * (p * p);
    assert iA * x1 * y1 * (iB * x2 * y2) == ab * (p * q);
    assert (p - q) * (p - q) == p * (p - q) - q * (p - q);
    assert p * (p - q) == p * p - p * q;
    assert q * (p - q) == q * p - q * q;
    assert ab * ((p - q) * (p - q)) == ab * (p * p) - 2.0 * (ab * (p * q)) + ab * (q * q);
  }

  /** When neither body has negative inverse mass or inertia and one of them
      has positive mass, K is invertible and the linear mass is its inverse. */
  lemma EffectiveMassInvertible(l: Lever)
    requires 0.0 <= l.mA && 0.0 <= l.mB && 0.0 <= l.iA && 0.0 <= l.iB
    requires 0.0 < l.mA + l.mB
    ensures 0.0 < Det(EffectiveMass(l))
    ensures forall v :: MulMV(Inverted(EffectiveMass(l)), MulMV(EffectiveMass(l), v)) == v
  {
    var m := l.mA + l.mB;
    EffectiveMassDet(l);
    SqPositive(m);
    var t := l.iA * LengthSquared(l.rA) + l.iB * LengthSquared(l.rB);
    assert 0.0 <= l.iA * LengthSquared(l.rA);
    assert 0.0 <= l.iB * LengthSquared(l.rB);
    assert 0.0 <= m * t;
    assert 0.0 <= l.iA * l.iB;
    assert 0.0 <= (l.iA * l.iB) * Sq(Cross(l.rA, l.rB));
  }

  /** A quantity within the square of h * f shrinks to within the square of f
      once divided by h squared. */
  lemma ShrinkSquareBound(h: real, q: real, f: real)
    requires 0.0 < h && q <= Sq(h * f)
    ensures Sq(1.0 / h) * q <= Sq(f)
  {
    InverseSquare(h);
    assert Sq(h * f) == Sq(h) * Sq(f);
    assert 0.0 <= Sq(1.0 / h);
    assert Sq(1.0 / h) * q <= Sq(1.0 / h) * (Sq(h) * Sq(f));
    assert Sq(1.0 / h) * (Sq(h) * Sq(f)) == (Sq(1.0 / h) * Sq(h)) * Sq(f);
  }

  /** An impulse of length at most h * f, spread over a step h, is a force
      of length at most |f|. */
  lemma ShrinkVectorBound(h: real, p: Vec2, f: real)
    requires 0.0 < h && LengthSquared(p) <= Sq(h * f)
    ensures LengthSquared(Scale(1.0 / h, p)) <= Sq(f)
  {
    LengthSquaredScale(1.0 / h, p);
    ShrinkSquareBound(h, LengthSquared(p), f);
  }

  /** A quantity within h * m of zero shrinks to within m once divided by h. */
  lemma ShrinkBound(h: real, t: real, m: real)
    requires 0.0 < h && -(h * m) <= t <= h * m
    ensures -m <= (1.0 / h) * t <= m
  {
    var k := 1.0 / h;
    assert k * h == 1.0;
    assert 0.0 < k;
    assert k * t <= k * (h * m);
    assert k * -(h * m) <= k * t;
    assert k * (h * m) == (k * h) * m;
  }

  /** Accumulated impulses within the step's limits: the angular one in
      [-maxAngular, maxAngular] (when that range is not empty) and the linear
      one no longer than |maxLinear|. */
  predicate ImpulsesWithin(angular: real, linear: Vec2, maxAngular: real, maxLinear: real)
  {
    && (0.0 <= maxAngular ==> -maxAngular <= angular <= maxAngular)
    && LengthSquared(linear) <= Sq(maxLinear)
  }

  /** An accumulated angular impulse and the two bodies' velocities after an
      angular block. */
  datatype AngularResult = AngularResult(impulse: real, velA: Velocity, velB: Velocity)

  /** An accumulated linear impulse and the two bodies' velocities after a
      linear block. */
  datatype LinearResult = LinearResult(impulse: Vec2, velA: Velocity, velB: Velocity)

  /** The angular block: the impulse that cancels the relative angular
      velocity plus `bias` is added to `accum`, the sum is clamped to
      [-maxImpulse, maxImpulse], and the change is applied to both bodies. */
  function AngularStep(velA: Velocity, velB: Velocity, l: Lever, angularMass: real, bias: real,
                       maxImpulse: real, accum: real): (r: AngularResult)
    ensures r.impulse == Clamp(accum + -angularMass * (velB.w - velA.w + bias), -maxImpulse, maxImpulse)
    ensures 0.0 <= maxImpulse ==> -maxImpulse <= r.impulse <= maxImpulse
    ensures r.velA == ApplyA(velA, l, Zero, r.impulse - accum) && r.velB == ApplyB(velB, l, Zero, r.impulse - accum)
  {
    var cdot := velB.w - velA.w + bias;
    var impulse := Clamp(accum + -angularMass * cdot, -maxImpulse, maxImpulse);
    AngularResult(impulse, ApplyA(velA, l, Zero, impulse - accum), ApplyB(velB, l, Zero, impulse - accum))
  }

  /** The linear block: the impulse that cancels the relative anchor velocity
      plus `bias` (through the inverse effective mass `linearMass`) is added
      to `accum`, the sum is clamped to length |maxImpulse|, and the change
      is applied to both bodies. */
  function LinearStep(velA: Velocity, velB: Velocity, l: Lever, linearMass: Mat22, bias: Vec2,
                      maxImpulse: real, accum: Vec2, sqrt: real -> real): (r: LinearResult)
    requires IsSqrt(sqrt)
    ensures r.impulse == ClampLinear(Add(accum, Neg(MulMV(linearMass, Add(RelativeVelocity(velA, velB, l), bias)))), maxImpulse, sqrt)
    ensures LengthSquared(r.impulse) <= Sq(maxImpulse)
    ensures var p := Sub(r.impulse, accum);
      r.velA == ApplyA(velA, l, p, 0.0) && r.velB == ApplyB(velB, l, p, 0.0)
  {
    var cdot := Add(RelativeVelocity(velA, velB, l), bias);
    var impulse := ClampLinear(Add(accum, Neg(MulMV(linearMass, cdot))), maxImpulse, sqrt);
    var p := Sub(impulse, accum);
    LinearResult(impulse, ApplyA(velA, l, p, 0.0), ApplyB(velB, l, p, 0.0))
  }

  /** An impulse -m * c, with m the inverse of k, cancels c through k. */
  lemma CancelByInverse(k: real, m: real, c: real, d: real)
    requires m * k == 1.0 && d == -m * c
    ensures c + k * d == 0.0
  {
    assert k * d == -(m * k) * c;
  }

  /** An angular block that the torque limit does not clip leaves the
      bodies with relative angular velocity exactly -bias. */
  lemma AngularStepSolves(velA: Velocity, velB: Velocity, l: Lever, angularMass: real, bias: real,
                          maxImpulse: real, accum: real)
    requires 0.0 < l.iA + l.iB && angularMass == AngularMass(l.iA, l.iB)
    requires -maxImpulse <= accum + -angularMass * (velB.w - velA.w + bias) <= maxImpulse
    ensures var r := AngularStep(velA, velB, l, angularMass, bias, maxImpulse, accum);
      r.velB.w - r.velA.w + bias == 0.0
  {
    var cdot := velB.w - velA.w + bias;
    var r := AngularStep(velA, velB, l, angularMass, bias, maxImpulse, accum);
    var d := r.impulse - accum;
    assert d == -angularMass * cdot;
    AngularResponse(velA, velB, l, d);
    CancelByInverse(l.iA + l.iB, angularMass, cdot, d);
  }

  /** A linear block that the force limit does not clip, run with the
      inverse of an invertible effective mass, leaves the anchors with
      relative velocity exactly -bias. */
  lemma LinearStepSolves(velA: Velocity, velB: Velocity, l: Lever, linearMass: Mat22, bias: Vec2,
                         maxImpulse: real, accum: Vec2, sqrt: real -> real)
    requires IsSqrt(sqrt)
    requires Det(EffectiveMass(l)) != 0.0 && linearMass == Inverted(EffectiveMass(l))
    requires LengthSquared(Add(accum, Neg(MulMV(linearMass, Add(RelativeVelocity(velA, velB, l), bias))))) <= Sq(maxImpulse)
    ensures var r := LinearStep(velA, velB, l, linearMass, bias, maxImpulse, accum, sqrt);
      Add(RelativeVelocity(r.velA, r.velB, l), bias) == Zero
  {
    var k := EffectiveMass(l);
    var cdot := Add(RelativeVelocity(velA, velB, l), bias);
    var u := MulMV(linearMass, cdot);
    var r := LinearStep(velA, velB, l, linearMass, bias, maxImpulse, accum, sqrt);
    var p := Sub(r.impulse, accum);
    assert r.impulse == Add(accum, Neg(u));
    assert p == Neg(u);
    LinearResponse(velA, velB, l, p);
    assert MulMV(k, u) == cdot;
    assert MulMV(k, Neg(u)) == Neg(MulMV(k, u));
  }

  /** The accumulators and the two bodies' velocities after one velocity
      iteration. */
  datatype Iteration = Iteration(angularImpulse: real, linearImpulse: Vec2, velA: Velocity, velB: Velocity)

  /** One velocity iteration of the motor joint on values: the angular block,
      then the linear block on the velocities it leaves. */
  function VelocityIteration(velA: Velocity, velB: Velocity, l: Lever, angularMass: real, linearMass: Mat22,
                             angularBias: real, linearBias: Vec2, maxAngular: real, maxLinear: real,
                             angularImpulse: real, linearImpulse: Vec2, sqrt: real -> real): (it: Iteration)
    requires IsSqrt(sqrt)
    ensures ImpulsesWithin(it.angularImpulse, it.linearImpulse, maxAngular, maxLinear)
    ensures var da, dp := it.angularImpulse - angularImpulse, Sub(it.linearImpulse, linearImpulse);
      && it.velA == ApplyA(velA, l, dp, da)
      && it.velB == ApplyB(velB, l, dp, da)
  {
    var ang := AngularStep(velA, velB, l, angularMass, angularBias, maxAngular, angularImpulse);
    var lin := LinearStep(ang.velA, ang.velB, l, linearMass, linearBias, maxLinear, linearImpulse, sqrt);
    var da, dp := ang.impulse - angularImpulse, Sub(lin.impulse, linearImpulse);
    ApplyCompose(velA, l, Zero, da, dp, 0.0);
    ApplyCompose(velB, l, Zero, da, dp, 0.0);
    Iteration(ang.impulse, lin.impulse, lin.velA, lin.velB)
  }

  /** The accumulators an iteration produces: the angular one is the clamped
      sum of the old one and the impulse that cancels the biased relative
      angular velocity; the linear one is the clamped sum of the old one and
      the impulse that cancels the biased relative anchor velocity left by
      the angular block. */
  lemma VelocityIterationClamps(velA: Velocity, velB: Velocity, l: Lever, angularMass: real, linearMass: Mat22,
                                angularBias: real, linearBias: Vec2, maxAngular: real, maxLinear: real,
                                angularImpulse: real, linearImpulse: Vec2, sqrt: real -> real)
    requires IsSqrt(sqrt)
    ensures var it := VelocityIteration(velA, velB, l, angularMass, linearMass, angularBias, linearBias,
                                        maxAngular, maxLinear, angularImpulse, linearImpulse, sqrt);
      it.angularImpulse == Clamp(angularImpulse + -angularMass * (velB.w - velA.w + angularBias), -maxAngular, maxAngular)
    ensures var it := VelocityIteration(velA, velB, l, angularMass, linearMass, angularBias, linearBias,
                                        maxAngular, maxLinear, angularImpulse, linearImpulse, sqrt);
      var da := it.angularImpulse - angularImpulse;
      var midA, midB := ApplyA(velA, l, Zero, da), ApplyB(velB, l, Zero, da);
      it.linearImpulse
      == ClampLinear(Add(linearImpulse, Neg(MulMV(linearMass, Add(RelativeVelocity(midA, midB, l), linearBias)))), maxLinear, sqrt)
  {
    var ang := AngularStep(velA, velB, l, angularMass, angularBias, maxAngular, angularImpulse);
    var lin := LinearStep(ang.velA, ang.velB, l, linearMass, linearBias, maxLinear, linearImpulse, sqrt);
    assert VelocityIteration(velA, velB, l, angularMass, linearMass, angularBias, linearBias,
                             maxAngular, maxLinear, angularImpulse, linearImpulse, sqrt).angularImpulse == ang.impulse;
    assert VelocityIteration(velA, velB, l, angularMass, linearMass, angularBias, linearBias,
                             maxAngular, maxLinear, angularImpulse, linearImpulse, sqrt).linearImpulse == lin.impulse;
  }

  /** An angular block started where the biased constraint holds and the
      accumulator is within its limit changes nothing. */
  lemma AngularStepFixedPoint(velA: Velocity, velB: Velocity, l: Lever, angularMass: real, bias: real,
                              maxImpulse: real, accum: real)
    requires velB.w - velA.w + bias == 0.0
    requires -maxImpulse <= accum <= maxImpulse
    ensures AngularStep(velA, velB, l, angularMass, bias, maxImpulse, accum) == AngularResult(accum, velA, velB)
  {
    var r := AngularStep(velA, velB, l, angularMass, bias, maxImpulse, accum);
    assert -angularMass * (velB.w - velA.w + bias) == 0.0;
    assert r.impulse == accum;
    ApplyZero(velA, l);
    ApplyZero(velB, l);
  }

  /** A linear block started where the biased constraint holds and the
      accumulator is within its limit changes nothing. */
  lemma LinearStepFixedPoint(velA: Velocity, velB: Velocity, l: Lever, linearMass: Mat22, bias: Vec2,
                             maxImpulse: real, accum: Vec2, sqrt: real -> real)
    requires IsSqrt(sqrt)
    requires Add(RelativeVelocity(velA, velB, l), bias) == Zero
    requires LengthSquared(accum) <= Sq(maxImpulse)
    ensures LinearStep(velA, velB, l, linearMass, bias, maxImpulse, accum, sqrt) == LinearResult(accum, velA, velB)
  {
    var cdot := Add(RelativeVelocity(velA, velB, l), bias);
    var u := Add(accum, Neg(MulMV(linearMass, cdot)));
    assert u == accum by {
      assert cdot == Zero;
      SubtractNothing(linearMass, accum);
    }
    var r := LinearStep(velA, velB, l, linearMass, bias, maxImpulse, accum, sqrt);
    assert r.impulse == ClampLinear(u, maxImpulse, sqrt);
    assert Sub(accum, accum) == Zero;
    ApplyZero(velA, l);
    ApplyZero(velB, l);
  }

  /** Subtracting m times the zero vector leaves a vector unchanged. */
  lemma SubtractNothing(m: Mat22, a: Vec2)
    ensures Add(a, Neg(MulMV(m, Zero))) == a
  {
    assert MulMV(m, Zero) == Zero;
  }

  /** An iteration started where both biased constraints already hold and
      both accumulators are within their limits changes nothing: the
      solution is a fixed point of the velocity iteration. */
  lemma VelocityIterationFixedPoint(velA: Velocity, velB: Velocity, l: Lever, angularMass: real, linearMass: Mat22,
                                    angularBias: real, linearBias: Vec2, maxAngular: real, maxLinear: real,
                                    angularImpulse: real, linearImpulse: Vec2, sqrt: real -> real)
    requires IsSqrt(sqrt)
    requires velB.w - velA.w + angularBias == 0.0
    requires Add(RelativeVelocity(velA, velB, l), linearBias) == Zero
    requires -maxAngular <= angularImpulse <= maxAngular
    requires LengthSquared(linearImpulse) <= Sq(maxLinear)
    ensures VelocityIteration(velA, velB, l, angularMass, linearMass, angularBias, linearBias,
                              maxAngular, maxLinear, angularImpulse, linearImpulse, sqrt)
         == Iteration(angularImpulse, linearImpulse, velA, velB)
  {
    AngularStepFixedPoint(velA, velB, l, angularMass, angularBias, maxAngular, angularImpulse);
    LinearStepFixedPoint(velA, velB, l, linearMass, linearBias, maxLinear, linearImpulse, sqrt);
  }

  /** Two applications given as changes of an accumulator (from 0 to 1, then
      from 1 to 2) amount to one application of the change from 0 to 2. */
  lemma ChainApply(velA: Velocity, velB: Velocity, l: Lever, a0: real, p0: Vec2, a1: real, p1: Vec2, a2: real, p2: Vec2,
                   midA: Velocity, midB: Velocity, endA: Velocity, endB: Velocity)
    requires midA == ApplyA(velA, l, Sub(p1, p0), a1 - a0) && midB == ApplyB(velB, l, Sub(p1, p0), a1 - a0)
    requires endA == ApplyA(midA, l, Sub(p2, p1), a2 - a1) && endB == ApplyB(midB, l, Sub(p2, p1), a2 - a1)
    ensures endA == ApplyA(velA, l, Sub(p2, p0), a2 - a0) && endB == ApplyB(velB, l, Sub(p2, p0), a2 - a0)
  {
    ApplyCompose(velA, l, Sub(p1, p0), a1 - a0, Sub(p2, p1), a2 - a1);
    ApplyCompose(velB, l, Sub(p1, p0), a1 - a0, Sub(p2, p1), a2 - a1);
    assert Add(Sub(p1, p0), Sub(p2, p1)) == Sub(p2, p0);
  }

  /** n velocity iterations in a row on the same constraint, as the island
      solver runs them within one step. The impulses applied over the
      iterations telescope: the bodies end up moved by exactly the change of
      the accumulated impulses, and the accumulators stay within the limits. */
  function Iterations(n: nat, velA: Velocity, velB: Velocity, l: Lever, angularMass: real, linearMass: Mat22,
                      angularBias: real, linearBias: Vec2, maxAngular: real, maxLinear: real,
                      angularImpulse: real, linearImpulse: Vec2, sqrt: real -> real): (it: Iteration)
    requires IsSqrt(sqrt)
    ensures var da, dp := it.angularImpulse - angularImpulse, Sub(it.linearImpulse, linearImpulse);
      it.velA == ApplyA(velA, l, dp, da) && it.velB == ApplyB(velB, l, dp, da)
    ensures 0 < n ==> ImpulsesWithin(it.angularImpulse, it.linearImpulse, maxAngular, maxLinear)
    decreases n
  {
    if n == 0 then
      assert Sub(linearImpulse, linearImpulse) == Zero;
      ApplyZero(velA, l);
      ApplyZero(velB, l);
      Iteration(angularImpulse, linearImpulse, velA, velB)
    else
      var first := VelocityIteration(velA, velB, l, angularMass, linearMass, angularBias, linearBias,
                                     maxAngular, maxLinear, angularImpulse, linearImpulse, sqrt);
      var rest := Iterations(n - 1, first.velA, first.velB, l, angularMass, linearMass, angularBias, linearBias,
                             maxAngular, maxLinear, first.angularImpulse, first.linearImpulse, sqrt);
      ChainApply(velA, velB, l, angularImpulse, linearImpulse, first.angularImpulse, first.linearImpulse,
                 rest.angularImpulse, rest.linearImpulse, first.velA, first.velB, rest.velA, rest.velB);
      rest
  }

  /** The solver temporaries InitVelocityConstraints derives from the bodies'
      positions: the lever arms, the linear and angular effective masses and
      the position errors. */
  datatype Temps = Temps(rA: Vec2, rB: Vec2, linearMass: Mat22, angularMass: real, linearError: Vec2, angularError: real)

  /** The solver temporaries for bodies with local centres `lcA`, `lcB`, mass
      data `mA`, `mB`, `iA`, `iB` and positions `posA`, `posB`. */
  function SolverTemps(lcA: Vec2, lcB: Vec2, mA: real, mB: real, iA: real, iB: real,
                       posA: Position, posB: Position, linearOffset: Vec2, angularOffset: real,
                       rotOf: real -> Rot): (t: Temps)
    ensures t.rA == Rotate(rotOf(posA.a), Neg(lcA)) && t.rB == Rotate(rotOf(posB.a), Neg(lcB))
    ensures t.linearMass == Inverted(EffectiveMass(Lever(mA, mB, iA, iB, t.rA, t.rB)))
    ensures t.angularMass == AngularMass(iA, iB)
    ensures t.linearError == Sub(Sub(Sub(Add(posB.c, t.rB), posA.c), t.rA), Rotate(rotOf(posA.a), linearOffset))
    ensures t.angularError == posB.a - posA.a - angularOffset
  {
    var qA, qB := rotOf(posA.a), rotOf(posB.a);
    var rA := Rotate(qA, Neg(lcA));
    var rB := Rotate(qB, Neg(lcB));
    Temps(rA, rB, Inverted(EffectiveMass(Lever(mA, mB, iA, iB, rA, rB))), AngularMass(iA, iB),
          Sub(Sub(Sub(Add(posB.c, rB), posA.c), rA), Rotate(qA, linearOffset)),
          posB.a - posA.a - angularOffset)
  }

  /** The angular error vanishes exactly when B's angle exceeds A's by the
      angular offset. */
  lemma AngularErrorMeaning(lcA: Vec2, lcB: Vec2, mA: real, mB: real, iA: real, iB: real,
                            posA: Position, posB: Position, linearOffset: Vec2, angularOffset: real,
                            rotOf: real -> Rot)
    ensures SolverTemps(lcA, lcB, mA, mB, iA, iB, posA, posB, linearOffset, angularOffset, rotOf).angularError == 0.0
        <==> posB.a - posA.a == angularOffset
  {
  }

  /** Each body's origin is its centre of mass plus its lever arm. Under a
      proper rotation of A, the linear error vanishes exactly when B's
      origin minus A's origin, seen in A's frame, is the linear offset. */
  lemma LinearErrorMeaning(lcA: Vec2, lcB: Vec2, mA: real, mB: real, iA: real, iB: real,
                           posA: Position, posB: Position, linearOffset: Vec2, angularOffset: real,
                           rotOf: real -> Rot)
    requires rotOf(posA.a).IsUnit()
    ensures var t := SolverTemps(lcA, lcB, mA, mB, iA, iB, posA, posB, linearOffset, angularOffset, rotOf);
      (t.linearError == Zero) <==> (RotateInv(rotOf(posA.a), Sub(Add(posB.c, t.rB), Add(posA.c, t.rA))) == linearOffset)
  {
    var t := SolverTemps(lcA, lcB, mA, mB, iA, iB, posA, posB, linearOffset, angularOffset, rotOf);
    var qA := rotOf(posA.a);
    var w := Sub(Add(posB.c, t.rB), Add(posA.c, t.rA));
    var o := Rotate(qA, linearOffset);
    assert t.linearError == Sub(w, o);
    assert Sub(w, o) == Zero <==> w == o;
    RotateInvRotate(qA, linearOffset);
    RotateInvRotate(qA, w);
  }

  class MotorJoint {
    var bodyA: Body
    var bodyB: Body
    var collideConnected: bool

    // Settings and accumulated impulses, kept from one step to the next
    var linearOffset: Vec2
    var angularOffset: real
    var linearImpulse: Vec2
    var angularImpulse: real
    var maxForce: real
    var maxTorque: real
    var correctionFactor: real

    // Recomputed from the bodies by InitVelocityConstraints at every step
    var indexA: int
    var indexB: int
    var rA: Vec2
    var rB: Vec2
    var localCenterA: Vec2
    var localCenterB: Vec2
    var linearError: Vec2
    var angularError: real
    var invMassA: real
    var invMassB: real
    var invIA: real
    var invIB: real
    var linearMass: Mat22
    var angularMass: real
    /** The solver temporaries above have been captured from the bodies by
        InitVelocityConstraints; the island solver always calls it first. */
    ghost var tempsReady: bool

    /** The limits are in the ranges the setters demand. */
    predicate Limits()
      reads this
    {
      InRange(maxForce, maxTorque, correctionFactor)
    }

    /** The masses and lever arms captured by InitVelocityConstraints. */
    function CurrentLever(): Lever
      reads this
    {
      Lever(invMassA, invMassB, invIA, invIB, rA, rB)
    }

    /** A joint between the definition's bodies with its offsets and limits
        and no accumulated impulse. The limits are copied unchecked. */
    constructor (def: MotorJointDef)
      requires def.bodyA != null && def.bodyB != null
      ensures bodyA == def.bodyA && bodyB == def.bodyB && collideConnected == def.collideConnected
      ensures linearOffset == def.linearOffset && angularOffset == def.angularOffset
      ensures linearImpulse == Zero && angularImpulse == 0.0
      ensures maxForce == def.maxForce && maxTorque == def.maxTorque && correctionFactor == def.correctionFactor
      ensures Limits() <==> InRange(def.maxForce, def.maxTorque, def.correctionFactor)
      ensures !tempsReady
    {
      bodyA := def.bodyA;
      bodyB := def.bodyB;
      collideConnected := def.collideConnected;
      linearOffset := def.linearOffset;
      angularOffset := def.angularOffset;
      linearImpulse := Zero;
      angularImpulse := 0.0;
      maxForce := def.maxForce;
      maxTorque := def.maxTorque;
      correctionFactor := def.correctionFactor;
      tempsReady := false;
    }

    /** Capture the bodies' solver data, build the effective masses and the
        position errors, and warm-start (or reset) the accumulated impulses.
        `rotOf` gives the rotation of an angle. */
    method InitVelocityConstraints(data: SolverData, rotOf: real -> Rot)
      requires 0 <= bodyA.islandIndex < data.positions.Length && bodyA.islandIndex < data.velocities.Length
      requires 0 <= bodyB.islandIndex < data.positions.Length && bodyB.islandIndex < data.velocities.Length
      modifies this`indexA, this`indexB, this`localCenterA, this`localCenterB
      modifies this`invMassA, this`invMassB, this`invIA, this`invIB, this`rA, this`rB
      modifies this`linearMass, this`angularMass, this`linearError, this`angularError, this`tempsReady
      modifies this`linearImpulse, this`angularImpulse, data.velocities
      ensures tempsReady
      ensures indexA == old(bodyA.islandIndex) && indexB == old(bodyB.islandIndex)
      ensures localCenterA == old(bodyA.localCenter) && localCenterB == old(bodyB.localCenter)
      ensures invMassA == old(bodyA.invMass) && invMassB == old(bodyB.invMass)
      ensures invIA == old(bodyA.invI) && invIB == old(bodyB.invI)
      ensures var posA, posB := old(data.positions[bodyA.islandIndex]), old(data.positions[bodyB.islandIndex]);
        && rA == Rotate(rotOf(posA.a), Neg(localCenterA))
        && rB == Rotate(rotOf(posB.a), Neg(localCenterB))
        && linearError == Sub(Sub(Sub(Add(posB.c, rB), posA.c), rA), Rotate(rotOf(posA.a), old(linearOffset)))
        && angularError == posB.a - posA.a - old(angularOffset)
      ensures linearMass == Inverted(EffectiveMass(CurrentLever()))
      ensures angularMass == AngularMass(invIA, invIB)
      ensures data.step.warmStarting ==>
        linearImpulse == old(Scale(data.step.dtRatio, linearImpulse)) && angularImpulse == old(data.step.dtRatio * angularImpulse)
      ensures !data.step.warmStarting ==> linearImpulse == Zero && angularImpulse == 0.0
      ensures var a, b := indexA, indexB;
        && data.velocities[b] == ApplyB(old(data.velocities[b]), CurrentLever(), linearImpulse, angularImpulse)
        && (a != b ==> data.velocities[a] == ApplyA(old(data.velocities[a]), CurrentLever(), linearImpulse, angularImpulse))
      ensures forall k :: 0 <= k < data.velocities.Length && k != indexA && k != indexB ==> data.velocities[k] == old(data.velocities[k])
      ensures !data.step.warmStarting ==> forall k :: 0 <= k < data.velocities.Length ==> data.velocities[k] == old(data.velocities[k])
    {
      CaptureBodies(data, rotOf);
      WarmStart(data);
    }

    /** The first half of InitVelocityConstraints: the bodies' indices, mass
        data and lever arms, the effective masses and the position errors. */
    method CaptureBodies(data: SolverData, rotOf: real -> Rot)
      requires 0 <= bodyA.islandIndex < data.positions.Length && 0 <= bodyB.islandIndex < data.positions.Length
      modifies this`indexA, this`indexB, this`localCenterA, this`localCenterB
      modifies this`invMassA, this`invMassB, this`invIA, this`invIB, this`rA, this`rB
      modifies this`linearMass, this`angularMass, this`linearError, this`angularError, this`tempsReady
      ensures tempsReady
      ensures indexA == old(bodyA.islandIndex) && indexB == old(bodyB.islandIndex)
      ensures localCenterA == old(bodyA.localCenter) && localCenterB == old(bodyB.localCenter)
      ensures invMassA == old(bodyA.invMass) && invMassB == old(bodyB.invMass)
      ensures invIA == old(bodyA.invI) && invIB == old(bodyB.invI)
      ensures var posA, posB := old(data.positions[bodyA.islandIndex]), old(data.positions[bodyB.islandIndex]);
        && rA == Rotate(rotOf(posA.a), Neg(localCenterA))
        && rB == Rotate(rotOf(posB.a), Neg(localCenterB))
        && linearError == Sub(Sub(Sub(Add(posB.c, rB), posA.c), rA), Rotate(rotOf(posA.a), old(linearOffset)))
        && angularError == posB.a - posA.a - old(angularOffset)
      ensures linearMass == Inverted(EffectiveMass(CurrentLever()))
      ensures angularMass == AngularMass(invIA, invIB)
    {
      var posA, posB := data.positions[bodyA.islandIndex], data.positions[bodyB.islandIndex];
      var t := SolverTemps(bodyA.localCenter, bodyB.localCenter, bodyA.invMass, bodyB.invMass, bodyA.invI, bodyB.invI,
                           posA, posB, linearOffset, angularOffset, rotOf);
      CopyBodyA();
      CopyBodyB();
      StoreTemps(t);
    }

    /** Copy body A's island index and mass data. */
    method CopyBodyA()
      modifies this`indexA, this`localCenterA, this`invMassA, this`invIA
      ensures indexA == old(bodyA.islandIndex) && localCenterA == old(bodyA.localCenter)
      ensures invMassA == old(bodyA.invMass) && invIA == old(bodyA.invI)
    {
      indexA := bodyA.islandIndex;
      localCenterA := bodyA.localCenter;
      invMassA := bodyA.invMass;
      invIA := bodyA.invI;
    }

    /** Copy body B's island index and mass data. */
    method CopyBodyB()
      modifies this`indexB, this`localCenterB, this`invMassB, this`invIB
      ensures indexB == old(bodyB.islandIndex) && localCenterB == old(bodyB.localCenter)
      ensures invMassB == old(bodyB.invMass) && invIB == old(bodyB.invI)
    {
      indexB := bodyB.islandIndex;
      localCenterB := bodyB.localCenter;
      invMassB := bodyB.invMass;
      invIB := bodyB.invI;
    }

    /** Store the derived solver temporaries `t`. */
    method StoreTemps(t: Temps)
      modifies this`rA, this`rB, this`linearMass, this`angularMass, this`linearError, this`angularError, this`tempsReady
      ensures tempsReady
      ensures rA == t.rA && rB == t.rB && linearMass == t.linearMass && angularMass == t.angularMass
      ensures linearError == t.linearError && angularError == t.angularError
    {
      rA, rB := t.rA, t.rB;
      linearMass, angularMass := t.linearMass, t.angularMass;
      linearError, angularError := t.linearError, t.angularError;
      tempsReady := true;
    }

    /** The second half of InitVelocityConstraints: scale the accumulated
        impulses by the step ratio and apply them to both bodies, or reset
        them when warm starting is off. */
    method WarmStart(data: SolverData)
      requires 0 <= indexA < data.velocities.Length && 0 <= indexB < data.velocities.Length
      modifies this`linearImpulse, this`angularImpulse, data.velocities
      ensures data.step.warmStarting ==>
        linearImpulse == old(Scale(data.step.dtRatio, linearImpulse)) && angularImpulse == old(data.step.dtRatio * angularImpulse)
      ensures !data.step.warmStarting ==> linearImpulse == Zero && angularImpulse == 0.0
      ensures var a, b := indexA, indexB;
        && data.velocities[b] == ApplyB(old(data.velocities[b]), CurrentLever(), linearImpulse, angularImpulse)
        && (a != b ==> data.velocities[a] == ApplyA(old(data.velocities[a]), CurrentLever(), linearImpulse, angularImpulse))
      ensures forall k :: 0 <= k < data.velocities.Length && k != indexA && k != indexB ==> data.velocities[k] == old(data.velocities[k])
      ensures !data.step.warmStarting ==> forall k :: 0 <= k < data.velocities.Length ==> data.velocities[k] == old(data.velocities[k])
    {
      var velA, velB := data.velocities[indexA], data.velocities[indexB];
      var l := CurrentLever();
      if data.step.warmStarting {
        // Rescale the accumulated impulses by dtRatio for the new step length
        linearImpulse := Scale(data.step.dtRatio, linearImpulse);
        angularImpulse := data.step.dtRatio * angularImpulse;

        velA := ApplyA(velA, l, linearImpulse, angularImpulse);
        velB := ApplyB(velB, l, linearImpulse, angularImpulse);
      } else {
        linearImpulse := Zero;
        angularImpulse := 0.0;
        ApplyZero(velA, l);
        ApplyZero(velB, l);
      }

      data.velocities[indexA] := velA;
      data.velocities[indexB] := velB;
    }

    /** One velocity iteration (the angular block, then the linear block),
        computed on the joint's state before the call; the accumulators and
        the two bodies' velocities are stored. */
    method SolveVelocityConstraints(data: SolverData, sqrt: real -> real)
      requires IsSqrt(sqrt)
      requires tempsReady
      requires 0 <= indexA < data.velocities.Length && 0 <= indexB < data.velocities.Length
      modifies this`linearImpulse, this`angularImpulse, data.velocities
      ensures var it := old(Iterate(data.velocities[indexA], data.velocities[indexB], data.step, sqrt));
        && angularImpulse == it.angularImpulse
        && linearImpulse == it.linearImpulse
        && data.velocities[indexB] == it.velB
        && (indexA != indexB ==> data.velocities[indexA] == it.velA)
      ensures forall k :: 0 <= k < data.velocities.Length && k != indexA && k != indexB ==> data.velocities[k] == old(data.velocities[k])
    {
      var it := Iterate(data.velocities[indexA], data.velocities[indexB], data.step, sqrt);
      Store(it, data);
    }

    /** Store the accumulators of an iteration and write back both bodies'
        velocities, B's last. */
    method Store(it: Iteration, data: SolverData)
      requires 0 <= indexA < data.velocities.Length && 0 <= indexB < data.velocities.Length
      modifies this`linearImpulse, this`angularImpulse, data.velocities
      ensures && angularImpulse == it.angularImpulse
              && linearImpulse == it.linearImpulse
              && data.velocities[indexB] == it.velB
              && (indexA != indexB ==> data.velocities[indexA] == it.velA)
      ensures forall k :: 0 <= k < data.velocities.Length && k != indexA && k != indexB ==> data.velocities[k] == old(data.velocities[k])
    {
      angularImpulse := it.angularImpulse;
      linearImpulse := it.linearImpulse;
      data.velocities[indexA] := it.velA;
      data.velocities[indexB] := it.velB;
    }

    /** The velocity iteration on the joint's current state and the bodies'
        velocities `velA` and `velB`. */
    function Iterate(velA: Velocity, velB: Velocity, step: TimeStep, sqrt: real -> real): (it: Iteration)
      reads this
      requires IsSqrt(sqrt)
      ensures ImpulsesWithin(it.angularImpulse, it.linearImpulse, step.dt * maxTorque, step.dt * maxForce)
    {
      VelocityIteration(velA, velB, CurrentLever(), angularMass, linearMass,
                        step.invDt * correctionFactor * angularError, Scale(step.invDt * correctionFactor, linearError),
                        step.dt * maxTorque, step.dt * maxForce, angularImpulse, linearImpulse, sqrt)
    }

    /** The motor joint has no position constraint; it always reports success. */
    method SolvePositionConstraints(data: SolverData) returns (done: bool)
      ensures done
    {
      done := true;
    }

    /** The reaction force: the accumulated linear impulse over the step. */
    function GetReactionForce(invDt: real): (force: Vec2)
      reads this
      ensures invDt != 0.0 ==> Scale(1.0 / invDt, force) == linearImpulse
      ensures invDt == 0.0 ==> force == Zero
    {
      Scale(invDt, linearImpulse)
    }

    /** The reaction torque: the accumulated angular impulse over the step. */
    function GetReactionTorque(invDt: real): (torque: real)
      reads this
      ensures invDt != 0.0 ==> torque / invDt == angularImpulse
      ensures invDt == 0.0 ==> torque == 0.0
    {
      invDt * angularImpulse
    }

    /** Whenever the accumulated linear impulse respects the force limit for
        a step h, the reaction force over that step is at most maxForce long. */
    lemma ReactionForceWithinLimit(h: real)
      requires 0.0 < h && Limits()
      requires LengthSquared(linearImpulse) <= Sq(h * maxForce)
      ensures LengthSquared(GetReactionForce(1.0 / h)) <= Sq(maxForce)
    {
      ShrinkVectorBound(h, linearImpulse, maxForce);
    }

    /** Whenever the accumulated angular impulse respects the torque limit for
        a step h, the reaction torque over that step is within maxTorque. */
    lemma ReactionTorqueWithinLimit(h: real)
      requires 0.0 < h && Limits()
      requires -(h * maxTorque) <= angularImpulse <= h * maxTorque
      ensures -maxTorque <= GetReactionTorque(1.0 / h) <= maxTorque
    {
      ShrinkBound(h, angularImpulse, maxTorque);
    }

    method SetMaxForce(force: real)
      requires 0.0 <= force
      modifies this`maxForce
      ensures GetMaxForce() == force
      ensures old(Limits()) ==> Limits()
    {
      maxForce := force;
    }

    function GetMaxForce(): (force: real)
      reads this
      ensures Limits() ==> 0.0 <= force
    {
      maxForce
    }

    method SetMaxTorque(torque: real)
      requires 0.0 <= torque
      modifies this`maxTorque
      ensures GetMaxTorque() == torque
      ensures old(Limits()) ==> Limits()
    {
      maxTorque := torque;
    }

    function GetMaxTorque(): (torque: real)
      reads this
      ensures Limits() ==> 0.0 <= torque
    {
      maxTorque
    }

    method SetCorrectionFactor(factor: real)
      requires 0.0 <= factor <= 1.0
      modifies this`correctionFactor
      ensures GetCorrectionFactor() == factor
      ensures old(Limits()) ==> Limits()
    {
      correctionFactor := factor;
    }

    function GetCorrectionFactor(): (factor: real)
      reads this
      ensures Limits() ==> 0.0 <= factor <= 1.0
    {
      correctionFactor
    }

    /** Change the target linear offset; a change wakes both bodies. */
    method SetLinearOffset(offset: Vec2)
      modifies this`linearOffset, bodyA`awake, bodyB`awake
      ensures GetLinearOffset() == offset
      ensures offset != old(linearOffset) ==> bodyA.awake && bodyB.awake
      ensures offset == old(linearOffset) ==> bodyA.awake == old(bodyA.awake) && bodyB.awake == old(bodyB.awake)
    {
      if offset.x != linearOffset.x || offset.y != linearOffset.y {
        bodyA.awake := true;
        bodyB.awake := true;
        linearOffset := offset;
      }
    }

    function GetLinearOffset(): Vec2
      reads this
    {
      linearOffset
    }

    /** Change the target angular offset; a change wakes both bodies. */
    method SetAngularOffset(offset: real)
      modifies this`angularOffset, bodyA`awake, bodyB`awake
      ensures GetAngularOffset() == offset
      ensures offset != old(angularOffset) ==> bodyA.awake && bodyB.awake
      ensures offset == old(angularOffset) ==> bodyA.awake == old(bodyA.awake) && bodyB.awake == old(bodyB.awake)
    {
      if offset != angularOffset {
        bodyA.awake := true;
        bodyB.awake := true;
        angularOffset := offset;
      }
    }

    function GetAngularOffset(): real
      reads this
    {
      angularOffset
    }
  }
}
