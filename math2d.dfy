/** Exact-real 2-D vector algebra used by the collision and joint code:
    vectors, rotations given by a (cos, sin) pair, rigid transforms, 2x2
    matrices, the scalar clamp and vector normalisation. Floats are modelled
    by `real`; square roots and trigonometry are supplied by the caller. */
module Math2D {

  datatype Vec2 = Vec2(x: real, y: real)

  const Zero: Vec2 := Vec2(0.0, 0.0)

  function Add(a: Vec2, b: Vec2): Vec2 { Vec2(a.x + b.x, a.y + b.y) }

  function Sub(a: Vec2, b: Vec2): Vec2 { Vec2(a.x - b.x, a.y - b.y) }

  function Neg(a: Vec2): Vec2 { Vec2(-a.x, -a.y) }

  function Scale(k: real, a: Vec2): Vec2 { Vec2(k * a.x, k * a.y) }

  function Dot(a: Vec2, b: Vec2): real { a.x * b.x + a.y * b.y }

  /** Cross product of two vectors (a scalar in 2-D). */
  function Cross(a: Vec2, b: Vec2): real { a.x * b.y - a.y * b.x }

  /** Cross product of a scalar (an angular velocity) with a vector. */
  function CrossSV(s: real, a: Vec2): Vec2 { Vec2(-s * a.y, s * a.x) }

  function Sq(x: real): (r: real)
    ensures 0.0 <= r
  {
    x * x
  }

  /** |a|^2, equal to Dot(a, a). */
  function LengthSquared(a: Vec2): (r: real)
    ensures 0.0 <= r
  {
    Sq(a.x) + Sq(a.y)
  }

  function MinR(a: real, b: real): real { if a < b then a else b }

  function MaxR(a: real, b: real): real { if a > b then a else b }

  /** Component-wise minimum and maximum. */
  function Min(a: Vec2, b: Vec2): Vec2 { Vec2(MinR(a.x, b.x), MinR(a.y, b.y)) }

  function Max(a: Vec2, b: Vec2): Vec2 { Vec2(MaxR(a.x, b.x), MaxR(a.y, b.y)) }

  /** Clamp `a` into `[low, high]` as max(low, min(a, high)). */
  function Clamp(a: real, low: real, high: real): (r: real)
    ensures low <= high ==> low <= r <= high
    ensures low <= a <= high ==> r == a
    ensures r == a || r == low || r == high
    ensures a < low ==> r == low
    ensures low <= high < a ==> r == high
  {
    MaxR(low, MinR(a, high))
  }

  /** A rotation stored as its sine and cosine. */
  datatype Rot = Rot(s: real, c: real) {
    /** The pair is the sine and cosine of some angle. */
    predicate IsUnit() { c * c + s * s == 1.0 }
  }

  /** Rotate a vector by q. */
  function Rotate(q: Rot, v: Vec2): Vec2
  {
    Vec2(q.c * v.x - q.s * v.y, q.s * v.x + q.c * v.y)
  }

  /** Rotate a vector by the inverse of q (the transpose of its matrix). */
  function RotateInv(q: Rot, v: Vec2): Vec2
  {
    Vec2(q.c * v.x + q.s * v.y, -q.s * v.x + q.c * v.y)
  }

  datatype Transform = Transform(p: Vec2, q: Rot)

  /** Map a point from the local frame of `xf` to the world frame. */
  function TransformPoint(xf: Transform, v: Vec2): Vec2
  {
    Add(Rotate(xf.q, v), xf.p)
  }

  /** Map a world point into the local frame of `xf`. */
  function TransformPointInv(xf: Transform, v: Vec2): Vec2
  {
    RotateInv(xf.q, Sub(v, xf.p))
  }

  lemma RotateInvRotate(q: Rot, v: Vec2)
    requires q.IsUnit()
    ensures RotateInv(q, Rotate(q, v)) == v
    ensures Rotate(q, RotateInv(q, v)) == v
  {
    assert q.c * (q.c * v.x - q.s * v.y) + q.s * (q.s * v.x + q.c * v.y)
        == (q.c * q.c + q.s * q.s) * v.x;
    assert -q.s * (q.c * v.x - q.s * v.y) + q.c * (q.s * v.x + q.c * v.y)
        == (q.c * q.c + q.s * q.s) * v.y;
    assert q.c * (q.c * v.x + q.s * v.y) - q.s * (-q.s * v.x + q.c * v.y)
        == (q.c * q.c + q.s * q.s) * v.x;
    assert q.s * (q.c * v.x + q.s * v.y) + q.c * (-q.s * v.x + q.c * v.y)
        == (q.c * q.c + q.s * q.s) * v.y;
  }

  lemma TransformRoundTrip(xf: Transform, v: Vec2)
    requires xf.q.IsUnit()
    ensures TransformPoint(xf, TransformPointInv(xf, v)) == v
    ensures TransformPointInv(xf, TransformPoint(xf, v)) == v
  {
    RotateInvRotate(xf.q, v);
    RotateInvRotate(xf.q, Sub(v, xf.p));
    assert Sub(Add(Rotate(xf.q, v), xf.p), xf.p) == Rotate(xf.q, v);
  }

  /** Rotations preserve the dot product and hence lengths. */
  lemma RotatePreservesDot(q: Rot, a: Vec2, b: Vec2)
    requires q.IsUnit()
    ensures Dot(Rotate(q, a), Rotate(q, b)) == Dot(a, b)
  {
    var ra, rb := Rotate(q, a), Rotate(q, b);
    assert ra.x * rb.x + ra.y * rb.y == (q.c * q.c + q.s * q.s) * (a.x * b.x + a.y * b.y);
  }

  /** Rotations preserve the cross product, so they keep orientation. */
  lemma RotatePreservesCross(q: Rot, a: Vec2, b: Vec2)
    requires q.IsUnit()
    ensures Cross(Rotate(q, a), Rotate(q, b)) == Cross(a, b)
  {
    var ra, rb := Rotate(q, a), Rotate(q, b);
    assert ra.x * rb.y - ra.y * rb.x == (q.c * q.c + q.s * q.s) * (a.x * b.y - a.y * b.x);
  }

  /** The inverse rotation is the adjoint of the rotation, for any pair (c, s). */
  lemma RotateAdjoint(q: Rot, a: Vec2, b: Vec2)
    ensures Dot(Rotate(q, a), b) == Dot(a, RotateInv(q, b))
  {
  }

  lemma DotScale(k: real, a: Vec2, b: Vec2)
    ensures Dot(Scale(k, a), b) == k * Dot(a, b)
  {
    assert (k * a.x) * b.x == k * (a.x * b.x);
    assert (k * a.y) * b.y == k * (a.y * b.y);
  }

  /** Distributivity in the exact shape the rotation lemmas below need. */
  lemma Distribute(c: real, x: real, t: real, y: real)
    ensures c * (x + t * y) == c * x + t * (c * y)
  {
    assert c * (t * y) == t * (c * y);
  }

  /** The inverse rotation is linear. */
  lemma RotateInvAddScaled(q: Rot, a: Vec2, b: Vec2, t: real)
    ensures RotateInv(q, Add(a, Scale(t, b))) == Add(RotateInv(q, a), Scale(t, RotateInv(q, b)))
  {
    Distribute(q.c, a.x, t, b.x);
    Distribute(q.s, a.y, t, b.y);
    Distribute(-q.s, a.x, t, b.x);
    Distribute(q.c, a.y, t, b.y);
  }

  lemma RotateInvSub(q: Rot, a: Vec2, b: Vec2)
    ensures RotateInv(q, Sub(a, b)) == Sub(RotateInv(q, a), RotateInv(q, b))
  {
    Distribute(q.c, a.x, -1.0, b.x);
    Distribute(q.s, a.y, -1.0, b.y);
    Distribute(-q.s, a.x, -1.0, b.x);
    Distribute(q.c, a.y, -1.0, b.y);
  }

  /** The rotation is linear. */
  lemma RotateAddScaled(q: Rot, a: Vec2, b: Vec2, t: real)
    ensures Rotate(q, Add(a, Scale(t, b))) == Add(Rotate(q, a), Scale(t, Rotate(q, b)))
  {
    Distribute(q.c, a.x, t, b.x);
    Distribute(q.s, a.y, t, b.y);
    Distribute(q.s, a.x, t, b.x);
    Distribute(q.c, a.y, t, b.y);
  }

  lemma RotateSub(q: Rot, a: Vec2, b: Vec2)
    ensures Rotate(q, Sub(a, b)) == Sub(Rotate(q, a), Rotate(q, b))
  {
    Distribute(q.c, a.x, -1.0, b.x);
    Distribute(q.s, a.y, -1.0, b.y);
    Distribute(q.s, a.x, -1.0, b.x);
    Distribute(q.c, a.y, -1.0, b.y);
  }

  lemma LengthSquaredScale(k: real, a: Vec2)
    ensures LengthSquared(Scale(k, a)) == Sq(k) * LengthSquared(a)
  {
    assert Sq(k * a.x) == Sq(k) * Sq(a.x);
    assert Sq(k * a.y) == Sq(k) * Sq(a.y);
  }

  lemma ZeroProduct(a: real, b: real)
    requires a * b == 0.0 && b != 0.0
    ensures a == 0.0
  {
    assert a == (a * b) * (1.0 / b);
  }

  lemma SqPositive(x: real)
    requires x != 0.0
    ensures 0.0 < Sq(x)
  {
    var inv := 1.0 / x;
    assert x * inv == 1.0;
    assert Sq(x) * Sq(inv) == (x * inv) * (x * inv);
  }

  /** Only the zero vector has zero length. */
  lemma LengthSquaredPositive(a: Vec2)
    requires a != Zero
    ensures 0.0 < LengthSquared(a)
  {
    if a.x != 0.0 {
      SqPositive(a.x);
    } else {
      SqPositive(a.y);
    }
  }

  /** Only the identity rotation (sine 0, cosine 1) leaves a non-zero vector
      where it was; this holds for any pair, unit or not. */
  lemma RotateMovesNonZero(q: Rot, n: Vec2)
    requires n != Zero
    requires q.s != 0.0 || q.c != 1.0
    ensures Rotate(q, n) != n
  {
    var a, b := q.c - 1.0, q.s;
    assert a != 0.0 ==> 0.0 < Sq(a) by {
      if a != 0.0 { SqPositive(a); }
    }
    assert b != 0.0 ==> 0.0 < Sq(b) by {
      if b != 0.0 { SqPositive(b); }
    }
    var k := Sq(a) + Sq(b);
    assert k != 0.0;
    // A fixed point satisfies a*n.x - b*n.y == 0 and b*n.x + a*n.y == 0,
    // whence k*n.x == 0 and k*n.y == 0.
    assert k * n.x == a * (a * n.x - b * n.y) + b * (b * n.x + a * n.y);
    assert k * n.y == a * (b * n.x + a * n.y) - b * (a * n.x - b * n.y);
    assert n.x == (k * n.x) * (1.0 / k);
    assert n.y == (k * n.y) * (1.0 / k);
    assert Rotate(q, n) == n ==> a * n.x - b * n.y == 0.0 && b * n.x + a * n.y == 0.0;
  }

  /** `sqrt` is the non-negative square root on non-negative reals. */
  ghost predicate IsSqrt(sqrt: real -> real)
  {
    forall x: real :: 0.0 <= x ==> 0.0 <= sqrt(x) && Sq(sqrt(x)) == x
  }

  /** `a` is `b` scaled by a positive factor: same direction. */
  ghost predicate IsPositiveMultiple(a: Vec2, b: Vec2)
  {
    exists k: real :: 0.0 < k && a == Scale(k, b)
  }

  /** Scale a non-zero vector to unit length: v * (1 / |v|). */
  function Normalize(v: Vec2, sqrt: real -> real): (r: Vec2)
    requires IsSqrt(sqrt)
    requires 0.0 < LengthSquared(v)
    ensures LengthSquared(r) == 1.0
    ensures IsPositiveMultiple(r, v)
  {
    var len := sqrt(LengthSquared(v));
    assert Sq(len) == LengthSquared(v);
    assert 0.0 < len;
    LengthSquaredScale(1.0 / len, v);
    InverseSquare(len);
    Scale(1.0 / len, v)
  }

  lemma InverseSquare(len: real)
    requires len != 0.0
    ensures Sq(1.0 / len) * Sq(len) == 1.0
  {
    assert (1.0 / len) * len == 1.0;
    assert Sq(1.0 / len) * Sq(len) == ((1.0 / len) * len) * ((1.0 / len) * len);
  }

  /** A 2x2 matrix with entries m<row><column>. */
  datatype Mat22 = Mat22(m00: real, m01: real, m10: real, m11: real)

  const ZeroMat: Mat22 := Mat22(0.0, 0.0, 0.0, 0.0)

  function MulMV(m: Mat22, v: Vec2): Vec2
  {
    Vec2(m.m00 * v.x + m.m01 * v.y, m.m10 * v.x + m.m11 * v.y)
  }

  function Det(m: Mat22): real { m.m00 * m.m11 - m.m01 * m.m10 }

  /** The inverse of m, or the zero matrix when m is singular. */
  function Inverted(m: Mat22): (inv: Mat22)
    ensures Det(m) != 0.0 ==> forall v :: MulMV(inv, MulMV(m, v)) == v
    ensures Det(m) != 0.0 ==> forall v :: MulMV(m, MulMV(inv, v)) == v
    ensures Det(m) == 0.0 ==> inv == ZeroMat
  {
    var det := Det(m);
    if det != 0.0 then
      var invDet := 1.0 / det;
      var inv := Mat22(invDet * m.m11, -invDet * m.m01, -invDet * m.m10, invDet * m.m00);
      assert forall v :: MulMV(inv, MulMV(m, v)) == v by {
        forall v ensures MulMV(inv, MulMV(m, v)) == v {
          InvertedLeftInverse(m, inv, invDet, v);
        }
      }
      assert forall v :: MulMV(m, MulMV(inv, v)) == v by {
        forall v ensures MulMV(m, MulMV(inv, v)) == v {
          InvertedRightInverse(m, inv, invDet, v);
        }
      }
      inv
    else
      ZeroMat
  }

  lemma InvertedLeftInverse(m: Mat22, inv: Mat22, invDet: real, v: Vec2)
    requires Det(m) != 0.0 && invDet == 1.0 / Det(m)
    requires inv == Mat22(invDet * m.m11, -invDet * m.m01, -invDet * m.m10, invDet * m.m00)
    ensures MulMV(inv, MulMV(m, v)) == v
  {
    var det := Det(m);
    assert invDet * det == 1.0;
    var w := MulMV(m, v);
    assert inv.m00 * w.x + inv.m01 * w.y == invDet * (det * v.x);
    assert inv.m10 * w.x + inv.m11 * w.y == invDet * (det * v.y);
  }

  lemma InvertedRightInverse(m: Mat22, inv: Mat22, invDet: real, v: Vec2)
    requires Det(m) != 0.0 && invDet == 1.0 / Det(m)
    requires inv == Mat22(invDet * m.m11, -invDet * m.m01, -invDet * m.m10, invDet * m.m00)
    ensures MulMV(m, MulMV(inv, v)) == v
  {
    var det := Det(m);
    assert invDet * det == 1.0;
    var w := MulMV(inv, v);
    assert m.m00 * w.x + m.m01 * w.y == invDet * (det * v.x);
    assert m.m10 * w.x + m.m11 * w.y == invDet * (det * v.y);
  }
}
