/** A line-segment collision shape: its two end vertices, the optional ghost
    vertices used for smooth collision, and the shape queries (child count,
    point containment, ray cast, bounding box, mass). */
module EdgeShape {
  import opened Math2D

  /** Collision tolerance, in metres. */
  const LinearSlop: real := 0.005

  /** The skin thickness of polygons and edges. */
  const PolygonRadius: real := 2.0 * LinearSlop

  datatype Option<T> = None | Some(value: T)

  /** A ray from p1 towards p2; hits beyond p1 + maxFraction * (p2 - p1) are ignored. */
  datatype RayCastInput = RayCastInput(p1: Vec2, p2: Vec2, maxFraction: real)

  /** The surface normal at the hit and the hit's fraction along the ray. */
  datatype RayCastOutput = RayCastOutput(normal: Vec2, fraction: real)

  datatype AABB = AABB(lowerBound: Vec2, upperBound: Vec2)

  datatype MassData = MassData(mass: real, center: Vec2, I: real)

  /** The box holds the disk of radius r around p. */
  predicate Encloses(box: AABB, p: Vec2, r: real)
  {
    && box.lowerBound.x <= p.x - r && p.x + r <= box.upperBound.x
    && box.lowerBound.y <= p.y - r && p.y + r <= box.upperBound.y
  }

  /** Every face of the box touches the disk of radius r around a or around b. */
  predicate TouchesEither(box: AABB, a: Vec2, b: Vec2, r: real)
  {
    && (box.lowerBound.x == a.x - r || box.lowerBound.x == b.x - r)
    && (box.lowerBound.y == a.y - r || box.lowerBound.y == b.y - r)
    && (box.upperBound.x == a.x + r || box.upperBound.x == b.x + r)
    && (box.upperBound.y == a.y + r || box.upperBound.y == b.y + r)
  }

  /** The edge normal (e.y, -e.x) scaled to unit length. */
  function EdgeNormal(e: Vec2, sqrt: real -> real): (n: Vec2)
    requires IsSqrt(sqrt)
    requires 0.0 < LengthSquared(e)
    ensures LengthSquared(n) == 1.0
    ensures Dot(n, e) == 0.0
    ensures IsPositiveMultiple(n, Vec2(e.y, -e.x))
  {
    var n0 := Vec2(e.y, -e.x);
    assert LengthSquared(n0) == LengthSquared(e) by {
      assert Sq(-e.x) == Sq(e.x);
    }
    var n := Normalize(n0, sqrt);
    assert Dot(n, e) == 0.0 by {
      var k :| 0.0 < k && n == Scale(k, n0);
      assert Dot(n, e) == k * (e.y * e.x - e.x * e.y);
    }
    n
  }

  /** Flipping a unit normal of e gives a unit normal of e. */
  lemma NegKeepsUnitNormal(n: Vec2, e: Vec2)
    requires LengthSquared(n) == 1.0 && Dot(n, e) == 0.0
    ensures LengthSquared(Neg(n)) == 1.0 && Dot(Neg(n), e) == 0.0
  {
    assert Sq(-n.x) == Sq(n.x);
    assert Sq(-n.y) == Sq(n.y);
    assert -n.x * e.x == -(n.x * e.x);
    assert -n.y * e.y == -(n.y * e.y);
  }

  /** A positive multiple of (e.y, -e.x) is orthogonal to d exactly when e and d are parallel. */
  lemma NormalDotIsScaledCross(e: Vec2, d: Vec2, n: Vec2)
    requires IsPositiveMultiple(n, Vec2(e.y, -e.x))
    ensures Dot(n, d) == 0.0 <==> Cross(e, d) == 0.0
  {
    var k :| 0.0 < k && n == Scale(k, Vec2(e.y, -e.x));
    assert Dot(n, d) == -k * Cross(e, d);
    assert Cross(e, d) == (-k * Cross(e, d)) / (-k);
  }

  /** A vector parallel to a non-zero e is its projection onto e. */
  lemma ParallelIsProjection(e: Vec2, w: Vec2)
    requires 0.0 < LengthSquared(e)
    requires Cross(e, w) == 0.0
    ensures Dot(e, e) == LengthSquared(e)
    ensures w == Scale(Dot(w, e) / Dot(e, e), e)
  {
    var ee := Dot(e, e);
    assert ee == LengthSquared(e);
    assert w.x * ee == e.x * Dot(w, e) - e.y * Cross(e, w);
    assert w.y * ee == e.y * Dot(w, e) + e.x * Cross(e, w);
    assert w.x == (e.x * Dot(w, e)) / ee;
    assert w.y == (e.y * Dot(w, e)) / ee;
  }

  /** The ray cast in the edge's own frame: the ray p1 + t * (p2 - p1) against the
      segment v1 + s * (v2 - v1). A zero-length edge is rejected first: its
      normalised normal is not a number, every later comparison fails, and the
      edge is rejected at the squared-length test, which with exact arithmetic
      only a zero-length edge could fail. */
  function RayCastLocal(v1: Vec2, v2: Vec2, p1: Vec2, p2: Vec2, maxFraction: real, sqrt: real -> real): (out: Option<RayCastOutput>)
    requires IsSqrt(sqrt)
    ensures out.Some? ==> 0.0 <= out.value.fraction <= maxFraction
    ensures out.Some? ==> LengthSquared(out.value.normal) == 1.0
    ensures out.Some? ==> Dot(out.value.normal, Sub(v2, v1)) == 0.0
    ensures LengthSquared(Sub(v2, v1)) == 0.0 ==> out.None?
  {
    var e := Sub(v2, v1);
    if LengthSquared(e) == 0.0 then None
    else
      var normal := EdgeNormal(e, sqrt);
      var d := Sub(p2, p1);
      var numerator := Dot(normal, Sub(v1, p1));
      var denominator := Dot(normal, d);
      if denominator == 0.0 then None
      else
        var t := numerator / denominator;
        if t < 0.0 || maxFraction < t then None
        else
          var q := Add(p1, Scale(t, d));
          var rr := Dot(e, e);
          assert rr == LengthSquared(e);
          var s := Dot(Sub(q, v1), e) / rr;
          if s < 0.0 || 1.0 < s then None
          else
            NegKeepsUnitNormal(normal, e);
            Some(RayCastOutput(if numerator > 0.0 then Neg(normal) else normal, t))
  }

  /** A ray parallel to the edge never hits it. */
  lemma RayCastLocalParallelMisses(v1: Vec2, v2: Vec2, p1: Vec2, p2: Vec2, maxFraction: real, sqrt: real -> real)
    requires IsSqrt(sqrt)
    requires Cross(Sub(v2, v1), Sub(p2, p1)) == 0.0
    ensures RayCastLocal(v1, v2, p1, p2, maxFraction, sqrt).None?
  {
    var e := Sub(v2, v1);
    if LengthSquared(e) != 0.0 {
      NormalDotIsScaledCross(e, Sub(p2, p1), EdgeNormal(e, sqrt));
    }
  }

  /** Dot product with n distributes over p + t * d - v. */
  lemma DotAlongRay(n: Vec2, p: Vec2, d: Vec2, v: Vec2, t: real)
    ensures Dot(n, Sub(Add(p, Scale(t, d)), v)) == Dot(n, Sub(p, v)) + t * Dot(n, d)
  {
    assert n.x * (t * d.x) == t * (n.x * d.x);
    assert n.y * (t * d.y) == t * (n.y * d.y);
  }

  lemma DotOfCombination(n: Vec2, a: Vec2, b: Vec2, t: real, s: real)
    ensures Dot(n, Sub(Scale(t, a), Scale(s, b))) == t * Dot(n, a) - s * Dot(n, b)
  {
    assert n.x * (t * a.x - s * b.x) == t * (n.x * a.x) - s * (n.x * b.x);
    assert n.y * (t * a.y - s * b.y) == t * (n.y * a.y) - s * (n.y * b.y);
  }

  /** Soundness: a reported hit lies on the segment, at the reported fraction of the ray. */
  lemma RayCastLocalHitIsOnEdge(v1: Vec2, v2: Vec2, p1: Vec2, p2: Vec2, maxFraction: real, sqrt: real -> real)
    requires IsSqrt(sqrt)
    requires RayCastLocal(v1, v2, p1, p2, maxFraction, sqrt).Some?
    ensures var t := RayCastLocal(v1, v2, p1, p2, maxFraction, sqrt).value.fraction;
      exists s: real :: 0.0 <= s <= 1.0 && Add(p1, Scale(t, Sub(p2, p1))) == Add(v1, Scale(s, Sub(v2, v1)))
  {
    var e := Sub(v2, v1);
    var n := EdgeNormal(e, sqrt);
    var d := Sub(p2, p1);
    var num := Dot(n, Sub(v1, p1));
    var den := Dot(n, d);
    var t := num / den;
    assert t * den == num;
    var q := Add(p1, Scale(t, d));
    var w := Sub(q, v1);
    DotAlongRay(n, p1, d, v1, t);
    assert Dot(n, Sub(p1, v1)) == -num;
    assert Dot(n, w) == 0.0;
    NormalDotIsScaledCross(e, w, n);
    ParallelIsProjection(e, w);
    var s := Dot(w, e) / Dot(e, e);
    assert Add(v1, Scale(s, e)) == q;
  }

  /** Completeness: a ray that crosses the segment within [0, maxFraction]
      and is not parallel to it is reported as a hit at the crossing. */
  lemma RayCastLocalFindsCrossing(v1: Vec2, v2: Vec2, p1: Vec2, p2: Vec2, maxFraction: real, sqrt: real -> real, t: real, s: real)
    requires IsSqrt(sqrt)
    requires Cross(Sub(v2, v1), Sub(p2, p1)) != 0.0
    requires 0.0 <= t <= maxFraction && 0.0 <= s <= 1.0
    requires Add(p1, Scale(t, Sub(p2, p1))) == Add(v1, Scale(s, Sub(v2, v1)))
    ensures RayCastLocal(v1, v2, p1, p2, maxFraction, sqrt).Some?
    ensures RayCastLocal(v1, v2, p1, p2, maxFraction, sqrt).value.fraction == t
  {
    var e := Sub(v2, v1);
    var d := Sub(p2, p1);
    assert e != Zero;
    LengthSquaredPositive(e);
    var n := EdgeNormal(e, sqrt);
    NormalDotIsScaledCross(e, d, n);
    var num := Dot(n, Sub(v1, p1));
    var den := Dot(n, d);
    assert den != 0.0;
    assert Sub(v1, p1) == Sub(Scale(t, d), Scale(s, e));
    DotOfCombination(n, d, e, t, s);
    assert num == t * den - s * Dot(n, e);
    assert num / den == t;
    var w := Sub(Add(p1, Scale(t, d)), v1);
    assert w == Scale(s, e);
    DotScale(s, e, e);
    assert Dot(w, e) == s * Dot(e, e);
    assert Dot(e, e) == LengthSquared(e);
    assert Dot(w, e) / Dot(e, e) == s;
  }

  /** Sign of a product with a positive factor. */
  lemma PositiveFactorSign(t: real, x: real)
    requires 0.0 < t
    ensures 0.0 < t * x <==> 0.0 < x
    ensures t * x <= 0.0 <==> x <= 0.0
  {
    if 0.0 < x {
      assert 0.0 < t * x;
    } else {
      assert t * (-x) >= 0.0;
    }
  }

  /** The reported normal of a hit beyond the ray's start faces against the ray. */
  lemma RayCastLocalNormalOpposesRay(v1: Vec2, v2: Vec2, p1: Vec2, p2: Vec2, maxFraction: real, sqrt: real -> real)
    requires IsSqrt(sqrt)
    requires RayCastLocal(v1, v2, p1, p2, maxFraction, sqrt).Some?
    requires 0.0 < RayCastLocal(v1, v2, p1, p2, maxFraction, sqrt).value.fraction
    ensures Dot(RayCastLocal(v1, v2, p1, p2, maxFraction, sqrt).value.normal, Sub(p2, p1)) < 0.0
  {
    var e := Sub(v2, v1);
    var n := EdgeNormal(e, sqrt);
    var d := Sub(p2, p1);
    var num := Dot(n, Sub(v1, p1));
    var den := Dot(n, d);
    var t := num / den;
    assert t * den == num;
    PositiveFactorSign(t, den);
    assert Dot(Neg(n), d) == -den;
  }

  class EdgeShape {
    var radius: real
    /** The segment's end vertices. */
    var vertex1: Vec2
    var vertex2: Vec2
    /** Optional adjacent vertices, used for smooth collision along chains. */
    var vertex0: Vec2
    var vertex3: Vec2
    var hasVertex0: bool
    var hasVertex3: bool

    /** An edge from the origin to the origin with the polygon skin radius and no adjacent vertices. */
    constructor ()
      ensures radius == PolygonRadius
      ensures vertex0 == Zero && vertex1 == Zero && vertex2 == Zero && vertex3 == Zero
      ensures !hasVertex0 && !hasVertex3
    {
      radius := PolygonRadius;
      vertex0, vertex1, vertex2, vertex3 := Zero, Zero, Zero, Zero;
      hasVertex0, hasVertex3 := false, false;
    }

    /** Make this an isolated edge from v1 to v2. */
    method Set(v1: Vec2, v2: Vec2)
      modifies this
      ensures vertex1 == v1 && vertex2 == v2
      ensures !hasVertex0 && !hasVertex3
      ensures radius == old(radius) && vertex0 == old(vertex0) && vertex3 == old(vertex3)
    {
      vertex1 := v1;
      vertex2 := v2;
      hasVertex0 := false;
      hasVertex3 := false;
    }

    /** An edge is a single child shape. */
    function GetChildCount(): (n: int)
      ensures n == 1
    {
      1
    }

    /** An edge has no interior, so it contains no point. */
    function TestPoint(xf: Transform, p: Vec2): (inside: bool)
      ensures !inside
    {
      false
    }

    /** Cast a world ray against the edge placed by xf; the normal is reported
        in the edge's local frame. */
    function RayCastAsWritten(input: RayCastInput, xf: Transform, childIndex: int, sqrt: real -> real): (out: Option<RayCastOutput>)
      reads this
      requires IsSqrt(sqrt)
      ensures out.Some? ==> 0.0 <= out.value.fraction <= input.maxFraction
      ensures out.Some? ==> Dot(out.value.normal, Sub(vertex2, vertex1)) == 0.0
    {
      RayCastLocal(vertex1, vertex2, TransformPointInv(xf, input.p1), TransformPointInv(xf, input.p2), input.maxFraction, sqrt)
    }

    /** Cast a world ray against the edge placed by xf; the normal is rotated
        back into the world frame. */
    function RayCast(input: RayCastInput, xf: Transform, childIndex: int, sqrt: real -> real): (out: Option<RayCastOutput>)
      reads this
      requires IsSqrt(sqrt)
      ensures out.Some? ==> 0.0 <= out.value.fraction <= input.maxFraction
      ensures LengthSquared(Sub(vertex2, vertex1)) == 0.0 ==> out.None?
    {
      var local := RayCastLocal(vertex1, vertex2, TransformPointInv(xf, input.p1), TransformPointInv(xf, input.p2), input.maxFraction, sqrt);
      match local
      case None => None
      case Some(hit) => Some(RayCastOutput(Rotate(xf.q, hit.normal), hit.fraction))
    }

    /** The local ray direction is the world direction rotated into the edge's frame. */
    lemma LocalDirection(input: RayCastInput, xf: Transform)
      ensures Sub(TransformPointInv(xf, input.p2), TransformPointInv(xf, input.p1)) == RotateInv(xf.q, Sub(input.p2, input.p1))
    {
      RotateInvSub(xf.q, Sub(input.p2, xf.p), Sub(input.p1, xf.p));
      assert Sub(Sub(input.p2, xf.p), Sub(input.p1, xf.p)) == Sub(input.p2, input.p1);
    }

    /** A hit beyond the ray's start reports a world normal facing against the world ray. */
    lemma RayCastNormalOpposesRay(input: RayCastInput, xf: Transform, sqrt: real -> real)
      requires IsSqrt(sqrt)
      requires RayCast(input, xf, 0, sqrt).Some?
      requires 0.0 < RayCast(input, xf, 0, sqrt).value.fraction
      ensures Dot(RayCast(input, xf, 0, sqrt).value.normal, Sub(input.p2, input.p1)) < 0.0
    {
      var lp1, lp2 := TransformPointInv(xf, input.p1), TransformPointInv(xf, input.p2);
      var local := RayCastLocal(vertex1, vertex2, lp1, lp2, input.maxFraction, sqrt);
      RayCastLocalNormalOpposesRay(vertex1, vertex2, lp1, lp2, input.maxFraction, sqrt);
      LocalDirection(input, xf);
      RotateAdjoint(xf.q, local.value.normal, Sub(input.p2, input.p1));
    }

    /** With a proper rotation, a reported hit lies on the placed edge. */
    lemma RayCastHitIsOnEdge(input: RayCastInput, xf: Transform, sqrt: real -> real)
      requires IsSqrt(sqrt)
      requires xf.q.IsUnit()
      requires RayCast(input, xf, 0, sqrt).Some?
      ensures var t := RayCast(input, xf, 0, sqrt).value.fraction;
        var w1, w2 := TransformPoint(xf, vertex1), TransformPoint(xf, vertex2);
        exists s: real :: 0.0 <= s <= 1.0 && Add(input.p1, Scale(t, Sub(input.p2, input.p1))) == Add(w1, Scale(s, Sub(w2, w1)))
    {
      var lp1, lp2 := TransformPointInv(xf, input.p1), TransformPointInv(xf, input.p2);
      var t := RayCast(input, xf, 0, sqrt).value.fraction;
      RayCastLocalHitIsOnEdge(vertex1, vertex2, lp1, lp2, input.maxFraction, sqrt);
      var s :| 0.0 <= s <= 1.0 && Add(lp1, Scale(t, Sub(lp2, lp1))) == Add(vertex1, Scale(s, Sub(vertex2, vertex1)));
      var w1, w2 := TransformPoint(xf, vertex1), TransformPoint(xf, vertex2);
      // Map both sides of the local equation to the world frame.
      RotateAddScaled(xf.q, lp1, Sub(lp2, lp1), t);
      RotateSub(xf.q, lp2, lp1);
      RotateAddScaled(xf.q, vertex1, Sub(vertex2, vertex1), s);
      RotateSub(xf.q, vertex2, vertex1);
      TransformRoundTrip(xf, input.p1);
      TransformRoundTrip(xf, input.p2);
      assert Rotate(xf.q, lp1) == Sub(input.p1, xf.p);
      assert Rotate(xf.q, lp2) == Sub(input.p2, xf.p);
      assert Rotate(xf.q, Sub(lp2, lp1)) == Sub(input.p2, input.p1);
      assert Rotate(xf.q, Sub(vertex2, vertex1)) == Sub(w2, w1);
      assert TransformPoint(xf, Add(lp1, Scale(t, Sub(lp2, lp1)))) == Add(input.p1, Scale(t, Sub(input.p2, input.p1)));
      assert TransformPoint(xf, Add(vertex1, Scale(s, Sub(vertex2, vertex1)))) == Add(w1, Scale(s, Sub(w2, w1)));
    }

    /** The placed edge's direction is the local one rotated by xf. */
    lemma PlacedDirection(xf: Transform)
      ensures Sub(TransformPoint(xf, vertex2), TransformPoint(xf, vertex1)) == Rotate(xf.q, Sub(vertex2, vertex1))
    {
      RotateSub(xf.q, vertex2, vertex1);
    }

    /** With a proper rotation, a reported world normal has unit length and
        is perpendicular to the placed edge. */
    lemma RayCastNormalIsUnit(input: RayCastInput, xf: Transform, sqrt: real -> real)
      requires IsSqrt(sqrt)
      requires xf.q.IsUnit()
      requires RayCast(input, xf, 0, sqrt).Some?
      ensures LengthSquared(RayCast(input, xf, 0, sqrt).value.normal) == 1.0
      ensures Dot(RayCast(input, xf, 0, sqrt).value.normal, Sub(TransformPoint(xf, vertex2), TransformPoint(xf, vertex1))) == 0.0
    {
      var lp1, lp2 := TransformPointInv(xf, input.p1), TransformPointInv(xf, input.p2);
      var n := RayCastLocal(vertex1, vertex2, lp1, lp2, input.maxFraction, sqrt).value.normal;
      var wn := RayCast(input, xf, 0, sqrt).value.normal;
      assert wn == Rotate(xf.q, n);
      RotatePreservesDot(xf.q, n, n);
      assert LengthSquared(wn) == Dot(wn, wn);
      assert LengthSquared(n) == Dot(n, n);
      PlacedDirection(xf);
      RotatePreservesDot(xf.q, n, Sub(vertex2, vertex1));
    }

    /** With a proper rotation, a world ray parallel to the placed edge never
        hits it. */
    lemma RayCastParallelMisses(input: RayCastInput, xf: Transform, sqrt: real -> real)
      requires IsSqrt(sqrt)
      requires xf.q.IsUnit()
      requires Cross(Sub(TransformPoint(xf, vertex2), TransformPoint(xf, vertex1)), Sub(input.p2, input.p1)) == 0.0
      ensures RayCast(input, xf, 0, sqrt).None?
    {
      var lp1, lp2 := TransformPointInv(xf, input.p1), TransformPointInv(xf, input.p2);
      var e, d := Sub(vertex2, vertex1), Sub(input.p2, input.p1);
      var ld := RotateInv(xf.q, d);
      LocalDirection(input, xf);
      PlacedDirection(xf);
      RotateInvRotate(xf.q, d);
      RotatePreservesCross(xf.q, e, ld);
      assert Cross(e, Sub(lp2, lp1)) == 0.0;
      RayCastLocalParallelMisses(vertex1, vertex2, lp1, lp2, input.maxFraction, sqrt);
    }

    /** Completeness in the world frame: with a proper rotation, a world ray
        that crosses the placed edge within [0, maxFraction] and is not
        parallel to it is reported as a hit at the crossing. */
    lemma RayCastFindsCrossing(input: RayCastInput, xf: Transform, sqrt: real -> real, t: real, s: real)
      requires IsSqrt(sqrt)
      requires xf.q.IsUnit()
      requires Cross(Sub(TransformPoint(xf, vertex2), TransformPoint(xf, vertex1)), Sub(input.p2, input.p1)) != 0.0
      requires 0.0 <= t <= input.maxFraction && 0.0 <= s <= 1.0
      requires Add(input.p1, Scale(t, Sub(input.p2, input.p1)))
        == Add(TransformPoint(xf, vertex1), Scale(s, Sub(TransformPoint(xf, vertex2), TransformPoint(xf, vertex1))))
      ensures RayCast(input, xf, 0, sqrt).Some?
      ensures RayCast(input, xf, 0, sqrt).value.fraction == t
    {
      var lp1, lp2 := TransformPointInv(xf, input.p1), TransformPointInv(xf, input.p2);
      var e, d := Sub(vertex2, vertex1), Sub(input.p2, input.p1);
      var w1 := TransformPoint(xf, vertex1);
      var ld := RotateInv(xf.q, d);
      LocalDirection(input, xf);
      assert Sub(lp2, lp1) == ld;
      PlacedDirection(xf);
      // The cross product survives the change of frame.
      RotateInvRotate(xf.q, d);
      RotatePreservesCross(xf.q, e, ld);
      assert Cross(e, ld) != 0.0;
      // The ray's point at t, seen from the edge's frame.
      RotateInvAddScaled(xf.q, Sub(input.p1, xf.p), d, t);
      assert Sub(Add(input.p1, Scale(t, d)), xf.p) == Add(Sub(input.p1, xf.p), Scale(t, d));
      assert TransformPointInv(xf, Add(input.p1, Scale(t, d))) == Add(lp1, Scale(t, ld));
      // The edge's point at s, seen from the edge's frame.
      var re := Rotate(xf.q, e);
      RotateInvAddScaled(xf.q, Rotate(xf.q, vertex1), re, s);
      RotateInvRotate(xf.q, vertex1);
      RotateInvRotate(xf.q, e);
      assert Sub(Add(w1, Scale(s, re)), xf.p) == Add(Rotate(xf.q, vertex1), Scale(s, re));
      assert TransformPointInv(xf, Add(w1, Scale(s, re))) == Add(vertex1, Scale(s, e));
      RayCastLocalFindsCrossing(vertex1, vertex2, lp1, lp2, input.maxFraction, sqrt, t, s);
    }

    /** Under any rotation other than the identity, the as-written cast
        reports the same fraction as the corrected one but a different
        normal: the local one instead of its world image. */
    lemma RayCastAsWrittenDisagrees(input: RayCastInput, xf: Transform, sqrt: real -> real)
      requires IsSqrt(sqrt)
      requires RayCastAsWritten(input, xf, 0, sqrt).Some?
      requires xf.q.s != 0.0 || xf.q.c != 1.0
      ensures RayCast(input, xf, 0, sqrt).Some?
      ensures RayCast(input, xf, 0, sqrt).value.fraction == RayCastAsWritten(input, xf, 0, sqrt).value.fraction
      ensures RayCast(input, xf, 0, sqrt).value.normal != RayCastAsWritten(input, xf, 0, sqrt).value.normal
    {
      var n := RayCastAsWritten(input, xf, 0, sqrt).value.normal;
      assert LengthSquared(n) == 1.0;
      RotateMovesNonZero(xf.q, n);
    }

    /** Under a half turn, a hit beyond the ray's start gets an as-written
        normal that points along the world ray instead of against it. */
    lemma RayCastAsWrittenNormalAlongRay(input: RayCastInput, xf: Transform, sqrt: real -> real)
      requires IsSqrt(sqrt)
      requires xf.q.s == 0.0 && xf.q.c == -1.0
      requires RayCastAsWritten(input, xf, 0, sqrt).Some?
      requires 0.0 < RayCastAsWritten(input, xf, 0, sqrt).value.fraction
      ensures 0.0 < Dot(RayCastAsWritten(input, xf, 0, sqrt).value.normal, Sub(input.p2, input.p1))
    {
      var n := RayCastAsWritten(input, xf, 0, sqrt).value.normal;
      assert RayCast(input, xf, 0, sqrt).value.normal == Rotate(xf.q, n);
      RayCastNormalOpposesRay(input, xf, sqrt);
      assert xf.q.c * n.x - xf.q.s * n.y == -n.x;
      assert xf.q.s * n.x + xf.q.c * n.y == -n.y;
      assert Rotate(xf.q, n) == Neg(n);
    }

    /** The smallest box holding both transformed end vertices, widened by the radius. */
    function ComputeAABB(xf: Transform, childIndex: int): (aabb: AABB)
      reads this
      ensures Encloses(aabb, TransformPoint(xf, vertex1), radius)
      ensures Encloses(aabb, TransformPoint(xf, vertex2), radius)
      ensures TouchesEither(aabb, TransformPoint(xf, vertex1), TransformPoint(xf, vertex2), radius)
      ensures 0.0 <= radius ==> aabb.lowerBound.x <= aabb.upperBound.x && aabb.lowerBound.y <= aabb.upperBound.y
    {
      var v1 := TransformPoint(xf, vertex1);
      var v2 := TransformPoint(xf, vertex2);
      var lower := Min(v1, v2);
      var upper := Max(v1, v2);
      var r := Vec2(radius, radius);
      AABB(Sub(lower, r), Add(upper, r))
    }

    /** An edge has no area: zero mass and inertia, centred between its end vertices. */
    function ComputeMass(density: real): (massData: MassData)
      reads this
      ensures massData.mass == 0.0 && massData.I == 0.0
      ensures Sub(massData.center, vertex1) == Sub(vertex2, massData.center)
    {
      MassData(0.0, Scale(0.5, Add(vertex1, vertex2)), 0.0)
    }
  }
}
