/** The distance proxy that the GJK distance query works on (a vertex buffer
    with a skin radius), its support-point queries, and the record shapes of
    the simplex cache and of the query's input and output. */
module Distance {
  import opened Math2D

  /** `k` is a support index of `vs` in direction `d`: its vertex has the
      largest dot product with `d`, and no earlier vertex attains it. */
  ghost predicate IsSupport(vs: seq<Vec2>, d: Vec2, k: int)
  {
    && 0 <= k < |vs|
    && (forall j :: 0 <= j < |vs| ==> Dot(vs[j], d) <= Dot(vs[k], d))
    && (forall j :: 0 <= j < k ==> Dot(vs[j], d) < Dot(vs[k], d))
  }

  /** The index the left-to-right scan with a strict `>` settles on. */
  function SupportIndex(vs: seq<Vec2>, d: Vec2): (k: nat)
    requires |vs| > 0
    ensures IsSupport(vs, d, k)
    decreases |vs|
  {
    if |vs| == 1 then 0
    else
      var front := vs[..|vs| - 1];
      var k := SupportIndex(front, d);
      assert forall j :: 0 <= j < |front| ==> front[j] == vs[j];
      if Dot(vs[|vs| - 1], d) > Dot(vs[k], d) then |vs| - 1 else k
  }

  /** At most one index satisfies IsSupport, so the query is deterministic. */
  lemma SupportIsUnique(vs: seq<Vec2>, d: Vec2, k1: int, k2: int)
    requires IsSupport(vs, d, k1) && IsSupport(vs, d, k2)
    ensures k1 == k2
  {
    var v1, v2 := vs[k1], vs[k2];
    assert k1 < k2 ==> Dot(v1, d) < Dot(v2, d);
    assert k2 < k1 ==> Dot(v2, d) < Dot(v1, d);
    assert Dot(v1, d) == Dot(v2, d);
  }

  class DistanceProxy {
    /** Inline storage for shapes with at most two vertices. */
    var buffer: array<Vec2>
    /** The vertex buffer in use; null in a default-constructed proxy. */
    var vertices: array?<Vec2>
    var count: int
    var radius: real

    ghost predicate Valid()
      reads this
    {
      && buffer.Length == 2
      && 0 <= count
      && (count > 0 ==> vertices != null && count <= vertices.Length)
    }

    /** The vertices the proxy exposes, in order. */
    ghost function Vertices(): seq<Vec2>
      reads this, vertices
      requires Valid()
    {
      if count == 0 then [] else vertices[..count]
    }

    /** A proxy with no vertices, count 0 and radius 0. */
    constructor ()
      ensures Valid()
      ensures vertices == null && count == 0 && radius == 0.0
      ensures Vertices() == []
      ensures fresh(buffer)
    {
      buffer := new Vec2[2](_ => Zero);
      vertices := null;
      count := 0;
      radius := 0.0;
    }

    function GetVertexCount(): (n: int)
      reads this, vertices
      requires Valid()
      ensures n == |Vertices()|
    {
      count
    }

    /** Bounds-checked access; an index outside [0, count) is a contract violation. */
    function GetVertex(index: int): (v: Vec2)
      reads this, vertices
      requires Valid()
      requires 0 <= index < count
      ensures v == Vertices()[index]
    {
      vertices[index]
    }

    /** Index of the vertex furthest along `d`; ties go to the lowest index. */
    method GetSupport(d: Vec2) returns (bestIndex: int)
      requires Valid()
      requires count > 0
      ensures IsSupport(Vertices(), d, bestIndex)
      ensures bestIndex == SupportIndex(Vertices(), d)
    {
      bestIndex := 0;
      var bestValue := Dot(vertices[0], d);
      var i := 1;
      while i < count
        invariant 1 <= i <= count
        invariant bestIndex == SupportIndex(vertices[..i], d)
        invariant bestValue == Dot(vertices[bestIndex], d)
      {
        assert vertices[..i + 1][..i] == vertices[..i];
        var value := Dot(vertices[i], d);
        if value > bestValue {
          bestIndex := i;
          bestValue := value;
        }
        i := i + 1;
      }
    }

    /** The vertex furthest along `d`: the vertex at GetSupport's index. */
    method GetSupportVertex(d: Vec2) returns (v: Vec2)
      requires Valid()
      requires count > 0
      ensures v == Vertices()[SupportIndex(Vertices(), d)]
      ensures exists k :: IsSupport(Vertices(), d, k) && v == Vertices()[k]
    {
      var bestIndex := 0;
      var bestValue := Dot(vertices[0], d);
      var i := 1;
      while i < count
        invariant 1 <= i <= count
        invariant bestIndex == SupportIndex(vertices[..i], d)
        invariant bestValue == Dot(vertices[bestIndex], d)
      {
        assert vertices[..i + 1][..i] == vertices[..i];
        var value := Dot(vertices[i], d);
        if value > bestValue {
          bestIndex := i;
          bestValue := value;
        }
        i := i + 1;
      }
      v := vertices[bestIndex];
    }
  }

  /** Warm-start data for the distance query: up to three index pairs into
      the two proxies (stored as unsigned chars) and a metric. */
  datatype SimplexCache = SimplexCache(metric: real, count: nat, indexA: seq<nat>, indexB: seq<nat>)
  {
    ghost predicate Valid()
    {
      && count <= 3
      && |indexA| == 3 && |indexB| == 3
      && (forall i :: 0 <= i < 3 ==> indexA[i] < 256 && indexB[i] < 256)
    }
  }

  /** The cache a caller hands to the first distance query of a shape pair. */
  function FirstCallCache(): (c: SimplexCache)
    ensures c.Valid()
    ensures c.count == 0
  {
    SimplexCache(0.0, 0, [0, 0, 0], [0, 0, 0])
  }

  /** A proxy held by value: a copy of its exposed vertices and its radius. */
  datatype ProxyData = ProxyData(vertices: seq<Vec2>, radius: real)

  /** The query's input record holds both proxies by value. */
  datatype DistanceInput = DistanceInput(
    proxyA: ProxyData,
    proxyB: ProxyData,
    transformA: Transform,
    transformB: Transform,
    useRadii: bool)

  datatype DistanceOutput = DistanceOutput(pointA: Vec2, pointB: Vec2, distance: real, iterations: int)
}
