/** Axis-aligned boxes ("cubes") and the open-interval overlap test that the
    placement editors run before accepting a new cube. */
module Geometry {

  datatype Axis = X | Y | Z

  /** An `{x, y, z}` triple: a position, a container size or a dimension set
      (width on X, height on Y, depth on Z). */
  datatype Vec3 = Vec3(x: real, y: real, z: real) {
    function Get(a: Axis): real {
      match a
      case X => x
      case Y => y
      case Z => z
    }

    /** `{...prev, [a]: v}`. */
    function With(a: Axis, v: real): (r: Vec3)
      ensures r.Get(a) == v
      ensures forall b :: b != a ==> r.Get(b) == Get(b)
    {
      match a
      case X => Vec3(v, y, z)
      case Y => Vec3(x, v, z)
      case Z => Vec3(x, y, v)
    }
  }

  /** A placed cube: minimum corner, extents and display colour. */
  datatype Cube = Cube(x: real, y: real, z: real, width: real, height: real, depth: real, color: string) {
    function Corner(): Vec3 { Vec3(x, y, z) }
    function Size(): Vec3 { Vec3(width, height, depth) }
  }

  /** The open intervals (a, a + aLen) and (b, b + bLen) share a point. */
  predicate SpanOverlap(a: real, aLen: real, b: real, bLen: real) {
    a < b + bLen && a + aLen > b
  }

  /** The six strict comparisons of the editors' overlap test, `c` being the
      candidate and `d` an existing cube. */
  predicate Intersects(c: Cube, d: Cube) {
    && SpanOverlap(c.x, c.width, d.x, d.width)
    && SpanOverlap(c.y, c.height, d.y, d.height)
    && SpanOverlap(c.z, c.depth, d.z, d.depth)
  }

  /** The test does not depend on which cube is the candidate. */
  lemma IntersectsSymmetric(c: Cube, d: Cube)
    ensures Intersects(c, d) <==> Intersects(d, c)
  {
  }

  /** Cubes that only share a face (on any axis) do not intersect. */
  lemma FaceContactIsNoOverlap(c: Cube, d: Cube)
    requires c.x + c.width == d.x || d.x + d.width == c.x
          || c.y + c.height == d.y || d.y + d.height == c.y
          || c.z + c.depth == d.z || d.z + d.depth == c.z
    ensures !Intersects(c, d)
  {
  }

  /** Cubes with positive extents that have a common interior point do intersect. */
  lemma SharedInteriorPointIntersects(c: Cube, d: Cube, p: Vec3)
    requires c.x < p.x < c.x + c.width && d.x < p.x < d.x + d.width
    requires c.y < p.y < c.y + c.height && d.y < p.y < d.y + d.height
    requires c.z < p.z < c.z + c.depth && d.z < p.z < d.z + d.depth
    ensures Intersects(c, d)
  {
  }

  /** `p` lies strictly inside `c` on all three axes. */
  predicate Inside(c: Cube, p: Vec3) {
    c.x < p.x < c.x + c.width && c.y < p.y < c.y + c.height && c.z < p.z < c.z + c.depth
  }

  /** The midpoint of the common part of two overlapping open spans. */
  function SharedCoordinate(a: real, aLen: real, b: real, bLen: real): (m: real)
    requires SpanOverlap(a, aLen, b, bLen) && aLen > 0.0 && bLen > 0.0
    ensures a < m < a + aLen && b < m < b + bLen
  {
    var lo := if a < b then b else a;
    var hi := if a + aLen < b + bLen then a + aLen else b + bLen;
    (lo + hi) / 2.0
  }

  /** For cubes with positive extents, the test holds exactly when the two
      cubes have a common interior point. */
  lemma IntersectsIffSharedPoint(c: Cube, d: Cube)
    requires c.width > 0.0 && c.height > 0.0 && c.depth > 0.0
    requires d.width > 0.0 && d.height > 0.0 && d.depth > 0.0
    ensures Intersects(c, d) <==> exists p :: Inside(c, p) && Inside(d, p)
  {
    if Intersects(c, d) {
      var p := Vec3(SharedCoordinate(c.x, c.width, d.x, d.width),
                    SharedCoordinate(c.y, c.height, d.y, d.height),
                    SharedCoordinate(c.z, c.depth, d.z, d.depth));
      assert Inside(c, p) && Inside(d, p);
    }
    if exists p :: Inside(c, p) && Inside(d, p) {
      var p :| Inside(c, p) && Inside(d, p);
      SharedInteriorPointIntersects(c, d, p);
    }
  }

  predicate Clear(cubes: seq<Cube>, c: Cube) {
    forall i :: 0 <= i < |cubes| ==> !Intersects(c, cubes[i])
  }

  /** No two cubes at different positions of the list intersect. */
  predicate PairwiseDisjoint(cubes: seq<Cube>) {
    forall i, j :: 0 <= i < |cubes| && 0 <= j < |cubes| && i != j ==> !Intersects(cubes[i], cubes[j])
  }

  /** Appending a cube that passed the test keeps the list pairwise disjoint. */
  lemma AppendClearKeepsDisjoint(cubes: seq<Cube>, c: Cube)
    requires PairwiseDisjoint(cubes) && Clear(cubes, c)
    ensures PairwiseDisjoint(cubes + [c])
  {
    var s := cubes + [c];
    forall i, j | 0 <= i < |s| && 0 <= j < |s| && i != j
      ensures !Intersects(s[i], s[j])
    {
      if j == |cubes| {
        IntersectsSymmetric(s[i], c);
      } else if i == |cubes| {
        assert s[j] == cubes[j];
      }
    }
  }

  /** `isSpaceAvailable`: scans the existing cubes and answers false at the
      first one the candidate intersects. */
  method IsSpaceAvailable(cubes: seq<Cube>, c: Cube) returns (available: bool)
    ensures available <==> Clear(cubes, c)
    ensures cubes == [] ==> available
  {
    for i := 0 to |cubes|
      invariant forall j :: 0 <= j < i ==> !Intersects(c, cubes[j])
    {
      if Intersects(c, cubes[i]) {
        return false;
      }
    }
    return true;
  }
}
