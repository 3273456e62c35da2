/**
 * Points, straight edges and closed edge loops in model space, with the two
 * rigid motions the macro applies to a floor: a move by a vector and a
 * rotation about a vertical axis. Coordinates are exact reals.
 */
module Geometry {

  datatype Point = Point(x: real, y: real, z: real)

  function Add(a: Point, b: Point): Point
  {
    Point(a.x + b.x, a.y + b.y, a.z + b.z)
  }

  function Sub(a: Point, b: Point): Point
  {
    Point(a.x - b.x, a.y - b.y, a.z - b.z)
  }

  function Scale(a: Point, k: real): Point
  {
    Point(a.x * k, a.y * k, a.z * k)
  }

  const Origin := Point(0.0, 0.0, 0.0)

  /** A bound straight segment from `start` to `end`. */
  datatype Edge = Edge(start: Point, end: Point)

  /** An ordered list of edges; a floor boundary when it is closed. */
  type Loop = seq<Edge>

  /** Every edge ends where the next one (cyclically) starts. */
  ghost predicate IsClosed(l: Loop)
  {
    |l| > 0 && forall i :: 0 <= i < |l| ==> l[i].end == l[(i + 1) % |l|].start
  }

  function SqLength(e: Edge): real
  {
    var d := Sub(e.end, e.start);
    d.x * d.x + d.y * d.y + d.z * d.z
  }

  /** z-component of the cross product of two vectors. */
  function Cross(a: Point, b: Point): real
  {
    a.x * b.y - a.y * b.x
  }

  /** Twice the signed area swept by the edges of `l`, seen from `o`. */
  function AreaSum(l: Loop, o: Point): real
  {
    if l == [] then 0.0
    else Cross(Sub(l[0].start, o), Sub(l[0].end, o)) + AreaSum(l[1..], o)
  }

  /**
   * Signed area of a loop's projection on the XY plane (shoelace formula,
   * taken relative to the first vertex); positive for a counter-clockwise loop.
   */
  function Area(l: Loop): real
  {
    if l == [] then 0.0 else AreaSum(l, l[0].start) / 2.0
  }

  /** Sum of the start points of the edges, i.e. of the loop's vertices. */
  function VertexSum(l: Loop): Point
  {
    if l == [] then Origin else Add(l[0].start, VertexSum(l[1..]))
  }

  /** Average of the loop's vertices. */
  function Centroid(l: Loop): Point
    requires |l| > 0
  {
    Scale(VertexSum(l), 1.0 / (|l| as real))
  }

  // ---------------------------------------------------------------- motions

  function TranslateEdge(e: Edge, v: Point): Edge
  {
    Edge(Add(e.start, v), Add(e.end, v))
  }

  /** `MoveElement` by the vector `v`, applied to every edge. */
  function Translate(l: Loop, v: Point): (r: Loop)
    ensures |r| == |l|
    ensures forall i :: 0 <= i < |l| ==> r[i] == TranslateEdge(l[i], v)
  {
    if l == [] then [] else [TranslateEdge(l[0], v)] + Translate(l[1..], v)
  }

  /** A unit vector (cos a, sin a) standing for a rotation angle a. */
  ghost predicate IsUnit(c: real, s: real)
  {
    c * c + s * s == 1.0
  }

  /** Rotation by (c, s) of a vector about the vertical axis. */
  function RotateVector(d: Point, c: real, s: real): Point
  {
    Point(c * d.x - s * d.y, s * d.x + c * d.y, d.z)
  }

  /** Rotation of a point about the vertical axis through `pivot`. */
  function RotatePoint(p: Point, pivot: Point, c: real, s: real): Point
  {
    Add(pivot, RotateVector(Sub(p, pivot), c, s))
  }

  function RotateEdge(e: Edge, pivot: Point, c: real, s: real): Edge
  {
    Edge(RotatePoint(e.start, pivot, c, s), RotatePoint(e.end, pivot, c, s))
  }

  /** `RotateElement` about the vertical axis through `pivot`, applied to every edge. */
  function Rotate(l: Loop, pivot: Point, c: real, s: real): (r: Loop)
    ensures |r| == |l|
    ensures forall i :: 0 <= i < |l| ==> r[i] == RotateEdge(l[i], pivot, c, s)
  {
    if l == [] then [] else [RotateEdge(l[0], pivot, c, s)] + Rotate(l[1..], pivot, c, s)
  }

  // ------------------------------------------------------ motion invariants

  lemma TranslateKeepsClosed(l: Loop, v: Point)
    requires IsClosed(l)
    ensures IsClosed(Translate(l, v))
  {
    var r := Translate(l, v);
    forall i | 0 <= i < |r| ensures r[i].end == r[(i + 1) % |r|].start {
      var j := (i + 1) % |l|;
      assert r[i].end == Add(l[i].end, v);
      assert r[j].start == Add(l[j].start, v);
    }
  }

  lemma RotateKeepsClosed(l: Loop, pivot: Point, c: real, s: real)
    requires IsClosed(l)
    ensures IsClosed(Rotate(l, pivot, c, s))
  {
  }

  lemma TranslateKeepsSqLength(e: Edge, v: Point)
    ensures SqLength(TranslateEdge(e, v)) == SqLength(e)
  {
    assert Sub(Add(e.end, v), Add(e.start, v)) == Sub(e.end, e.start);
  }

  /** Turning a vector about the vertical axis keeps its length. */
  lemma RotateVectorSqLength(d: Point, c: real, s: real)
    requires IsUnit(c, s)
    ensures var q := RotateVector(d, c, s); q.x * q.x + q.y * q.y + q.z * q.z == d.x * d.x + d.y * d.y + d.z * d.z
  {
    var q := RotateVector(d, c, s);
    calc {
      q.x * q.x + q.y * q.y;
      (c * d.x - s * d.y) * (c * d.x - s * d.y) + (s * d.x + c * d.y) * (s * d.x + c * d.y);
      (c * c + s * s) * (d.x * d.x) + (c * c + s * s) * (d.y * d.y);
      d.x * d.x + d.y * d.y;
    }
  }

  /** The difference of two rotated points is the rotated difference. */
  lemma RotatePointSub(a: Point, b: Point, pivot: Point, c: real, s: real)
    ensures Sub(RotatePoint(a, pivot, c, s), RotatePoint(b, pivot, c, s)) == RotateVector(Sub(a, b), c, s)
  {
    var da, db := Sub(a, pivot), Sub(b, pivot);
    assert c * da.x - c * db.x == c * (a.x - b.x);
    assert s * da.y - s * db.y == s * (a.y - b.y);
    assert s * da.x - s * db.x == s * (a.x - b.x);
    assert c * da.y - c * db.y == c * (a.y - b.y);
  }

  lemma RotateKeepsSqLength(e: Edge, pivot: Point, c: real, s: real)
    requires IsUnit(c, s)
    ensures SqLength(RotateEdge(e, pivot, c, s)) == SqLength(e)
  {
    RotatePointSub(e.end, e.start, pivot, c, s);
    RotateVectorSqLength(Sub(e.end, e.start), c, s);
  }

  /** Rotation scales the cross product by c*c + s*s. */
  lemma RotateCross(a: Point, b: Point, c: real, s: real)
    requires IsUnit(c, s)
    ensures Cross(RotateVector(a, c, s), RotateVector(b, c, s)) == Cross(a, b)
  {
    calc {
      Cross(RotateVector(a, c, s), RotateVector(b, c, s));
      (c * a.x - s * a.y) * (s * b.x + c * b.y) - (s * a.x + c * a.y) * (c * b.x - s * b.y);
      (c * c + s * s) * (a.x * b.y) - (c * c + s * s) * (a.y * b.x);
      Cross(a, b);
    }
  }

  lemma {:induction false} AreaSumTranslate(l: Loop, o: Point, v: Point)
    ensures AreaSum(Translate(l, v), Add(o, v)) == AreaSum(l, o)
  {
    if l != [] {
      var r := Translate(l, v);
      assert r[1..] == Translate(l[1..], v);
      assert Sub(r[0].start, Add(o, v)) == Sub(l[0].start, o);
      assert Sub(r[0].end, Add(o, v)) == Sub(l[0].end, o);
      AreaSumTranslate(l[1..], o, v);
    }
  }

  /** Moving a loop does not change its area. */
  lemma TranslateKeepsArea(l: Loop, v: Point)
    ensures Area(Translate(l, v)) == Area(l)
  {
    if l != [] {
      AreaSumTranslate(l, l[0].start, v);
    }
  }

  lemma {:induction false} AreaSumRotate(l: Loop, o: Point, pivot: Point, c: real, s: real)
    requires IsUnit(c, s)
    ensures AreaSum(Rotate(l, pivot, c, s), RotatePoint(o, pivot, c, s)) == AreaSum(l, o)
  {
    if l != [] {
      var r := Rotate(l, pivot, c, s);
      assert r[1..] == Rotate(l[1..], pivot, c, s);
      RotatePointSub(l[0].start, o, pivot, c, s);
      RotatePointSub(l[0].end, o, pivot, c, s);
      RotateCross(Sub(l[0].start, o), Sub(l[0].end, o), c, s);
      AreaSumRotate(l[1..], o, pivot, c, s);
    }
  }

  /** Rotating a loop about a vertical axis does not change its area. */
  lemma RotateKeepsArea(l: Loop, pivot: Point, c: real, s: real)
    requires IsUnit(c, s)
    ensures Area(Rotate(l, pivot, c, s)) == Area(l)
  {
    if l != [] {
      AreaSumRotate(l, l[0].start, pivot, c, s);
    }
  }

  lemma ScaleStep(v: Point, n: nat)
    requires n > 0
    ensures Scale(v, n as real) == Add(v, Scale(v, (n - 1) as real))
  {
    var m := (n - 1) as real;
    assert n as real == m + 1.0;
  }

  lemma {:induction false} VertexSumTranslate(l: Loop, v: Point)
    ensures VertexSum(Translate(l, v)) == Add(VertexSum(l), Scale(v, |l| as real))
  {
    if l != [] {
      var r := Translate(l, v);
      assert r[1..] == Translate(l[1..], v);
      VertexSumTranslate(l[1..], v);
      ScaleStep(v, |l|);
    }
  }

  /** Moving a loop by `v` moves its centroid by `v`. */
  lemma TranslateMovesCentroid(l: Loop, v: Point)
    requires |l| > 0
    ensures Centroid(Translate(l, v)) == Add(Centroid(l), v)
  {
    VertexSumTranslate(l, v);
    var n := |l| as real;
    ScaleShift(VertexSum(l), v, n, 1.0 / n);
  }

  lemma ScaleShift(sum: Point, v: Point, n: real, k: real)
    requires n * k == 1.0
    ensures Scale(Add(sum, Scale(v, n)), k) == Add(Scale(sum, k), v)
  {
    assert (sum.x + v.x * n) * k == sum.x * k + v.x * (n * k);
    assert (sum.y + v.y * n) * k == sum.y * k + v.y * (n * k);
    assert (sum.z + v.z * n) * k == sum.z * k + v.z * (n * k);
  }

  lemma {:induction false} VertexSumRotate(l: Loop, pivot: Point, c: real, s: real)
    ensures var n := |l| as real;
      VertexSum(Rotate(l, pivot, c, s))
        == Add(Scale(pivot, n), RotateVector(Sub(VertexSum(l), Scale(pivot, n)), c, s))
  {
    if l != [] {
      var r := Rotate(l, pivot, c, s);
      assert r[1..] == Rotate(l[1..], pivot, c, s);
      VertexSumRotate(l[1..], pivot, c, s);
      var m := (|l| - 1) as real;
      var rest := VertexSum(l[1..]);
      var d := Sub(l[0].start, pivot);
      var e := Sub(rest, Scale(pivot, m));
      ScaleStep(pivot, |l|);
      assert Sub(VertexSum(l), Scale(pivot, m + 1.0)) == Add(d, e);
      RotateVectorAdd(d, e, c, s);
    }
  }

  lemma RotateVectorAdd(d: Point, e: Point, c: real, s: real)
    ensures RotateVector(Add(d, e), c, s) == Add(RotateVector(d, c, s), RotateVector(e, c, s))
  {
    assert c * (d.x + e.x) == c * d.x + c * e.x;
    assert s * (d.y + e.y) == s * d.y + s * e.y;
    assert s * (d.x + e.x) == s * d.x + s * e.x;
    assert c * (d.y + e.y) == c * d.y + c * e.y;
  }

  lemma RotateVectorScale(d: Point, k: real, c: real, s: real)
    ensures RotateVector(Scale(d, k), c, s) == Scale(RotateVector(d, c, s), k)
  {
    assert c * (d.x * k) - s * (d.y * k) == (c * d.x - s * d.y) * k;
    assert s * (d.x * k) + c * (d.y * k) == (s * d.x + c * d.y) * k;
  }

  lemma ScaleOffset(sum: Point, p: Point, n: real, k: real)
    requires n * k == 1.0
    ensures Sub(Scale(sum, k), p) == Scale(Sub(sum, Scale(p, n)), k)
  {
    assert (sum.x - p.x * n) * k == sum.x * k - p.x * (n * k);
    assert (sum.y - p.y * n) * k == sum.y * k - p.y * (n * k);
    assert (sum.z - p.z * n) * k == sum.z * k - p.z * (n * k);
  }

  lemma ScaleBack(p: Point, q: Point, n: real, k: real)
    requires n * k == 1.0
    ensures Scale(Add(Scale(p, n), q), k) == Add(p, Scale(q, k))
  {
    assert (p.x * n + q.x) * k == p.x * (n * k) + q.x * k;
    assert (p.y * n + q.y) * k == p.y * (n * k) + q.y * k;
    assert (p.z * n + q.z) * k == p.z * (n * k) + q.z * k;
  }

  /** Rotating a loop about `pivot` rotates its centroid about `pivot`. */
  lemma RotateMovesCentroid(l: Loop, pivot: Point, c: real, s: real)
    requires |l| > 0
    ensures Centroid(Rotate(l, pivot, c, s)) == RotatePoint(Centroid(l), pivot, c, s)
  {
    VertexSumRotate(l, pivot, c, s);
    var n := |l| as real;
    var k := 1.0 / n;
    var sum := VertexSum(l);
    var d := Sub(sum, Scale(pivot, n));
    ScaleOffset(sum, pivot, n, k);
    RotateVectorScale(d, k, c, s);
    ScaleBack(pivot, RotateVector(d, c, s), n, k);
  }
}
