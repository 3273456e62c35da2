/**
 * The rectangle a threshold floor is built from: the corners taken from the
 * door's location point, the door width and the host wall's thickness, the
 * closed four-edge loop through them, its centre, and the loop after the
 * move and rotation the macro applies to the created floor.
 */
module Footprint {
  import opened Geometry

  /** p1 is the door's location point, p2..p4 follow along +X and +Y. */
  function Corners(p1: Point, width: real, thickness: real): (q: seq<Point>)
    ensures |q| == 4 && q[0] == p1
    ensures q[1] == Add(p1, Point(width, 0.0, 0.0))
    ensures q[2] == Add(p1, Point(width, thickness, 0.0))
    ensures q[3] == Add(p1, Point(0.0, thickness, 0.0))
    ensures forall i :: 0 <= i < 4 ==> q[i].z == p1.z
  {
    var p2 := Point(p1.x + width, p1.y, p1.z);
    var p3 := Point(p2.x, p2.y + thickness, p1.z);
    var p4 := Point(p1.x, p1.y + thickness, p1.z);
    [p1, p2, p3, p4]
  }

  /** `(p1 + p2 + p3 + p4) / 4`. */
  function Center(p1: Point, width: real, thickness: real): (c: Point)
    ensures c == Add(p1, Point(width / 2.0, thickness / 2.0, 0.0))
  {
    var q := Corners(p1, width, thickness);
    Scale(Add(Add(Add(q[0], q[1]), q[2]), q[3]), 0.25)
  }

  /** The edges p1->p2, p2->p3, p3->p4, p4->p1. */
  function Edges(p1: Point, width: real, thickness: real): Loop
  {
    var q := Corners(p1, width, thickness);
    [Edge(q[0], q[1]), Edge(q[1], q[2]), Edge(q[2], q[3]), Edge(q[3], q[0])]
  }

  /** `p1 - center`, the move applied to a created floor. */
  function MoveVector(p1: Point, width: real, thickness: real): (v: Point)
    ensures v == Point(-width / 2.0, -thickness / 2.0, 0.0)
  {
    Sub(p1, Center(p1, width, thickness))
  }

  /** The loop after `MoveElement(p1 - center)` and the rotation about the vertical axis through p1. */
  function Placed(p1: Point, width: real, thickness: real, c: real, s: real): Loop
  {
    Rotate(Translate(Edges(p1, width, thickness), MoveVector(p1, width, thickness)), p1, c, s)
  }

  /** Every vertex of `l` lies at height `z`. */
  ghost predicate AtHeight(l: Loop, z: real)
  {
    forall i :: 0 <= i < |l| ==> l[i].start.z == z && l[i].end.z == z
  }

  /** Squared edge lengths, in loop order. */
  function SqLengths(l: Loop): (r: seq<real>)
    ensures |r| == |l|
  {
    if l == [] then [] else [SqLength(l[0])] + SqLengths(l[1..])
  }

  /** The built loop is closed and has four edges. */
  lemma EdgesClosed(p1: Point, width: real, thickness: real)
    ensures IsClosed(Edges(p1, width, thickness)) && |Edges(p1, width, thickness)| == 4
  {
    var l := Edges(p1, width, thickness);
    forall i | 0 <= i < 4 ensures l[i].end == l[(i + 1) % 4].start {
    }
  }

  /**
   * The edges run along +X, +Y, -X, -Y with lengths width, thickness, width,
   * thickness, and every vertex lies at the height of p1.
   */
  lemma EdgesSides(p1: Point, width: real, thickness: real)
    ensures var l := Edges(p1, width, thickness);
      && Sub(l[0].end, l[0].start) == Point(width, 0.0, 0.0)
      && Sub(l[1].end, l[1].start) == Point(0.0, thickness, 0.0)
      && Sub(l[2].end, l[2].start) == Point(-width, 0.0, 0.0)
      && Sub(l[3].end, l[3].start) == Point(0.0, -thickness, 0.0)
      && SqLengths(l) == [width * width, thickness * thickness, width * width, thickness * thickness]
      && AtHeight(l, p1.z)
  {
    var l := Edges(p1, width, thickness);
    assert SqLength(l[0]) == width * width && SqLength(l[2]) == width * width;
    assert SqLength(l[1]) == thickness * thickness && SqLength(l[3]) == thickness * thickness;
    assert SqLengths(l[3..]) == [SqLength(l[3])];
    assert SqLengths(l[2..]) == [SqLength(l[2]), SqLength(l[3])];
    assert SqLengths(l[1..]) == [SqLength(l[1]), SqLength(l[2]), SqLength(l[3])];
  }

  /** The built loop encloses width * thickness, counter-clockwise. */
  lemma EdgesArea(p1: Point, width: real, thickness: real)
    ensures Area(Edges(p1, width, thickness)) == width * thickness
  {
    var l := Edges(p1, width, thickness);
    var q := Corners(p1, width, thickness);
    assert Cross(Sub(q[0], p1), Sub(q[1], p1)) == 0.0;
    assert Cross(Sub(q[1], p1), Sub(q[2], p1)) == width * thickness;
    assert Cross(Sub(q[2], p1), Sub(q[3], p1)) == width * thickness;
    assert Cross(Sub(q[3], p1), Sub(q[0], p1)) == 0.0;
    assert l[1..][1..][1..][1..] == [];
    assert AreaSum(l[3..], p1) == 0.0;
    assert AreaSum(l[2..], p1) == width * thickness;
    assert AreaSum(l[1..], p1) == 2.0 * width * thickness;
  }

  /** The centre the macro computes is the centroid of the built loop. */
  lemma EdgesCentroid(p1: Point, width: real, thickness: real)
    ensures Centroid(Edges(p1, width, thickness)) == Center(p1, width, thickness)
  {
    var l := Edges(p1, width, thickness);
    var q := Corners(p1, width, thickness);
    assert VertexSum(l[3..]) == Add(q[3], Origin);
    assert VertexSum(l[2..]) == Add(q[2], Add(q[3], Origin));
    assert VertexSum(l[1..]) == Add(q[1], Add(q[2], Add(q[3], Origin)));
  }

  lemma TranslateAtHeight(l: Loop, v: Point, z: real)
    requires AtHeight(l, z) && v.z == 0.0
    ensures AtHeight(Translate(l, v), z)
  {
  }

  lemma RotateAtHeight(l: Loop, pivot: Point, c: real, s: real, z: real)
    requires AtHeight(l, z)
    ensures AtHeight(Rotate(l, pivot, c, s), z)
  {
  }

  lemma {:induction false} TranslateKeepsSqLengths(l: Loop, v: Point)
    ensures SqLengths(Translate(l, v)) == SqLengths(l)
  {
    if l != [] {
      assert Translate(l, v)[1..] == Translate(l[1..], v);
      TranslateKeepsSqLength(l[0], v);
      TranslateKeepsSqLengths(l[1..], v);
    }
  }

  lemma {:induction false} RotateKeepsSqLengths(l: Loop, pivot: Point, c: real, s: real)
    requires IsUnit(c, s)
    ensures SqLengths(Rotate(l, pivot, c, s)) == SqLengths(l)
  {
    if l != [] {
      assert Rotate(l, pivot, c, s)[1..] == Rotate(l[1..], pivot, c, s);
      RotateKeepsSqLength(l[0], pivot, c, s);
      RotateKeepsSqLengths(l[1..], pivot, c, s);
    }
  }

  /**
   * After the move and the rotation the loop is still a closed four-edge loop
   * with the same edge lengths and the same area, still at the door's base
   * height, and its centroid is the door's location point.
   */
  lemma PlacedShape(p1: Point, width: real, thickness: real, c: real, s: real)
    requires IsUnit(c, s)
    ensures var l := Placed(p1, width, thickness, c, s);
      && IsClosed(l) && |l| == 4
      && SqLengths(l) == [width * width, thickness * thickness, width * width, thickness * thickness]
      && Area(l) == width * thickness
      && AtHeight(l, p1.z)
      && Centroid(l) == p1
  {
    var e := Edges(p1, width, thickness);
    var v := MoveVector(p1, width, thickness);
    var m := Translate(e, v);
    EdgesClosed(p1, width, thickness);
    EdgesSides(p1, width, thickness);
    EdgesArea(p1, width, thickness);
    EdgesCentroid(p1, width, thickness);
    TranslateKeepsClosed(e, v);
    RotateKeepsClosed(m, p1, c, s);
    TranslateKeepsSqLengths(e, v);
    RotateKeepsSqLengths(m, p1, c, s);
    TranslateKeepsArea(e, v);
    RotateKeepsArea(m, p1, c, s);
    TranslateAtHeight(e, v, p1.z);
    RotateAtHeight(m, p1, c, s, p1.z);
    TranslateMovesCentroid(e, v);
    assert Centroid(m) == p1;
    RotateMovesCentroid(m, p1, c, s);
  }

  /** A 900 x 200 door has its centre 450 along the width and 100 into the wall. */
  lemma Door900By200(p1: Point, width: real, thickness: real)
    requires width == 900.0 && thickness == 200.0
    ensures Center(p1, width, thickness) == Add(p1, Point(450.0, 100.0, 0.0))
  {
  }

  /** Turned a quarter (cos = 0, sin = 1), the footprint keeps its area and its width edge runs along +Y. */
  lemma QuarterTurn(p1: Point, width: real, thickness: real, c: real, s: real)
    requires c == 0.0 && s == 1.0
    ensures var l := Placed(p1, width, thickness, c, s);
      Area(l) == width * thickness && Sub(l[0].end, l[0].start) == Point(0.0, width, 0.0)
  {
    var e := Edges(p1, width, thickness);
    var v := MoveVector(p1, width, thickness);
    var m := Translate(e, v);
    EdgesArea(p1, width, thickness);
    EdgesSides(p1, width, thickness);
    TranslateKeepsArea(e, v);
    RotateKeepsArea(m, p1, c, s);
    assert Sub(m[0].end, m[0].start) == Point(width, 0.0, 0.0);
    RotatePointSub(m[0].end, m[0].start, p1, c, s);
  }
}
