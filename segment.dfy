/** SevenSegmentDigitView.Segment: the seven light tubes of one glyph. Each is a copy of
    one hexagonal base tube, rotated and translated into place, and all seven share the
    same coordinate space (y grows downward, as on an Android canvas). */
module SegmentGeometry {
  import opened Geometry

  /** Segment indices, in the order of the glyph table. */
  const LT := 0
  const LB := 1
  const CT := 2
  const CC := 3
  const CB := 4
  const RT := 5
  const RB := 6

  /** Width of a tube. */
  const WIDTH := 4
  /** Height of each pointed end: half the width, so the ends are isosceles. */
  const PEAK := WIDTH / 2
  /** Length of a tube from point to point. */
  const HEIGHT := 10 + PEAK * 2
  /** Spacing between neighbouring tubes. */
  const Gap := 1

  /** The six vertices initBase lists, centred on the origin: top point, upper left,
      lower left, bottom point, lower right, upper right. */
  function BaseOutline(): (pts: seq<Point>)
    ensures |pts| == 6
  {
    [Point(0, HEIGHT / 2),
     Point(-(WIDTH / 2), HEIGHT / 2 - PEAK),
     Point(-(WIDTH / 2), -(HEIGHT / 2 - PEAK)),
     Point(0, -(HEIGHT / 2)),
     Point(WIDTH / 2, -(HEIGHT / 2 - PEAK)),
     Point(WIDTH / 2, HEIGHT / 2 - PEAK)]
  }

  /** The base path makeBasePath leaves behind: the outline turned by 90 degrees. */
  function BasePath(): (r: seq<Point>)
    ensures |r| == |BaseOutline()|
  {
    TransformPath(Rotate(90), BaseOutline())
  }

  /** The arguments the constructor's switch passes to translatePath. */
  datatype Placement = Placement(dx: int, dy: int, degrees: int)

  /** The constructor's switch on offset. Its default label sits with the LT case, so
      every offset outside 0..6 gets the left-top placement. */
  function PlacementOf(offset: int): (p: Placement)
    ensures p.degrees == 0 || p.degrees == 90
  {
    match offset
    case 1 => Placement(-(HEIGHT / 2) - Gap, -(HEIGHT / 2) - Gap, 90)
    case 2 => Placement(0, HEIGHT + Gap * 2, 0)
    case 3 => Placement(0, 0, 0)
    case 4 => Placement(0, -HEIGHT - Gap * 2, 0)
    case 5 => Placement(HEIGHT / 2 + Gap, HEIGHT / 2 + Gap, 90)
    case 6 => Placement(HEIGHT / 2 + Gap, -(HEIGHT / 2) - Gap, 90)
    case _ => Placement(-(HEIGHT / 2) - Gap, HEIGHT / 2 + Gap, 90)
  }

  /** translatePath's matrix: setTranslate(dx, -dy), then preRotate(degrees), so that the
      rotation is applied to a point before the translation. */
  function PlacementMatrix(p: Placement): (m: Matrix)
    requires IsQuarterTurn(p.degrees)
    ensures 90 * m.quarter == p.degrees
    ensures m.transX == p.dx && m.transY == -p.dy
  {
    Concat(Translate(p.dx, -p.dy), Rotate(p.degrees))
  }

  /** The finished polygon of the segment built with the given offset. */
  function SegmentPath(offset: int): (r: seq<Point>)
    ensures |r| == |BaseOutline()|
  {
    TransformPath(PlacementMatrix(PlacementOf(offset)), BasePath())
  }

  /** Every segment is the base outline put through three maps in turn: the quarter turn of
      makeBasePath, the placement's own rotation, and the translation by (dx, -dy). */
  lemma SegmentPathComposition(offset: int, k: int)
    requires 0 <= k < 6
    ensures |SegmentPath(offset)| == 6
    ensures var p := PlacementOf(offset);
      SegmentPath(offset)[k] ==
        Apply(Translate(p.dx, -p.dy), Apply(Rotate(p.degrees), Apply(Rotate(90), BaseOutline()[k])))
  {
    var p := PlacementOf(offset);
    var base := BasePath();
    assert base[k] == Apply(Rotate(90), BaseOutline()[k]);
    var m := PlacementMatrix(p);
    assert SegmentPath(offset) == TransformPath(m, base);
    assert SegmentPath(offset)[k] == Apply(m, base[k]);
    ConcatApply(Translate(p.dx, -p.dy), Rotate(p.degrees), base[k]);
  }

  /** The same maps written out on coordinates: a corner tube (a second quarter turn) sends
      a base vertex (x, y) to (dx - x, -dy - y); a centre tube sends it to (dx - y, x - dy). */
  lemma SegmentVertex(offset: int, k: int)
    requires 0 <= k < 6
    ensures var p := PlacementOf(offset); var b := BaseOutline()[k];
      SegmentPath(offset)[k] ==
        if p.degrees == 90 then Point(p.dx - b.x, -p.dy - b.y) else Point(p.dx - b.y, b.x - p.dy)
  {
    SegmentPathComposition(offset, k);
    var p := PlacementOf(offset);
    var b := BaseOutline()[k];
    RotateQuarters(90, b);
    RotateQuarters(p.degrees, Apply(Rotate(90), b));
  }

  /** An offset outside 0..6 builds the left-top tube. */
  lemma OutOfRangeOffsetIsLeftTop(offset: int)
    requires !(0 <= offset <= 6)
    ensures SegmentPath(offset) == SegmentPath(LT)
  {
    assert PlacementOf(offset) == PlacementOf(LT);
  }

  /** The seven tubes written out vertex by vertex, in offset order LT, LB, CT, CC, CB,
      RT, RB; each row lists the images of the base outline's vertices in its order. */
  const Layout: seq<seq<Point>> := [
    [Point(-8, -15), Point(-6, -13), Point(-6, -3), Point(-8, -1), Point(-10, -3), Point(-10, -13)],
    [Point(-8, 1), Point(-6, 3), Point(-6, 13), Point(-8, 15), Point(-10, 13), Point(-10, 3)],
    [Point(-7, -16), Point(-5, -18), Point(5, -18), Point(7, -16), Point(5, -14), Point(-5, -14)],
    [Point(-7, 0), Point(-5, -2), Point(5, -2), Point(7, 0), Point(5, 2), Point(-5, 2)],
    [Point(-7, 16), Point(-5, 14), Point(5, 14), Point(7, 16), Point(5, 18), Point(-5, 18)],
    [Point(8, -15), Point(10, -13), Point(10, -3), Point(8, -1), Point(6, -3), Point(6, -13)],
    [Point(8, 1), Point(10, 3), Point(10, 13), Point(8, 15), Point(6, 13), Point(6, 3)]
  ]

  /** A segment's path is a given six-vertex list once every vertex agrees. */
  lemma PathIs(offset: int, expected: seq<Point>)
    requires |expected| == 6
    requires forall k :: 0 <= k < 6 ==>
      expected[k] == (var p := PlacementOf(offset); var b := BaseOutline()[k];
        if p.degrees == 90 then Point(p.dx - b.x, -p.dy - b.y) else Point(p.dx - b.y, b.x - p.dy))
    ensures SegmentPath(offset) == expected
  {
    SegmentPathComposition(offset, 0);
    forall k | 0 <= k < 6
      ensures SegmentPath(offset)[k] == expected[k]
    {
      SegmentVertex(offset, k);
    }
  }

  /** The computed path of each tube is its row of Layout, one tube at a time. */
  lemma LayoutLT() ensures SegmentPath(LT) == Layout[LT] { PathIs(LT, Layout[LT]); }
  lemma LayoutLB() ensures SegmentPath(LB) == Layout[LB] { PathIs(LB, Layout[LB]); }
  lemma LayoutCT() ensures SegmentPath(CT) == Layout[CT] { PathIs(CT, Layout[CT]); }
  lemma LayoutCC() ensures SegmentPath(CC) == Layout[CC] { PathIs(CC, Layout[CC]); }
  lemma LayoutCB() ensures SegmentPath(CB) == Layout[CB] { PathIs(CB, Layout[CB]); }
  lemma LayoutRT() ensures SegmentPath(RT) == Layout[RT] { PathIs(RT, Layout[RT]); }
  lemma LayoutRB() ensures SegmentPath(RB) == Layout[RB] { PathIs(RB, Layout[RB]); }

  lemma SegmentPathLayout(offset: int)
    requires 0 <= offset <= 6
    ensures SegmentPath(offset) == Layout[offset]
  {
    match offset
    case 0 => LayoutLT();
    case 1 => LayoutLB();
    case 2 => LayoutCT();
    case 3 => LayoutCC();
    case 4 => LayoutCB();
    case 5 => LayoutRT();
    case 6 => LayoutRB();
  }

  /** Layout lists the seven segment paths. */
  lemma LayoutIsSegmentPath()
    ensures forall i :: 0 <= i < 7 ==> SegmentPath(i) == Layout[i]
  {
    forall i | 0 <= i < 7
      ensures SegmentPath(i) == Layout[i]
    {
      SegmentPathLayout(i);
    }
  }

  /** The bounds of six vertices, once it is known which vertices reach each edge. */
  lemma HexagonBounds(pts: seq<Point>, r: Rect, l: int, t: int, rt: int, bt: int)
    requires |pts| == 6
    requires forall k :: 0 <= k < 6 ==> Inside(r, pts[k])
    requires 0 <= l < 6 && pts[l].x == r.left
    requires 0 <= t < 6 && pts[t].y == r.top
    requires 0 <= rt < 6 && pts[rt].x == r.right
    requires 0 <= bt < 6 && pts[bt].y == r.bottom
    ensures PathBounds(pts) == r
  {
    var b := PathBounds(pts);
    var l' :| 0 <= l' < 6 && pts[l'].x == b.left;
    var t' :| 0 <= t' < 6 && pts[t'].y == b.top;
    var rt' :| 0 <= rt' < 6 && pts[rt'].x == b.right;
    var bt' :| 0 <= bt' < 6 && pts[bt'].y == b.bottom;
    assert Inside(b, pts[l]) && Inside(b, pts[t]) && Inside(b, pts[rt]) && Inside(b, pts[bt]);
    assert Inside(r, pts[l']) && Inside(r, pts[t']) && Inside(r, pts[rt']) && Inside(r, pts[bt']);
  }

  /** The bounds of each tube, by offset: corner tubes stand upright (4 wide, 14 tall),
      centre tubes lie flat (14 wide, 4 tall). */
  const SegmentBoundTable: seq<Rect> := [
    Rect(-10, -15, -6, -1),
    Rect(-10, 1, -6, 15),
    Rect(-7, -18, 7, -14),
    Rect(-7, -2, 7, 2),
    Rect(-7, 14, 7, 18),
    Rect(6, -15, 10, -1),
    Rect(6, 1, 10, 15)
  ]

  /** The bounds of each row of Layout are the matching row of SegmentBoundTable. */
  lemma LayoutBounds(offset: int)
    requires 0 <= offset <= 6
    ensures PathBounds(Layout[offset]) == SegmentBoundTable[offset]
    ensures !IsEmpty(SegmentBoundTable[offset])
  {
    var r := SegmentBoundTable[offset];
    match offset
    case 0 => HexagonBounds(Layout[0], r, 4, 0, 1, 3);
    case 1 => HexagonBounds(Layout[1], r, 4, 0, 1, 3);
    case 2 => HexagonBounds(Layout[2], r, 0, 1, 3, 4);
    case 3 => HexagonBounds(Layout[3], r, 0, 1, 3, 4);
    case 4 => HexagonBounds(Layout[4], r, 0, 1, 3, 4);
    case 5 => HexagonBounds(Layout[5], r, 4, 0, 1, 3);
    case 6 => HexagonBounds(Layout[6], r, 4, 0, 1, 3);
  }

  /** Each tube's bounds are the row of SegmentBoundTable for its offset; none is empty. */
  lemma SegmentBounds(offset: int)
    requires 0 <= offset <= 6
    ensures PathBounds(SegmentPath(offset)) == SegmentBoundTable[offset]
    ensures !IsEmpty(SegmentBoundTable[offset])
  {
    SegmentPathLayout(offset);
    LayoutBounds(offset);
  }

  /** The union of all seven tube bounds: 20 wide and 36 tall, centred on the origin. */
  const DigitBound := Rect(-10, -18, 10, 18)

  /** The bound that init accumulates, the union of the seven tube bounds in offset order,
      is DigitBound. */
  lemma DigitBoundIsUnion()
    ensures UnionAll(SegmentBoundTable) == DigitBound
  {
    var t := SegmentBoundTable;
    assert UnionAll(t[..1]) == t[0];
    assert t[..2][..1] == t[..1];
    assert UnionAll(t[..2]) == Rect(-10, -15, -6, 15);
    assert t[..3][..2] == t[..2];
    assert UnionAll(t[..3]) == Rect(-10, -18, 7, 15);
    assert t[..4][..3] == t[..3];
    assert UnionAll(t[..4]) == Rect(-10, -18, 7, 15);
    assert t[..5][..4] == t[..4];
    assert UnionAll(t[..5]) == Rect(-10, -18, 7, 18);
    assert t[..6][..5] == t[..5];
    assert UnionAll(t[..6]) == Rect(-10, -18, 10, 18);
    assert t[..6] == t[..|t| - 1];
  }

  /** One light tube. The constructor builds the base path into path (using matrix for the
      quarter turn), then replaces path with the placed copy. */
  class Segment {
    var path: seq<Point>
    var matrix: Matrix

    constructor (offset: int)
      ensures path == SegmentPath(offset)
      ensures matrix == PlacementMatrix(PlacementOf(offset))
    {
      matrix := Translate(0, 0);
      path := [];
      new;
      InitBase();
      var p := PlacementOf(offset);
      var placed := TranslatePath(p.dx, p.dy, p.degrees);
      assert matrix == PlacementMatrix(p);
      path := placed;
    }

    /** Segment.segments(): the seven segments, the i-th built from offset i. */
    static method Segments() returns (segs: seq<Segment>)
      ensures |segs| == 7
      ensures forall i :: 0 <= i < 7 ==> segs[i].path == SegmentPath(i)
      ensures forall i :: 0 <= i < 7 ==> segs[i].path == Layout[i]
    {
      segs := [];
      for i := 0 to 7
        invariant |segs| == i
        invariant forall j :: 0 <= j < i ==> segs[j].path == Layout[j]
      {
        var segment := Tube(i);
        ghost var prev := segs;
        segs := segs + [segment];
        forall j | 0 <= j < i + 1
          ensures segs[j].path == Layout[j]
        {
          if j < i { assert segs[j] == prev[j]; }
        }
      }
      LayoutIsSegmentPath();
    }

    /** One pass of segments()'s loop: the segment built from offset i, whose path is the
        i-th row of Layout. */
    static method Tube(i: int) returns (segment: Segment)
      requires 0 <= i <= 6
      ensures segment.path == Layout[i]
    {
      segment := new Segment(i);
      SegmentPathLayout(i);
    }

    /** initBase: lists the base outline and hands it to makeBasePath. */
    method InitBase()
      modifies this
      ensures path == BasePath()
      ensures matrix == Rotate(90)
    {
      var points := BaseOutline();
      MakeBasePath(points);
    }

    /** makeBasePath: an empty point list changes nothing; otherwise the points are joined
        into a closed polygon, matrix is set to a quarter turn, and path receives the
        turned polygon. */
    method MakeBasePath(points: seq<Point>)
      modifies this
      ensures |points| == 0 ==> path == old(path) && matrix == old(matrix)
      ensures |points| > 0 ==> matrix == Rotate(90) && path == TransformPath(Rotate(90), points)
    {
      if |points| == 0 {
        return;
      }
      var outline := [points[0]];
      for i := 1 to |points|
        invariant outline == points[..i]
      {
        outline := outline + [points[i]];
      }
      assert outline == points;
      matrix := Rotate(90);
      path := TransformPath(matrix, outline);
    }

    /** translatePath: resets matrix to the translation by (translateX, -translateY), then
        pre-multiplies the rotation, and returns the current path put through it. The path
        field itself is not changed. */
    method TranslatePath(translateX: int, translateY: int, rotate: int) returns (placed: seq<Point>)
      requires IsQuarterTurn(rotate)
      modifies this`matrix
      ensures matrix == Concat(Translate(translateX, -translateY), Rotate(rotate))
      ensures placed == TransformPath(matrix, path)
      ensures forall k :: 0 <= k < |path| ==>
        placed[k] == Apply(Translate(translateX, -translateY), Apply(Rotate(rotate), path[k]))
    {
      matrix := Translate(translateX, -translateY);
      matrix := Concat(matrix, Rotate(rotate));
      placed := TransformPath(matrix, path);
      forall k | 0 <= k < |path|
        ensures placed[k] == Apply(Translate(translateX, -translateY), Apply(Rotate(rotate), path[k]))
      {
        ConcatApply(Translate(translateX, -translateY), Rotate(rotate), path[k]);
      }
    }
  }
}
