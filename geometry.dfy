/** Integer models of the three android.graphics primitives the segment engine uses:
    points, matrices made of quarter-turn rotations and translations,
    and axis-aligned rectangles with RectF's union rule. Every coordinate the engine
    produces is an integer, so nothing here needs floating point. */
module Geometry {

  /** A point of the drawing plane (android.graphics.Point). */
  datatype Point = Point(x: int, y: int)

  /** A quarter-turn count: the rotation by 90 * q degrees of Matrix.setRotate, that is
      (x, y) to (-y, x) per turn. With y growing downward, as on an Android canvas, each
      turn is clockwise on screen. */
  type Quarter = q: int | 0 <= q < 4

  /** The transforms android.graphics.Matrix holds in this program: a rotation by a whole
      number of quarter turns about the origin, followed by a translation. Every matrix the
      segment engine builds (setRotate(90), setTranslate, preRotate(0 or 90)) has this form,
      and its entries are then exactly 0, 1 or -1, so integers represent it without loss. */
  datatype Matrix = Matrix(quarter: Quarter, transX: int, transY: int)

  /** p turned by q quarter turns about the origin. */
  function Turn(q: Quarter, p: Point): Point
  {
    match q
    case 0 => p
    case 1 => Point(-p.y, p.x)
    case 2 => Point(-p.x, -p.y)
    case 3 => Point(p.y, -p.x)
  }

  function Apply(m: Matrix, p: Point): Point
  {
    var t := Turn(m.quarter, p);
    Point(t.x + m.transX, t.y + m.transY)
  }

  /** Matrix.setTranslate(dx, dy): a pure translation. */
  function Translate(dx: int, dy: int): (m: Matrix)
    ensures m.quarter == 0
  {
    Matrix(0, dx, dy)
  }

  /** The rotations the segment engine performs: none, or quarter turns. */
  predicate IsQuarterTurn(degrees: int)
  {
    degrees == 0 || degrees == 90 || degrees == 180 || degrees == 270
  }

  /** Matrix.setRotate(degrees) about the origin, for a whole number of quarter turns. */
  function Rotate(degrees: int): (m: Matrix)
    requires IsQuarterTurn(degrees)
    ensures m.transX == 0 && m.transY == 0 && 90 * m.quarter == degrees
  {
    Matrix(degrees / 90, 0, 0)
  }

  /** No rotation leaves a point where it is; a quarter turn sends (x, y) to (-y, x). */
  lemma RotateQuarters(degrees: int, p: Point)
    requires IsQuarterTurn(degrees)
    ensures degrees == 0 ==> Apply(Rotate(degrees), p) == p
    ensures degrees == 90 ==> Apply(Rotate(degrees), p) == Point(-p.y, p.x)
    ensures degrees == 180 ==> Apply(Rotate(degrees), p) == Point(-p.x, -p.y)
    ensures degrees == 270 ==> Apply(Rotate(degrees), p) == Point(p.y, -p.x)
  {
  }

  /** q + r quarter turns, reduced to one turn cycle. */
  function AddQuarters(q: Quarter, r: Quarter): Quarter
  {
    if q + r >= 4 then q + r - 4 else q + r
  }

  /** Turning by r and then by q is turning by q + r quarter turns. */
  lemma TurnTwice(q: Quarter, r: Quarter, p: Point)
    ensures Turn(q, Turn(r, p)) == Turn(AddQuarters(q, r), p)
  {
  }

  /** A turn moves a translated point by the turned translation. */
  lemma TurnShift(q: Quarter, p: Point, dx: int, dy: int)
    ensures var s := Turn(q, Point(dx, dy)); var t := Turn(q, p);
      Turn(q, Point(p.x + dx, p.y + dy)) == Point(t.x + s.x, t.y + s.y)
  {
  }

  /** The matrix that changes nothing (a fresh android.graphics.Matrix). */
  const Identity := Matrix(0, 0, 0)

  /** The product a * b: the transform that applies b first and then a.
      Matrix.preRotate(r) on m leaves Concat(m, Rotate(r)). */
  function Concat(a: Matrix, b: Matrix): (m: Matrix)
    ensures b == Identity ==> m == a
    ensures a == Identity ==> m == b
  {
    var t := Turn(a.quarter, Point(b.transX, b.transY));
    Matrix(AddQuarters(a.quarter, b.quarter), t.x + a.transX, t.y + a.transY)
  }

  /** Concat is composition: the product applied to p is b applied first, then a. */
  lemma ConcatApply(a: Matrix, b: Matrix, p: Point)
    ensures Apply(Concat(a, b), p) == Apply(a, Apply(b, p))
  {
    TurnTwice(a.quarter, b.quarter, p);
    TurnShift(a.quarter, Turn(b.quarter, p), b.transX, b.transY);
  }

  /** Path.transform(m, dst): every vertex of a polygon mapped through m, order kept. */
  function TransformPath(m: Matrix, pts: seq<Point>): (r: seq<Point>)
    ensures |r| == |pts|
    ensures m == Identity ==> r == pts
  {
    seq(|pts|, i requires 0 <= i < |pts| => Apply(m, pts[i]))
  }

  lemma TransformPathConcat(a: Matrix, b: Matrix, pts: seq<Point>)
    ensures TransformPath(Concat(a, b), pts) == TransformPath(a, TransformPath(b, pts))
  {
    forall k | 0 <= k < |pts|
      ensures TransformPath(Concat(a, b), pts)[k] == TransformPath(a, TransformPath(b, pts))[k]
    {
      ConcatApply(a, b, pts[k]);
    }
  }

  /** An axis-aligned rectangle (android.graphics.RectF); top is the smaller y. */
  datatype Rect = Rect(left: int, top: int, right: int, bottom: int)

  /** RectF treats a rectangle as empty unless it has positive width and height. */
  predicate IsEmpty(r: Rect)
  {
    !(r.left < r.right && r.top < r.bottom)
  }

  predicate Inside(r: Rect, p: Point)
  {
    r.left <= p.x <= r.right && r.top <= p.y <= r.bottom
  }

  /** r covers every corner of s. */
  predicate Covers(r: Rect, s: Rect)
  {
    r.left <= s.left && r.top <= s.top && s.right <= r.right && s.bottom <= r.bottom
  }

  function Min(a: int, b: int): int { if a <= b then a else b }
  function Max(a: int, b: int): int { if a <= b then b else a }

  /** RectF.union(other): an empty other changes nothing, an empty receiver is replaced
      by other, and otherwise each edge moves outward to the farther of the two. */
  function Union(r: Rect, other: Rect): (u: Rect)
    ensures IsEmpty(other) ==> u == r
    ensures !IsEmpty(other) && IsEmpty(r) ==> u == other
    ensures !IsEmpty(other) && !IsEmpty(r) ==> !IsEmpty(u) && Covers(u, r) && Covers(u, other)
    ensures !IsEmpty(other) && !IsEmpty(r) ==>
      (u.left == r.left || u.left == other.left) && (u.top == r.top || u.top == other.top) &&
      (u.right == r.right || u.right == other.right) && (u.bottom == r.bottom || u.bottom == other.bottom)
  {
    if IsEmpty(other) then r
    else if IsEmpty(r) then other
    else Rect(Min(r.left, other.left), Min(r.top, other.top), Max(r.right, other.right), Max(r.bottom, other.bottom))
  }

  /** r moved outward just enough to hold p. */
  function Grow(r: Rect, p: Point): Rect
  {
    Rect(Min(r.left, p.x), Min(r.top, p.y), Max(r.right, p.x), Max(r.bottom, p.y))
  }

  /** The smallest rectangle holding every vertex of a non-empty polygon. */
  function VertexBounds(pts: seq<Point>): (r: Rect)
    requires |pts| > 0
    ensures forall k :: 0 <= k < |pts| ==> Inside(r, pts[k])
    ensures (exists k :: 0 <= k < |pts| && pts[k].x == r.left) &&
      (exists k :: 0 <= k < |pts| && pts[k].y == r.top) &&
      (exists k :: 0 <= k < |pts| && pts[k].x == r.right) &&
      (exists k :: 0 <= k < |pts| && pts[k].y == r.bottom)
    decreases |pts|
  {
    if |pts| == 1 then Rect(pts[0].x, pts[0].y, pts[0].x, pts[0].y)
    else Grow(VertexBounds(pts[..|pts| - 1]), pts[|pts| - 1])
  }

  /** Path.computeBounds(bounds, true) of a polygon: the smallest rectangle holding every
      vertex (for a path of straight lines the control points are the vertices); a path of
      no point or a single point yields the empty rectangle at the origin. */
  function PathBounds(pts: seq<Point>): (r: Rect)
    ensures |pts| <= 1 ==> r == Rect(0, 0, 0, 0)
    ensures |pts| > 1 ==> forall k :: 0 <= k < |pts| ==> Inside(r, pts[k])
    ensures |pts| > 1 ==>
      (exists k :: 0 <= k < |pts| && pts[k].x == r.left) &&
      (exists k :: 0 <= k < |pts| && pts[k].y == r.top) &&
      (exists k :: 0 <= k < |pts| && pts[k].x == r.right) &&
      (exists k :: 0 <= k < |pts| && pts[k].y == r.bottom)
  {
    if |pts| <= 1 then Rect(0, 0, 0, 0) else VertexBounds(pts)
  }

  /** The rectangles folded together with Union from the first one onward. */
  function UnionAll(rs: seq<Rect>): Rect
    requires |rs| > 0
    decreases |rs|
  {
    if |rs| == 1 then rs[0] else Union(UnionAll(rs[..|rs| - 1]), rs[|rs| - 1])
  }

  /** When no rectangle is empty, their union is one rectangle covering all of them
      whose every edge is the edge of one of them: the exact bounding box. */
  lemma {:induction false} UnionAllNonEmpty(rs: seq<Rect>)
    requires |rs| > 0
    requires forall k :: 0 <= k < |rs| ==> !IsEmpty(rs[k])
    ensures !IsEmpty(UnionAll(rs))
    ensures forall k :: 0 <= k < |rs| ==> Covers(UnionAll(rs), rs[k])
    ensures exists k :: 0 <= k < |rs| && UnionAll(rs).left == rs[k].left
    ensures exists k :: 0 <= k < |rs| && UnionAll(rs).top == rs[k].top
    ensures exists k :: 0 <= k < |rs| && UnionAll(rs).right == rs[k].right
    ensures exists k :: 0 <= k < |rs| && UnionAll(rs).bottom == rs[k].bottom
  {
    if |rs| > 1 {
      var init := rs[..|rs| - 1];
      UnionAllNonEmpty(init);
      var u := UnionAll(init);
      var l :| 0 <= l < |init| && u.left == init[l].left;
      var t :| 0 <= t < |init| && u.top == init[t].top;
      var r :| 0 <= r < |init| && u.right == init[r].right;
      var b :| 0 <= b < |init| && u.bottom == init[b].bottom;
      var n := |rs| - 1;
      assert rs[l] == init[l] && rs[t] == init[t] && rs[r] == init[r] && rs[b] == init[b];
      forall k | 0 <= k < |rs|
        ensures Covers(UnionAll(rs), rs[k])
      {
        if k < n { assert rs[k] == init[k]; }
      }
    }
  }
}
