/** SevenSegmentDigitView: one two-digit display. It holds the value shown, its tens and
    ones digits, the lit and unlit colours, the seven shared tubes and their union bound. */
module DigitViews {
  import opened Geometry
  import opened Digits
  import opened SegmentGeometry

  /** Color.WHITE and Color.GRAY as the signed 32-bit ints Android uses for colours. */
  const DefaultOn := -1
  const DefaultOff := -7829368
  /** Pixels between the two digits. */
  const DefaultInset := 10

  /** The values setDigit accepts. */
  predicate InDisplayRange(d: int)
  {
    0 <= d <= 99
  }

  /** The tens and ones digits of a displayable value. The pair is a decimal digit pair
      that recomposes to the value. */
  function SplitDigits(d: int): (r: (int, int))
    requires InDisplayRange(d)
    ensures 0 <= r.0 <= 9 && 0 <= r.1 <= 9
    ensures r.0 * 10 + r.1 == d
  {
    (d / 10, d % 10)
  }

  /** The split is the only decimal digit pair for the value: composing two digits and
      splitting again gives the two digits back. */
  lemma SplitCompose(tens: int, ones: int)
    requires 0 <= tens <= 9 && 0 <= ones <= 9
    ensures InDisplayRange(tens * 10 + ones)
    ensures SplitDigits(tens * 10 + ones) == (tens, ones)
  {
  }

  /** The bounds of each path, in order. */
  function AllBounds(paths: seq<seq<Point>>): (rs: seq<Rect>)
    ensures |rs| == |paths|
    ensures forall i :: 0 <= i < |paths| ==> rs[i] == PathBounds(paths[i])
  {
    seq(|paths|, i requires 0 <= i < |paths| => PathBounds(paths[i]))
  }

  /** One more step of the fold: the union of a longer prefix is the union of the shorter
      prefix with the next rectangle. */
  lemma UnionAllStep(rs: seq<Rect>, i: nat)
    requires 0 < i < |rs|
    ensures UnionAll(rs[..i + 1]) == Union(UnionAll(rs[..i]), rs[i])
  {
    assert rs[..i + 1][..i] == rs[..i];
  }

  /** init's bound computation: the first path's bounds, then the union with each further
      path's bounds in turn. */
  method UnionBounds(paths: seq<seq<Point>>) returns (bound: Rect)
    requires |paths| > 0
    ensures bound == UnionAll(AllBounds(paths))
  {
    ghost var rs := AllBounds(paths);
    bound := PathBounds(paths[0]);
    for i := 1 to |paths|
      invariant bound == UnionAll(rs[..i])
    {
      var single := PathBounds(paths[i]);
      UnionAllStep(rs, i);
      bound := Union(bound, single);
    }
    assert rs[..|paths|] == rs;
  }

  /** The union bound of the seven built segments is DigitBound. */
  lemma BuiltSegmentsBound(paths: seq<seq<Point>>)
    requires |paths| == 7
    requires forall i :: 0 <= i < 7 ==> paths[i] == Layout[i]
    ensures UnionAll(AllBounds(paths)) == DigitBound
  {
    var rs := AllBounds(paths);
    forall i | 0 <= i < 7
      ensures rs[i] == SegmentBoundTable[i]
    {
      LayoutBounds(i);
    }
    assert rs == SegmentBoundTable;
    DigitBoundIsUnion();
  }

  /** The view's bound holds every vertex of every segment, and each of its edges is
      reached by some segment: it is the exact bounding box of the digit. */
  lemma DigitBoundCoversSegments()
    ensures forall i, k :: 0 <= i < 7 && 0 <= k < |SegmentPath(i)| ==> Inside(DigitBound, SegmentPath(i)[k])
    ensures forall i :: 0 <= i < 7 ==> Covers(DigitBound, PathBounds(SegmentPath(i)))
    ensures exists i :: 0 <= i < 7 && DigitBound.left == PathBounds(SegmentPath(i)).left
    ensures exists i :: 0 <= i < 7 && DigitBound.top == PathBounds(SegmentPath(i)).top
    ensures exists i :: 0 <= i < 7 && DigitBound.right == PathBounds(SegmentPath(i)).right
    ensures exists i :: 0 <= i < 7 && DigitBound.bottom == PathBounds(SegmentPath(i)).bottom
  {
    var rs := SegmentBoundTable;
    forall i | 0 <= i < 7
      ensures PathBounds(SegmentPath(i)) == rs[i] && !IsEmpty(rs[i])
    {
      SegmentBounds(i);
    }
    UnionAllNonEmpty(rs);
    DigitBoundIsUnion();
    forall i, k | 0 <= i < 7 && 0 <= k < |SegmentPath(i)|
      ensures Inside(DigitBound, SegmentPath(i)[k])
    {
      assert Inside(rs[i], SegmentPath(i)[k]);
    }
  }

  /** The bound init computes for the seven built segments: the union of their path
      bounds, which is DigitBound. */
  method SegmentsBound(segs: seq<Segment>) returns (bound: Rect)
    requires |segs| == 7
    requires forall i :: 0 <= i < 7 ==> segs[i].path == Layout[i]
    ensures bound == DigitBound
  {
    var paths := seq(|segs|, i requires 0 <= i < |segs| reads segs => segs[i].path);
    bound := UnionBounds(paths);
    BuiltSegmentsBound(paths);
  }

  class DigitView {
    /** The value last accepted by setDigit, -1 before the first one. */
    var digit: int
    /** The tens digit drawn on the left. */
    var left: int
    /** The ones digit drawn on the right. */
    var right: int
    var on: int
    var off: int
    var inset: int
    var segments: seq<Segment>
    var bound: Rect

    /** The view's invariant: the seven built segments (Layout lists their paths, see
        SegmentPathLayout) and their bound, and a digit pair
        that is either the split of the value shown or 00 before any value was set. */
    ghost predicate Valid()
      reads this, set s | s in segments
    {
      && |segments| == 7
      && (forall i :: 0 <= i < 7 ==> segments[i].path == Layout[i])
      && bound == DigitBound
      && (InDisplayRange(digit) ==> (left, right) == SplitDigits(digit))
      && (!InDisplayRange(digit) ==> digit == -1 && left == 0 && right == 0)
    }

    /** init: default colours and inset, digit -1 (left and right keep their default 0),
        the seven segments, and the union of their bounds. */
    constructor ()
      ensures Valid()
      ensures digit == -1 && left == 0 && right == 0
      ensures on == DefaultOn && off == DefaultOff && inset == DefaultInset
    {
      left, right := 0, 0;
      on := DefaultOn;
      off := DefaultOff;
      digit := -1;
      inset := DefaultInset;
      var segs := Segment.Segments();
      var united := SegmentsBound(segs);
      segments := segs;
      bound := united;
    }

    /** setDigit: a value outside 0..99 is rejected (the source throws
        IllegalArgumentException) and nothing changes; otherwise the value is stored and
        split into its tens and ones digits by three cases. */
    method SetDigit(d: int) returns (ok: bool)
      requires Valid()
      modifies this`digit, this`left, this`right
      ensures Valid()
      ensures ok <==> InDisplayRange(d)
      ensures ok ==> digit == d && left == d / 10 && right == d % 10
      ensures !ok ==> digit == old(digit) && left == old(left) && right == old(right)
    {
      if d > 99 || d < 0 {
        return false;
      }
      digit := d;
      if digit >= 10 {
        left := digit / 10;
        right := digit % 10;
      } else if digit > 0 {
        left := 0;
        right := digit;
      } else {
        left := 0;
        right := 0;
      }
      ok := true;
    }

    /** setOnRes: the lit colour. */
    method SetOnRes(color: int)
      requires Valid()
      modifies this`on
      ensures Valid()
      ensures on == color
    {
      on := color;
    }

    /** setOffRes: the unlit colour. */
    method SetOffRes(color: int)
      requires Valid()
      modifies this`off
      ensures Valid()
      ensures off == color
    {
      off := color;
    }

    /** drawSegment's fill colours: segment by segment, the lit colour when the glyph of
        value has that segment lit and the unlit colour otherwise. */
    method DrawSegment(value: int) returns (fills: seq<int>)
      ensures |fills| == |segments|
      ensures forall i :: 0 <= i < |fills| ==> fills[i] == (if Lit(value, i) then on else off)
      ensures forall i :: 0 <= i < |fills| && on != off ==>
        (fills[i] == on <==> 0 <= value <= 9 && i < SegmentCount && Table[value][i])
    {
      fills := [];
      for i := 0 to |segments|
        invariant |fills| == i
        invariant forall j :: 0 <= j < i ==> fills[j] == (if Lit(value, j) then on else off)
      {
        fills := fills + [if Lit(value, i) then on else off];
      }
      forall i | 0 <= i < |fills|
        ensures on != off ==> (fills[i] == on <==> 0 <= value <= 9 && i < SegmentCount && Table[value][i])
      {
        LitMatchesTable(value, i);
      }
    }

    /** onDraw's colour choices: the tens digit on the left, then the ones digit. */
    method Draw() returns (tensFills: seq<int>, onesFills: seq<int>)
      requires Valid()
      ensures |tensFills| == 7 && |onesFills| == 7
      ensures forall i :: 0 <= i < 7 ==> tensFills[i] == (if Lit(left, i) then on else off)
      ensures forall i :: 0 <= i < 7 ==> onesFills[i] == (if Lit(right, i) then on else off)
    {
      tensFills := DrawSegment(left);
      onesFills := DrawSegment(right);
    }
  }
}
