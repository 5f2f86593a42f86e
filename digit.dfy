/** The glyph table of SevenSegmentDigitView.Digit: for each digit value, which of the
    seven segments LT, LB, CT, CC, CB, RT, RB (indices 0..6) is lit. */
module Digits {

  const SegmentCount := 7
  const ON := true
  const OFF := false

  /** One glyph: the lit state of each segment, by segment index. */
  datatype Digit = Digit(segments: seq<bool>)

  /** What the varargs constructor stores for its arguments: at most the first seven,
      and OFF for every segment no argument was given for. */
  function Padded(isOns: seq<bool>): (r: seq<bool>)
    ensures |r| == SegmentCount
    ensures forall i :: 0 <= i < |isOns| && i < SegmentCount ==> r[i] == isOns[i]
    ensures forall i :: |isOns| <= i < SegmentCount ==> r[i] == OFF
  {
    if |isOns| >= SegmentCount then isOns[..SegmentCount]
    else isOns + seq(SegmentCount - |isOns|, _ => OFF)
  }

  /** The constructor Digit(boolean... isOns): it fills a fresh boolean[7] by copying the
      first min(n, 7) arguments and then writing OFF into the rest. */
  method NewSegments(isOns: seq<bool>) returns (segments: array<bool>)
    ensures fresh(segments)
    ensures segments.Length == SegmentCount
    ensures forall i :: 0 <= i < SegmentCount ==> segments[i] == (i < |isOns| && isOns[i])
    ensures segments[..] == Padded(isOns)
  {
    var size := if |isOns| > SegmentCount then SegmentCount else |isOns|;
    segments := new bool[SegmentCount];
    for i := 0 to size
      invariant forall j :: 0 <= j < i ==> segments[j] == isOns[j]
    {
      segments[i] := isOns[i];
    }
    if size < SegmentCount {
      for i := size to SegmentCount
        invariant forall j :: 0 <= j < size ==> segments[j] == isOns[j]
        invariant forall j :: size <= j < i ==> segments[j] == OFF
      {
        segments[i] := OFF;
      }
    }
  }

  /** The argument lists of the shared glyphs, exactly as the constructor receives them;
      the list for TWO has only six entries, so its RB segment is OFF by padding. */
  const ZeroArgs := [ON, ON, ON, OFF, ON, ON, ON]
  const OneArgs := [OFF, OFF, OFF, OFF, OFF, ON, ON]
  const TwoArgs := [OFF, ON, ON, ON, ON, ON]
  const ThreeArgs := [OFF, OFF, ON, ON, ON, ON, ON]
  const FourArgs := [ON, OFF, OFF, ON, OFF, ON, ON]
  const FiveArgs := [ON, OFF, ON, ON, ON, OFF, ON]
  const SixArgs := [ON, ON, ON, ON, ON, OFF, ON]
  const SevenArgs := [OFF, OFF, ON, OFF, OFF, ON, ON]
  const EightArgs := [ON, ON, ON, ON, ON, ON, ON]
  const NineArgs := [ON, OFF, ON, ON, ON, ON, ON]

  /** DEFAULT is built with no arguments at all. */
  const Default := Digit(Padded([]))
  const Zero := Digit(Padded(ZeroArgs))
  const One := Digit(Padded(OneArgs))
  const Two := Digit(Padded(TwoArgs))
  const Three := Digit(Padded(ThreeArgs))
  const Four := Digit(Padded(FourArgs))
  const Five := Digit(Padded(FiveArgs))
  const Six := Digit(Padded(SixArgs))
  const Seven := Digit(Padded(SevenArgs))
  const Eight := Digit(Padded(EightArgs))
  const Nine := Digit(Padded(NineArgs))

  /** Digit.toDigit(value): the shared glyph of a value 0..9, DEFAULT for any other value. */
  function ToDigit(value: int): (d: Digit)
    ensures |d.segments| == SegmentCount
    ensures !(0 <= value <= 9) ==> d == Default
  {
    match value
    case 0 => Zero
    case 1 => One
    case 2 => Two
    case 3 => Three
    case 4 => Four
    case 5 => Five
    case 6 => Six
    case 7 => Seven
    case 8 => Eight
    case 9 => Nine
    case _ => Default
  }

  /** Digit.value(i): the state of segment i, and false for an index the glyph does not have. */
  function Value(d: Digit, i: int): (lit: bool)
    ensures lit ==> 0 <= i < |d.segments|
    ensures 0 <= i < |d.segments| ==> lit == d.segments[i]
  {
    if |d.segments| <= i || i < 0 then false else d.segments[i]
  }

  /** The glyph table written out in the documentation of Digit, one row per digit
      value, columns LT, LB, CT, CC, CB, RT, RB. */
  const Table: seq<seq<bool>> := [
    [ON,  ON,  ON,  OFF, ON,  ON,  ON ],
    [OFF, OFF, OFF, OFF, OFF, ON,  ON ],
    [OFF, ON,  ON,  ON,  ON,  ON,  OFF],
    [OFF, OFF, ON,  ON,  ON,  ON,  ON ],
    [ON,  OFF, OFF, ON,  OFF, ON,  ON ],
    [ON,  OFF, ON,  ON,  ON,  OFF, ON ],
    [ON,  ON,  ON,  ON,  ON,  OFF, ON ],
    [OFF, OFF, ON,  OFF, OFF, ON,  ON ],
    [ON,  ON,  ON,  ON,  ON,  ON,  ON ],
    [ON,  OFF, ON,  ON,  ON,  ON,  ON ]
  ]

  /** The documented "all off" default row. */
  const BlankRow: seq<bool> := [OFF, OFF, OFF, OFF, OFF, OFF, OFF]

  /** toDigit reproduces the documented table row for row, and every other value gives
      the all-off glyph. */
  lemma ToDigitMatchesTable(value: int)
    ensures 0 <= value <= 9 ==> ToDigit(value).segments == Table[value]
    ensures !(0 <= value <= 9) ==> ToDigit(value).segments == BlankRow
  {
    if 0 <= value <= 9 {
      match value
      case 0 => assert ToDigit(0).segments == Table[0];
      case 1 => assert ToDigit(1).segments == Table[1];
      case 2 => assert ToDigit(2).segments == Table[2];
      case 3 => assert ToDigit(3).segments == Table[3];
      case 4 => assert ToDigit(4).segments == Table[4];
      case 5 => assert ToDigit(5).segments == Table[5];
      case 6 => assert ToDigit(6).segments == Table[6];
      case 7 => assert ToDigit(7).segments == Table[7];
      case 8 => assert ToDigit(8).segments == Table[8];
      case 9 => assert ToDigit(9).segments == Table[9];
    } else {
      assert Default.segments == BlankRow;
    }
  }

  /** The two glyphs that differ from a lazily typed table: 9 has LB off, and 2 has RB off
      only because its argument list stops after six entries. */
  lemma AsymmetricGlyphs()
    ensures !ToDigit(9).segments[1]
    ensures |TwoArgs| == 6 && !ToDigit(2).segments[6]
  {
    ToDigitMatchesTable(9);
    ToDigitMatchesTable(2);
  }

  /** The lit test drawSegment makes for segment i of digit: Digit.toDigit(digit).value(i). */
  function Lit(digit: int, i: int): (lit: bool)
    ensures lit ==> 0 <= digit <= 9 && 0 <= i < SegmentCount
  {
    Value(ToDigit(digit), i)
  }

  /** The lit test in both directions: a segment is lit exactly when the digit is in 0..9,
      the index in 0..6, and the documented table says ON. */
  lemma LitMatchesTable(digit: int, i: int)
    ensures Lit(digit, i) <==> 0 <= digit <= 9 && 0 <= i < SegmentCount && Table[digit][i]
  {
    ToDigitMatchesTable(digit);
  }
}
