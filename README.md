# SevenSegmentTimer core in Dafny

SevenSegmentTimer is an Android countdown clock drawn in seven-segment style. It has two
parts, and this project models both:

- **SevenSegmentDigitView** shows a value 0..99 as two digits.
  - Its `Digit` table says which of the seven tubes (LT, LB, CT, CC, CB, RT, RB) each
    digit lights.
  - `setDigit` splits the value into tens and ones digits.
  - Its `Segment` class builds each tube: a hexagon made from integer vertices, turned by
    a quarter turn and moved into place.
  - `init` takes the union of the seven tube bounds.
  - `drawSegment` paints each tube in the lit or the unlit colour.
- **CountDownDigitTimer** keeps a target time and live hour, minute and second counters.
  - A repeating runnable, `mTask`, runs once a second. On each run it sets the visibility
    of the hour and minute groups from two flags, decrements the counters, and reports
    completion.
  - `divideTime` turns milliseconds into hours, minutes and seconds.
  - The `setCountDownTime` overloads store a clamped target.

Files:

- `geometry.dfy` (module `Geometry`) models the three android.graphics pieces the engine
  uses, all on integers:
  - points;
  - matrices made of a quarter-turn rotation plus a translation;
  - `RectF` with its union and emptiness rules.

  `setRotate(90)` sends `(x, y)` to `(-y, x)`. A product of matrices applies its right
  factor first, so `preRotate` rotates before the existing translation.
- `digit.dfy` (module `Digits`) models the glyph table, the varargs constructor (two loops
  over an array), `toDigit` and `value`.
- `segment.dfy` (module `SegmentGeometry`) models the `Segment` class and its construction
  steps. It also gives the seven finished tube outlines vertex by vertex (`Layout`), their
  bounds, and their union `DigitBound = Rect(-10, -18, 10, 18)`.
- `digit_view.dfy` (module `DigitViews`) models `SevenSegmentDigitView`:
  - the `setDigit` split;
  - the bound union loop of `init`;
  - the lit/unlit colour choice of `drawSegment` and `onDraw`.
- `countdown.dfy` (module `CountDown`) models `CountDownDigitTimer`:
  - `divideTime`, the setters and `startTask`'s counter copy;
  - the body of `mTask` as `Tick`;
  - the completion test, and a count of completion reports over several ticks.

Behaviours of the code a reader may not expect:

- **Completion re-fires on every tick.** Every tick that finds the counters done calls the
  callback again, because nothing remembers that it was already called. Counting down from
  0:01:30, ticks 90 and 91 both report (`CountDown.NinetyOneTicksReportTwice`).
- **Visibility depends only on the two flags**, never on whether a counter is zero. The
  field comments at `CountDownDigitTimer.java:30-33` tie the flags to the hour or the
  minute being zero, but `mTask` never reads the counters when it sets visibility.
  - The minute flag hides the hour view, the minute view and both separators.
  - Without it, the hour flag hides the hour view and the left separator.
  - With neither flag, all four are shown.
- **`divideTime` splits only past 60.** It splits off minutes only when there are more than
  60 seconds, and hours only when there are more than 60 minutes (the tests are `> 60`).
  So 60 s stays as 0:00:60 and 3600 s becomes 0:60:00.
  - It divides milliseconds by 1000 with Java's truncating division. A timestamp of
    -1000 ms or less leaves a negative second; -999..-1 ms gives 0:00:00.
  - It recomposes to the whole seconds exactly when there are fewer than 100 hours.
- **Before any `setDigit`, the view draws `00`.** The comment at
  `SevenSegmentDigitView.java:69` says every segment starts off, and the digit field
  starts at -1. But drawing reads only the tens and ones digits, which default to 0, so
  both digits show 0.

## Model

In the source column, `SevenSegmentDigitView.java` and `CountDownDigitTimer.java` both live
in `sevensegmenttimer/src/main/java/com/lynn/code/sevensegmenttimer/`.

| member | source | states |
|---|---|---|
| Geometry.Rotate | sevensegmenttimer/src/main/java/com/lynn/code/sevensegmenttimer/SevenSegmentDigitView.java:425 | a rotation by a whole number of quarter turns has no translation part and turns by `degrees / 90` quarters |
| Geometry.RotateQuarters | sevensegmenttimer/src/main/java/com/lynn/code/sevensegmenttimer/SevenSegmentDigitView.java:425 | rotating by 0, 90, 180 or 270 degrees maps `(x, y)` to `(x, y)`, `(-y, x)`, `(-x, -y)` or `(y, -x)` |
| Geometry.Translate | sevensegmenttimer/src/main/java/com/lynn/code/sevensegmenttimer/SevenSegmentDigitView.java:440 | `setTranslate` gives a matrix with no rotation part |
| Geometry.Concat | sevensegmenttimer/src/main/java/com/lynn/code/sevensegmenttimer/SevenSegmentDigitView.java:441 | the identity matrix is a unit on either side of the product |
| Geometry.ConcatApply | sevensegmenttimer/src/main/java/com/lynn/code/sevensegmenttimer/SevenSegmentDigitView.java:440-441 | the product of two matrices acts as the right one followed by the left one, which is `setTranslate` followed by `preRotate` |
| Geometry.TransformPath | sevensegmenttimer/src/main/java/com/lynn/code/sevensegmenttimer/SevenSegmentDigitView.java:443 | `transform` keeps the number of vertices, and the identity matrix leaves the path as it is |
| Geometry.TransformPathConcat | sevensegmenttimer/src/main/java/com/lynn/code/sevensegmenttimer/SevenSegmentDigitView.java:440-443 | transforming a path by a product is transforming it twice, right factor first |
| Geometry.Union | sevensegmenttimer/src/main/java/com/lynn/code/sevensegmenttimer/SevenSegmentDigitView.java:88 | an empty argument changes nothing; an empty receiver is replaced by the argument; otherwise the union is non-empty, covers both rectangles, and takes every edge from one of them |
| Geometry.PathBounds | sevensegmenttimer/src/main/java/com/lynn/code/sevensegmenttimer/SevenSegmentDigitView.java:82-86 | the bounds of a path of two or more vertices hold every vertex, and each edge is reached by some vertex (the smallest such box); a path of no point or one point gives the empty rectangle at the origin |
| Geometry.UnionAllNonEmpty | sevensegmenttimer/src/main/java/com/lynn/code/sevensegmenttimer/SevenSegmentDigitView.java:80-89 | folding non-empty rectangles with union gives a non-empty box that covers each of them and takes each edge from one of them |
| Digits.Padded | sevensegmenttimer/src/main/java/com/lynn/code/sevensegmenttimer/SevenSegmentDigitView.java:281-295 | exactly seven segments: the first min(n, 7) copied from the arguments, the rest OFF, any argument past the seventh ignored |
| Digits.NewSegments | sevensegmenttimer/src/main/java/com/lynn/code/sevensegmenttimer/SevenSegmentDigitView.java:281-295 | the two loops fill a fresh array of length 7 whose entry i is `isOns[i]` when there is one and OFF otherwise, which is `Padded(isOns)` |
| Digits.ToDigit | sevensegmenttimer/src/main/java/com/lynn/code/sevensegmenttimer/SevenSegmentDigitView.java:254-279 | every glyph has seven segments; any value outside 0..9 gives DEFAULT |
| Digits.Value | sevensegmenttimer/src/main/java/com/lynn/code/sevensegmenttimer/SevenSegmentDigitView.java:301-308 | an index outside the glyph gives false, and any other index gives that segment's state |
| Digits.ToDigitMatchesTable | sevensegmenttimer/src/main/java/com/lynn/code/sevensegmenttimer/SevenSegmentDigitView.java:219-279 | each digit 0..9 gives exactly its row of the documented table, and every other value gives the all-off row |
| Digits.AsymmetricGlyphs | sevensegmenttimer/src/main/java/com/lynn/code/sevensegmenttimer/SevenSegmentDigitView.java:243-250 | 9 has LB off; TWO is written with six arguments and its RB segment is off |
| Digits.LitMatchesTable | sevensegmenttimer/src/main/java/com/lynn/code/sevensegmenttimer/SevenSegmentDigitView.java:170 | the lit test holds exactly when the digit is 0..9, the index is 0..6 and the table says ON |
| Digits.Lit | sevensegmenttimer/src/main/java/com/lynn/code/sevensegmenttimer/SevenSegmentDigitView.java:170 | a segment is lit only for a digit 0..9 and an index 0..6 |
| SegmentGeometry.BaseOutline | sevensegmenttimer/src/main/java/com/lynn/code/sevensegmenttimer/SevenSegmentDigitView.java:390-404 | the base tube has six vertices |
| SegmentGeometry.BasePath | sevensegmenttimer/src/main/java/com/lynn/code/sevensegmenttimer/SevenSegmentDigitView.java:413-426 | the turned base path has as many vertices as the outline |
| SegmentGeometry.PlacementOf | sevensegmenttimer/src/main/java/com/lynn/code/sevensegmenttimer/SevenSegmentDigitView.java:344-374 | every placement rotates by 0 or 90 degrees |
| SegmentGeometry.PlacementMatrix | sevensegmenttimer/src/main/java/com/lynn/code/sevensegmenttimer/SevenSegmentDigitView.java:440-441 | translate-after-rotate collapses to one matrix: the placement's quarter turns, then the shift by `(dx, -dy)` |
| SegmentGeometry.SegmentPath | sevensegmenttimer/src/main/java/com/lynn/code/sevensegmenttimer/SevenSegmentDigitView.java:335-375 | every tube has as many vertices as the base outline |
| SegmentGeometry.SegmentPathComposition | sevensegmenttimer/src/main/java/com/lynn/code/sevensegmenttimer/SevenSegmentDigitView.java:425-443 | each of the six vertices of a tube is the base vertex turned by 90 degrees, then by the placement rotation, then translated by `(dx, -dy)` |
| SegmentGeometry.SegmentVertex | sevensegmenttimer/src/main/java/com/lynn/code/sevensegmenttimer/SevenSegmentDigitView.java:344-374 | on coordinates: a corner tube sends base vertex `(x, y)` to `(dx - x, -dy - y)`, and a centre tube sends it to `(dx - y, x - dy)` |
| SegmentGeometry.OutOfRangeOffsetIsLeftTop | sevensegmenttimer/src/main/java/com/lynn/code/sevensegmenttimer/SevenSegmentDigitView.java:345-349 | an offset outside 0..6 falls through to the LT tube |
| SegmentGeometry.SegmentPathLayout | sevensegmenttimer/src/main/java/com/lynn/code/sevensegmenttimer/SevenSegmentDigitView.java:324-375 | the tube for each offset 0..6 has exactly the vertices listed in `Layout`, which uses WIDTH 4, PEAK 2, HEIGHT 14 and gap 1 |
| SegmentGeometry.LayoutIsSegmentPath | sevensegmenttimer/src/main/java/com/lynn/code/sevensegmenttimer/SevenSegmentDigitView.java:378-385 | `Layout` lists all seven tubes in offset order |
| SegmentGeometry.LayoutBounds | sevensegmenttimer/src/main/java/com/lynn/code/sevensegmenttimer/SevenSegmentDigitView.java:86 | the bounds of each outline in `Layout` are its row of `SegmentBoundTable`, and none is empty |
| SegmentGeometry.SegmentBounds | sevensegmenttimer/src/main/java/com/lynn/code/sevensegmenttimer/SevenSegmentDigitView.java:82-86 | each tube's path bounds: corner tubes are 4 by 14 upright, centre tubes 14 by 4 flat, none empty |
| SegmentGeometry.DigitBoundIsUnion | sevensegmenttimer/src/main/java/com/lynn/code/sevensegmenttimer/SevenSegmentDigitView.java:80-89 | the union of the seven tube bounds in offset order is `Rect(-10, -18, 10, 18)` |
| SegmentGeometry.Segment.constructor | sevensegmenttimer/src/main/java/com/lynn/code/sevensegmenttimer/SevenSegmentDigitView.java:335-375 | the finished path is the base turned and placed per the switch; the matrix left behind is the placement's |
| SegmentGeometry.Segment.Segments | sevensegmenttimer/src/main/java/com/lynn/code/sevensegmenttimer/SevenSegmentDigitView.java:378-385 | seven segments; the i-th is the tube of offset i, with the vertices of `Layout[i]` |
| SegmentGeometry.Segment.Tube | sevensegmenttimer/src/main/java/com/lynn/code/sevensegmenttimer/SevenSegmentDigitView.java:381 | the segment built in one pass of the loop has the path `Layout[i]` |
| SegmentGeometry.Segment.InitBase | sevensegmenttimer/src/main/java/com/lynn/code/sevensegmenttimer/SevenSegmentDigitView.java:390-406 | the path becomes the base outline turned by 90 degrees, and the matrix that rotation |
| SegmentGeometry.Segment.MakeBasePath | sevensegmenttimer/src/main/java/com/lynn/code/sevensegmenttimer/SevenSegmentDigitView.java:413-427 | an empty point list changes nothing; otherwise the polygon through all the points, turned by 90 degrees, replaces the path |
| SegmentGeometry.Segment.TranslatePath | sevensegmenttimer/src/main/java/com/lynn/code/sevensegmenttimer/SevenSegmentDigitView.java:437-445 | the matrix becomes translate-after-rotate; the returned path is the current path put through it, vertex by vertex rotated and then translated by `(tx, -ty)`; the path field keeps its value |
| DigitViews.SplitDigits | sevensegmenttimer/src/main/java/com/lynn/code/sevensegmenttimer/SevenSegmentDigitView.java:188-197 | a value 0..99 splits into two digits 0..9 with `tens * 10 + ones == value` |
| DigitViews.SplitCompose | sevensegmenttimer/src/main/java/com/lynn/code/sevensegmenttimer/SevenSegmentDigitView.java:188-190 | splitting `tens * 10 + ones` gives back the two digits, so the split is the only digit pair for the value |
| DigitViews.UnionBounds | sevensegmenttimer/src/main/java/com/lynn/code/sevensegmenttimer/SevenSegmentDigitView.java:80-89 | the loop leaves the union of the path bounds, folded from the first one on |
| DigitViews.BuiltSegmentsBound | sevensegmenttimer/src/main/java/com/lynn/code/sevensegmenttimer/SevenSegmentDigitView.java:74-89 | for the seven built segments the union is `DigitBound` |
| DigitViews.DigitBoundCoversSegments | sevensegmenttimer/src/main/java/com/lynn/code/sevensegmenttimer/SevenSegmentDigitView.java:80-89 | `DigitBound` holds every vertex of every tube, covers each tube's bounds, and each of its edges is reached by some tube |
| DigitViews.SegmentsBound | sevensegmenttimer/src/main/java/com/lynn/code/sevensegmenttimer/SevenSegmentDigitView.java:80-89 | the bound computed for the seven built segments is `DigitBound` |
| DigitViews.DigitView.constructor | sevensegmenttimer/src/main/java/com/lynn/code/sevensegmenttimer/SevenSegmentDigitView.java:58-90 | white on, gray off, inset 10, digit -1 with digits 0 and 0, the seven tubes, and the bound `DigitBound` |
| DigitViews.DigitView.SetDigit | sevensegmenttimer/src/main/java/com/lynn/code/sevensegmenttimer/SevenSegmentDigitView.java:181-199 | accepted exactly for 0..99, storing the value, `value / 10` and `value % 10` by any of the three branches; a rejected value changes nothing; the view invariant is kept |
| DigitViews.DigitView.SetOnRes | sevensegmenttimer/src/main/java/com/lynn/code/sevensegmenttimer/SevenSegmentDigitView.java:204-206 | the lit colour is the one given, and the view invariant is kept |
| DigitViews.DigitView.SetOffRes | sevensegmenttimer/src/main/java/com/lynn/code/sevensegmenttimer/SevenSegmentDigitView.java:211-213 | the unlit colour is the one given, and the view invariant is kept |
| DigitViews.DigitView.DrawSegment | sevensegmenttimer/src/main/java/com/lynn/code/sevensegmenttimer/SevenSegmentDigitView.java:159-176 | one fill per segment: the lit colour exactly when `toDigit(digit).value(i)`, otherwise the unlit colour; when the colours differ, a segment is lit exactly when the table says ON for it |
| DigitViews.DigitView.Draw | sevensegmenttimer/src/main/java/com/lynn/code/sevensegmenttimer/SevenSegmentDigitView.java:135-145 | the left group is painted from the tens digit and the right group from the ones digit, seven fills each |
| CountDown.JavaDiv | sevensegmenttimer/src/main/java/com/lynn/code/sevensegmenttimer/CountDownDigitTimer.java:116 | Java division: the plain quotient for non-negative values, and the negated quotient of the magnitude for negative ones |
| CountDown.JavaDivTowardZero | sevensegmenttimer/src/main/java/com/lynn/code/sevensegmenttimer/CountDownDigitTimer.java:116 | whole seconds round toward zero, and are less than one second from the exact value |
| CountDown.ClampHour | sevensegmenttimer/src/main/java/com/lynn/code/sevensegmenttimer/CountDownDigitTimer.java:160-164 | an hour above 99 becomes 99; any other hour is kept |
| CountDown.Divide | sevensegmenttimer/src/main/java/com/lynn/code/sevensegmenttimer/CountDownDigitTimer.java:115-141 | the hour is at most 99, and up to 60 whole seconds (negative ones included) stay unsplit as 0:00:s |
| CountDown.DivideRecomposes | sevensegmenttimer/src/main/java/com/lynn/code/sevensegmenttimer/CountDownDigitTimer.java:115-141 | the split recomposes to `ms / 1000` if and only if that is under 100 hours |
| CountDown.DivideBounds | sevensegmenttimer/src/main/java/com/lynn/code/sevensegmenttimer/CountDownDigitTimer.java:115-136 | for a non-negative timestamp: hour 0..99, minute 0..60, second 0..60 |
| CountDown.DivideSixties | sevensegmenttimer/src/main/java/com/lynn/code/sevensegmenttimer/CountDownDigitTimer.java:120-130 | a second of 60 comes exactly from 60 whole seconds, and a minute of 60 exactly from 3600..3659 seconds |
| CountDown.DivideClamps | sevensegmenttimer/src/main/java/com/lynn/code/sevensegmenttimer/CountDownDigitTimer.java:132-135 | from 100 hours up the hour is 99, and minute and second are the remainders of the full split |
| CountDown.DivideNegative | sevensegmenttimer/src/main/java/com/lynn/code/sevensegmenttimer/CountDownDigitTimer.java:116-130 | a negative timestamp gives hour 0, minute 0 and its truncated whole seconds, which are not positive |
| CountDown.DivideExamples | sevensegmenttimer/src/main/java/com/lynn/code/sevensegmenttimer/CountDownDigitTimer.java:115-141 | 59999 ms gives 0:00:59; 60000 gives 0:00:60; 61000 gives 0:01:01; 3600000 gives 0:60:00; 3661000 gives 1:01:01; -500 gives 0:00:00; -1000 and -1500 give 0:00:-1 |
| CountDown.Decrement | sevensegmenttimer/src/main/java/com/lynn/code/sevensegmenttimer/CountDownDigitTimer.java:199-208 | a tick leaves the counters alone exactly when none of them is positive |
| CountDown.DecrementTakesOneSecond | sevensegmenttimer/src/main/java/com/lynn/code/sevensegmenttimer/CountDownDigitTimer.java:199-208 | from non-negative counters that are not all zero, a tick takes exactly one second off the total and keeps the counters non-negative; zero stays zero |
| CountDown.DecrementFixedPoint | sevensegmenttimer/src/main/java/com/lynn/code/sevensegmenttimer/CountDownDigitTimer.java:199-208 | for non-negative counters, a tick changes nothing if and only if they are all zero |
| CountDown.DecrementDisplayable | sevensegmenttimer/src/main/java/com/lynn/code/sevensegmenttimer/CountDownDigitTimer.java:199-219 | counters in 0..99 stay in 0..99, the range `setDigit` accepts |
| CountDown.DecrementNormalized | sevensegmenttimer/src/main/java/com/lynn/code/sevensegmenttimer/CountDownDigitTimer.java:199-208 | hour 0..99 with minute and second 0..59 stays so |
| CountDown.UncheckedSecondBreaksDisplay | sevensegmenttimer/src/main/java/com/lynn/code/sevensegmenttimer/CountDownDigitTimer.java:159-169 | a second of 150, which `setCountDownTime` accepts unchecked, posts 149 after the first tick, outside the 0..99 that `setDigit` accepts |
| CountDown.RunTotal | sevensegmenttimer/src/main/java/com/lynn/code/sevensegmenttimer/CountDownDigitTimer.java:199-208 | n ticks from non-negative counters take n seconds off while time remains, then leave zero |
| CountDown.ZeroTotal | sevensegmenttimer/src/main/java/com/lynn/code/sevensegmenttimer/CountDownDigitTimer.java:222-224 | non-negative counters stand for no time exactly when they are all zero |
| CountDown.Finished | sevensegmenttimer/src/main/java/com/lynn/code/sevensegmenttimer/CountDownDigitTimer.java:222-224 | completion needs the second at zero, and counters all at zero complete whatever the flags |
| CountDown.FinishedAfterTicks | sevensegmenttimer/src/main/java/com/lynn/code/sevensegmenttimer/CountDownDigitTimer.java:222-228 | without flags, tick k reports completion if and only if k is at least the starting total, so every later tick reports too |
| CountDown.ReportCount | sevensegmenttimer/src/main/java/com/lynn/code/sevensegmenttimer/CountDownDigitTimer.java:222-228 | without flags, n ticks from T > 0 seconds report `max(0, n - T + 1)` times, and from zero every tick reports |
| CountDown.NinetyOneTicksReportTwice | sevensegmenttimer/src/main/java/com/lynn/code/sevensegmenttimer/CountDownDigitTimer.java:222-228 | 91 ticks from 0:01:30 report completion twice |
| CountDown.HiddenGroupsCountAsDone | sevensegmenttimer/src/main/java/com/lynn/code/sevensegmenttimer/CountDownDigitTimer.java:222-224 | a flagged group counts as done whatever its counter holds; with both flags, 5:03:00 already reports completion |
| CountDown.UpdateVisibility | sevensegmenttimer/src/main/java/com/lynn/code/sevensegmenttimer/CountDownDigitTimer.java:184-197 | the minute flag hides all four views; otherwise the hour flag hides the hour view and left separator and keeps the other two; with neither flag all four are shown |
| CountDown.UpdateVisibilityIdempotent | sevensegmenttimer/src/main/java/com/lynn/code/sevensegmenttimer/CountDownDigitTimer.java:184-197 | a second visibility step changes nothing |
| CountDown.UpdateVisibilityShape | sevensegmenttimer/src/main/java/com/lynn/code/sevensegmenttimer/CountDownDigitTimer.java:184-197 | afterwards the hour view and left separator agree, a shown hour view means a shown minute view, and a minute view and right separator that agreed still agree |
| CountDown.Timer.constructor | sevensegmenttimer/src/main/java/com/lynn/code/sevensegmenttimer/CountDownDigitTimer.java:59-68 | both flags off, target and counters zero, every view shown, no callback, no reports |
| CountDown.Timer.DivideTime | sevensegmenttimer/src/main/java/com/lynn/code/sevensegmenttimer/CountDownDigitTimer.java:115-141 | the target becomes the split of the timestamp |
| CountDown.Timer.StartTask | sevensegmenttimer/src/main/java/com/lynn/code/sevensegmenttimer/CountDownDigitTimer.java:245-248 | the live counters become the target, replacing what they held |
| CountDown.Timer.SetCountDownTimeStamp | sevensegmenttimer/src/main/java/com/lynn/code/sevensegmenttimer/CountDownDigitTimer.java:143-146 | the target is the split of the timestamp, and the counters restart from it |
| CountDown.Timer.SetCountDownTime | sevensegmenttimer/src/main/java/com/lynn/code/sevensegmenttimer/CountDownDigitTimer.java:159-170 | the target is the clamped hour with minute and second exactly as given, and the counters restart from it |
| CountDown.Timer.SetCountDownMinuteSecond | sevensegmenttimer/src/main/java/com/lynn/code/sevensegmenttimer/CountDownDigitTimer.java:155-157 | the target is hour 0 with the given minute and second, and the counters restart from it |
| CountDown.Timer.SetCountDownSecond | sevensegmenttimer/src/main/java/com/lynn/code/sevensegmenttimer/CountDownDigitTimer.java:151-153 | the target is 0:00 with the given second, and the counters restart from it |
| CountDown.Timer.SetIsPartialVisibleIfLessThanAnHour | sevensegmenttimer/src/main/java/com/lynn/code/sevensegmenttimer/CountDownDigitTimer.java:172-174 | the hour flag takes the given value |
| CountDown.Timer.SetIsPartialVisibleIfLessThanAMinute | sevensegmenttimer/src/main/java/com/lynn/code/sevensegmenttimer/CountDownDigitTimer.java:176-178 | the minute flag takes the given value |
| CountDown.Timer.SetCountDownCallback | sevensegmenttimer/src/main/java/com/lynn/code/sevensegmenttimer/CountDownDigitTimer.java:272-274 | a callback is registered exactly when one is given |
| CountDown.Timer.Tick | sevensegmenttimer/src/main/java/com/lynn/code/sevensegmenttimer/CountDownDigitTimer.java:180-231 | visibility is updated from the flags alone; the counters take one decrement step; the run reports completion exactly when the completion test holds on the new counters; the callback is counted once per report while one is registered |

## Left out

- `TimeSeparatorView.java` and `MainActivity.java` are not part of this model. The first
  only draws the separator marks; the second only calls `setCountDownTime(99, 59, 59)`.
- Scheduling is not modelled:
  - the single-thread executor and `scheduleAtFixedRate`, including its first run with no
    delay (`CountDownDigitTimer.java:256`) and its one-second period;
  - `stopTimer`'s shutdown, and `onAttachedToWindow` and `onDetachedFromWindow`;
  - the `post` to the UI thread.

  Each run of `mTask` is one explicit call of `CountDown.Timer.Tick`.
- CountDown.Timer.StartTask: models only the copy of the target into the counters, not the
  timer restart.
- CountDown.Timer.Tick: the posted `setDigit` calls on the three digit views are not made.
  The values they would receive are the new counters. `CountDown.DecrementDisplayable` and
  `CountDown.UncheckedSecondBreaksDisplay` say when those values are accepted.
- The callback object is a foreign call. The model keeps two fields in its place: one says
  whether a callback is registered, the other counts its `onFinish` calls.
- `postInvalidate` in `setDigit` is not modelled; it is a redraw request to the framework.
- A rejected `setDigit` throws `IllegalArgumentException` in the source. Here the method
  returns `false` and changes no field.
- Measuring and scaling are not modelled:
  - `onMeasure` and `measure`;
  - the float scale factor and canvas translations of `onDraw`, and the stroke width;
  - `dpToPx`, `setWeight`, paddings and background colours.
- DigitViews.DigitView.DrawSegment: models the colour chosen for each segment, not the
  drawing itself. Left out are the transform by the view matrix, the transparent stroke
  pass and `Path.reset`.
- Paths are modelled as vertex lists. The close flag of `Path.close()` is not kept, because
  no bound and no colour depends on it.
- Geometry.Rotate: only whole quarter turns (0, 90, 180, 270 degrees) are modelled. These
  are the only rotations the source performs, so integer coordinates stay exact.
- `Digit.values()` exposes the mutable array of a shared glyph. Changes made through it,
  and the identity of the shared `Digit` instances, are not modelled; the glyphs are
  values.
- `value(i)` has a null check on its array. That array is never null after the
  constructor, so the check is not modelled.
- `init` returns early when the segment list is `null` or empty. `segments()` always
  returns seven segments, so that path is absent. `DigitViews.UnionBounds` requires a
  non-empty list, which that guard ensures in the source.
- Colours are plain ints (`Color.WHITE` is -1, `Color.GRAY` is -7829368). Painting is not
  modelled.
- Java `int` overflow does not occur in any modelled operation, so counters are unbounded
  ints. Decrements happen only on positive counters, resets are to 59, and `divideTime`
  only divides. The timestamp parameter is restricted to the 32-bit range.
