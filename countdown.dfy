/** CountDownDigitTimer: a target time, the live counters a once-a-second task decrements,
    the two partial-visibility flags, and the visibility of the hour and minute groups.
    The scheduler is not modelled: each run of mTask is one call of Tick. */
module CountDown {
  import opened DigitViews

  /** A Java int. */
  type Int32 = x: int | -0x8000_0000 <= x < 0x8000_0000

  /** Java's int division, which truncates toward zero, for a positive divisor. */
  function JavaDiv(a: int, b: int): (q: int)
    requires b > 0
    ensures a >= 0 ==> q == a / b
    ensures a < 0 ==> q == -((-a) / b)
  {
    if a >= 0 then a / b else -((-a) / b)
  }

  /** Whole seconds of a millisecond count round toward zero: never farther from zero than
      the exact quotient, and less than one second short of it. */
  lemma JavaDivTowardZero(a: int)
    ensures a >= 0 ==> 0 <= 1000 * JavaDiv(a, 1000) <= a < 1000 * JavaDiv(a, 1000) + 1000
    ensures a < 0 ==> 1000 * JavaDiv(a, 1000) - 1000 < a <= 1000 * JavaDiv(a, 1000) <= 0
  {
  }

  /** Hours, minutes and seconds, as the timer stores them. */
  datatype Clock = Clock(hour: int, minute: int, second: int)

  const Zero := Clock(0, 0, 0)

  /** The largest hour the timer keeps. */
  const MaxHour := 99

  /** The seconds a clock stands for. */
  function Total(c: Clock): int
  {
    c.hour * 3600 + c.minute * 60 + c.second
  }

  predicate NonNegative(c: Clock)
  {
    c.hour >= 0 && c.minute >= 0 && c.second >= 0
  }

  /** Every counter can be shown by a SevenSegmentDigitView. */
  predicate Displayable(c: Clock)
  {
    InDisplayRange(c.hour) && InDisplayRange(c.minute) && InDisplayRange(c.second)
  }

  /** A clock of the usual form: hour 0..99, minute and second 0..59. */
  predicate Normalized(c: Clock)
  {
    0 <= c.hour <= MaxHour && 0 <= c.minute < 60 && 0 <= c.second < 60
  }

  /** An hour above 99 is stored as 99; any other hour, negative ones included, is kept. */
  function ClampHour(hour: int): (h: int)
    ensures h <= MaxHour
    ensures hour <= MaxHour ==> h == hour
    ensures hour > MaxHour ==> h == MaxHour
  {
    if hour > MaxHour then MaxHour else hour
  }

  /** divideTime(timestamp): whole seconds by Java division; the minutes are split off only
      when there are more than 60 seconds, the hours only when there are more than 60
      minutes; the hour is then clamped to 99. */
  function Divide(timestamp: Int32): (c: Clock)
    ensures c.hour <= MaxHour
    ensures JavaDiv(timestamp, 1000) <= 60 ==> c == Clock(0, 0, JavaDiv(timestamp, 1000))
  {
    var seconds := JavaDiv(timestamp, 1000);
    var minutes := if seconds > 60 then seconds / 60 else 0;
    var second := if seconds > 60 then seconds % 60 else seconds;
    var hours := if minutes > 60 then minutes / 60 else 0;
    var minute := if minutes > 60 then minutes % 60 else minutes;
    Clock(ClampHour(hours), minute, second)
  }

  /** The split recomposes to the whole seconds exactly when fewer than 100 hours are
      given; beyond that, clamping loses time. */
  lemma DivideRecomposes(timestamp: Int32)
    ensures Total(Divide(timestamp)) == JavaDiv(timestamp, 1000) <==> JavaDiv(timestamp, 1000) < 100 * 3600
  {
    var s := JavaDiv(timestamp, 1000);
    var c := Divide(timestamp);
    if s > 60 {
      var m := s / 60;
      assert s == m * 60 + s % 60;
      if m > 60 {
        assert m == (m / 60) * 60 + m % 60;
        if s < 100 * 3600 {
          assert m < 100 * 60;
          assert m / 60 <= MaxHour;
          assert Total(c) == (m / 60) * 3600 + (m % 60) * 60 + s % 60;
        } else {
          assert m >= 100 * 60;
          assert m / 60 > MaxHour;
          assert Total(c) <= 99 * 3600 + 59 * 60 + 59;
        }
      } else {
        assert Total(c) == m * 60 + s % 60;
      }
    }
  }

  /** For a timestamp that is not negative, the hour is 0..99 and minute and second are
      0..60: the value 60 occurs because the splits test for more than 60. */
  lemma DivideBounds(timestamp: Int32)
    requires timestamp >= 0
    ensures 0 <= Divide(timestamp).hour <= MaxHour
    ensures 0 <= Divide(timestamp).minute <= 60
    ensures 0 <= Divide(timestamp).second <= 60
  {
  }

  /** A second of 60 comes exactly from 60..60.999 seconds, a minute of 60 exactly from
      one hour up to one hour and one minute. */
  lemma DivideSixties(timestamp: Int32)
    requires timestamp >= 0
    ensures Divide(timestamp).second == 60 <==> JavaDiv(timestamp, 1000) == 60
    ensures Divide(timestamp).minute == 60 <==> 3600 <= JavaDiv(timestamp, 1000) < 3660
  {
    var s := JavaDiv(timestamp, 1000);
    if s > 60 {
      var m := s / 60;
      assert s == m * 60 + s % 60;
      if m == 60 {
        assert 3600 <= s < 3660;
      }
      if 3600 <= s < 3660 {
        assert m == 60;
      }
    }
  }

  /** Over 99 hours, the hour is 99 and the minute and second are the remainders of the
      full split. */
  lemma DivideClamps(timestamp: Int32)
    requires JavaDiv(timestamp, 1000) >= 100 * 3600
    ensures Divide(timestamp).hour == MaxHour
    ensures Divide(timestamp).minute == (JavaDiv(timestamp, 1000) / 60) % 60
    ensures Divide(timestamp).second == JavaDiv(timestamp, 1000) % 60
  {
    var s := JavaDiv(timestamp, 1000);
    assert s / 60 >= 100 * 60;
  }

  /** A negative timestamp keeps all of its truncated seconds in the second field. */
  lemma DivideNegative(timestamp: Int32)
    requires timestamp < 0
    ensures Divide(timestamp) == Clock(0, 0, JavaDiv(timestamp, 1000))
    ensures Divide(timestamp).second <= 0
  {
  }

  /** Worked cases of the strict tests and of truncation toward zero. */
  lemma DivideExamples()
    ensures Divide(59999) == Clock(0, 0, 59)
    ensures Divide(60000) == Clock(0, 0, 60)
    ensures Divide(61000) == Clock(0, 1, 1)
    ensures Divide(3600000) == Clock(0, 60, 0)
    ensures Divide(3661000) == Clock(1, 1, 1)
    ensures Divide(-500) == Clock(0, 0, 0)
    ensures Divide(-1000) == Clock(0, 0, -1)
    ensures Divide(-1500) == Clock(0, 0, -1)
  {
  }

  /** The tick's counter update: take a second if there is one, else borrow a minute, else
      borrow an hour, else leave the counters alone. */
  function Decrement(c: Clock): (d: Clock)
    ensures d == c <==> c.second <= 0 && c.minute <= 0 && c.hour <= 0
  {
    if c.second > 0 then Clock(c.hour, c.minute, c.second - 1)
    else if c.minute > 0 then Clock(c.hour, c.minute - 1, 59)
    else if c.hour > 0 then Clock(c.hour - 1, 59, 59)
    else c
  }

  /** From a non-negative clock that is not zero, a tick takes away exactly one second and
      keeps every counter non-negative; zero is left as it is. */
  lemma DecrementTakesOneSecond(c: Clock)
    requires NonNegative(c)
    ensures NonNegative(Decrement(c))
    ensures c != Zero ==> Total(Decrement(c)) == Total(c) - 1
    ensures c == Zero ==> Decrement(c) == Zero
  {
  }

  /** For a non-negative clock, the counters stand still exactly at zero. */
  lemma DecrementFixedPoint(c: Clock)
    requires NonNegative(c)
    ensures Decrement(c) == c <==> c == Zero
  {
    if c != Zero {
      DecrementTakesOneSecond(c);
    }
  }

  /** A tick keeps every counter in 0..99, so the values posted to setDigit stay valid. */
  lemma DecrementDisplayable(c: Clock)
    requires Displayable(c)
    ensures Displayable(Decrement(c))
  {
  }

  /** A tick keeps a normalized clock normalized. */
  lemma DecrementNormalized(c: Clock)
    requires Normalized(c)
    ensures Normalized(Decrement(c))
  {
  }

  /** A second above 99 set through setCountDownTime is not checked: the first tick posts
      149 to the second view, and setDigit rejects it. */
  lemma UncheckedSecondBreaksDisplay()
    ensures !Displayable(Decrement(Clock(0, 0, 150)))
    ensures !InDisplayRange(Decrement(Clock(0, 0, 150)).second)
  {
  }

  /** The counters after n ticks. */
  function Run(c: Clock, n: nat): Clock
    decreases n
  {
    if n == 0 then c else Decrement(Run(c, n - 1))
  }

  /** n ticks from a non-negative clock take min(n, Total(c)) seconds away, and after
      Total(c) ticks the clock is zero and stays zero. */
  lemma {:induction false} RunTotal(c: Clock, n: nat)
    requires NonNegative(c)
    ensures NonNegative(Run(c, n))
    ensures n <= Total(c) ==> Total(Run(c, n)) == Total(c) - n
    ensures n >= Total(c) ==> Run(c, n) == Zero
  {
    if n > 0 {
      RunTotal(c, n - 1);
      var p := Run(c, n - 1);
      DecrementTakesOneSecond(p);
      if p != Zero && n - 1 >= Total(c) {
        assert false;
      }
      if p != Zero {
        assert Total(p) > 0;
        if Total(p) == 1 {
          assert Total(Decrement(p)) == 0;
          ZeroTotal(Decrement(p));
        }
      }
    }
  }

  /** A non-negative clock stands for no time only when it is zero. */
  lemma ZeroTotal(c: Clock)
    requires NonNegative(c)
    ensures Total(c) == 0 <==> c == Zero
  {
  }

  /** The completion test made after each tick: the second counter is zero, and so are the
      minute and hour counters unless their group is hidden. */
  function Finished(c: Clock, lessThanAMinute: bool, lessThanAnHour: bool): (done: bool)
    ensures done ==> c.second == 0
    ensures c == Zero ==> done
  {
    c.second == 0 && (lessThanAMinute || c.minute == 0) && (lessThanAnHour || c.hour == 0)
  }

  /** Without flags, the tick that finds the counters at zero reports completion, and so
      does every later tick: nothing latches the first report. */
  lemma FinishedAfterTicks(c: Clock, k: nat)
    requires NonNegative(c)
    ensures Finished(Run(c, k), false, false) <==> k >= Total(c)
  {
    RunTotal(c, k);
    ZeroTotal(Run(c, k));
  }

  /** How many of the first n ticks report completion. */
  function Reports(c: Clock, n: nat, lessThanAMinute: bool, lessThanAnHour: bool): nat
    decreases n
  {
    if n == 0 then 0
    else
      var last := if Finished(Run(c, n), lessThanAMinute, lessThanAnHour) then 1 else 0;
      Reports(c, n - 1, lessThanAMinute, lessThanAnHour) + last
  }

  /** Without flags, every tick from the one that reaches zero onward reports completion:
      n ticks from a clock worth T > 0 seconds report max(0, n - T + 1) times, and from
      zero every tick reports. */
  lemma {:induction false} ReportCount(c: Clock, n: nat)
    requires NonNegative(c)
    ensures Total(c) == 0 ==> Reports(c, n, false, false) == n
    ensures Total(c) > 0 && n < Total(c) ==> Reports(c, n, false, false) == 0
    ensures Total(c) > 0 && n >= Total(c) ==> Reports(c, n, false, false) == n - Total(c) + 1
  {
    if n > 0 {
      ReportCount(c, n - 1);
      FinishedAfterTicks(c, n);
    }
  }

  /** One minute thirty from the start: the 90th tick reaches zero and reports, and the
      91st reports again, so 91 ticks make two reports. */
  lemma NinetyOneTicksReportTwice()
    ensures Reports(Clock(0, 1, 30), 91, false, false) == 2
  {
    ReportCount(Clock(0, 1, 30), 91);
  }

  /** A hidden group counts as done whatever its counter holds. */
  lemma HiddenGroupsCountAsDone(c: Clock)
    ensures Finished(c, true, true) <==> c.second == 0
    ensures Finished(c, false, true) <==> c.second == 0 && c.minute == 0
    ensures Finished(c, true, false) <==> c.second == 0 && c.hour == 0
    ensures Finished(Clock(5, 3, 0), true, true)
  {
  }

  /** Which of the four views before the second view are shown. The second view is never
      hidden. */
  datatype Visibility = Visibility(hourView: bool, leftSeparator: bool, minuteView: bool, rightSeparator: bool)

  /** Views start out visible. */
  const AllVisible := Visibility(true, true, true, true)

  /** The visibility step of a tick: the minute flag hides all four, otherwise the hour
      flag hides the hour view and left separator and leaves the other two as they were,
      and with neither flag all four are shown. */
  function UpdateVisibility(v: Visibility, lessThanAMinute: bool, lessThanAnHour: bool): (w: Visibility)
    ensures lessThanAMinute ==> w == Visibility(false, false, false, false)
    ensures !lessThanAMinute && lessThanAnHour ==>
      w == Visibility(false, false, v.minuteView, v.rightSeparator)
    ensures !lessThanAMinute && !lessThanAnHour ==> w == AllVisible
  {
    if lessThanAMinute then Visibility(false, false, false, false)
    else if lessThanAnHour then v.(hourView := false, leftSeparator := false)
    else AllVisible
  }

  /** Repeating the visibility step changes nothing more. */
  lemma UpdateVisibilityIdempotent(v: Visibility, lessThanAMinute: bool, lessThanAnHour: bool)
    ensures var w := UpdateVisibility(v, lessThanAMinute, lessThanAnHour);
      UpdateVisibility(w, lessThanAMinute, lessThanAnHour) == w
  {
  }

  /** After a visibility step the hour view and left separator agree, a shown hour view
      means a shown minute view, and a minute view and right separator that agreed still
      agree. */
  lemma UpdateVisibilityShape(v: Visibility, lessThanAMinute: bool, lessThanAnHour: bool)
    ensures var w := UpdateVisibility(v, lessThanAMinute, lessThanAnHour);
      w.hourView == w.leftSeparator && (w.hourView ==> w.minuteView)
    ensures v.minuteView == v.rightSeparator ==>
      var w := UpdateVisibility(v, lessThanAMinute, lessThanAnHour);
      w.minuteView == w.rightSeparator
  {
  }

  class Timer {
    /** The target time. */
    var hour: int
    var minute: int
    var second: int
    /** The live counters. */
    var currentHour: int
    var currentMinute: int
    var currentSecond: int
    var partialIfLessThanAnHour: bool
    var partialIfLessThanAMinute: bool
    var visibility: Visibility
    /** Whether a finish callback is registered. */
    var callbackSet: bool
    /** How many times the callback has been told the countdown finished. */
    var finishCalls: nat

    function Target(): Clock
      reads this
    {
      Clock(hour, minute, second)
    }

    function Current(): Clock
      reads this
    {
      Clock(currentHour, currentMinute, currentSecond)
    }

    /** init: both flags off, target 00:00:00, counters at their Java default 0, every view
        shown, no callback. */
    constructor ()
      ensures Target() == Zero && Current() == Zero
      ensures !partialIfLessThanAnHour && !partialIfLessThanAMinute
      ensures visibility == AllVisible && !callbackSet && finishCalls == 0
    {
      partialIfLessThanAnHour := false;
      partialIfLessThanAMinute := false;
      hour, minute, second := 0, 0, 0;
      currentHour, currentMinute, currentSecond := 0, 0, 0;
      visibility := AllVisible;
      callbackSet := false;
      finishCalls := 0;
    }

    /** divideTime: the target becomes the split of the timestamp. */
    method DivideTime(timestamp: Int32)
      modifies this`hour, this`minute, this`second
      ensures Target() == Divide(timestamp)
    {
      var s := JavaDiv(timestamp, 1000);
      var m := 0;
      var h := 0;
      if s > 60 {
        m := s / 60;
        s := s % 60;
      }
      if m > 60 {
        h := m / 60;
        m := m % 60;
      }
      if h > MaxHour {
        h := MaxHour;
      }
      hour := h;
      minute := m;
      second := s;
    }

    /** startTask, counter part: the live counters restart from the target. */
    method StartTask()
      modifies this`currentHour, this`currentMinute, this`currentSecond
      ensures Current() == Target()
    {
      currentHour := hour;
      currentMinute := minute;
      currentSecond := second;
    }

    /** setCountDownTimeStamp: divide the timestamp into the target and restart. */
    method SetCountDownTimeStamp(millis: Int32)
      modifies this`hour, this`minute, this`second
      modifies this`currentHour, this`currentMinute, this`currentSecond
      ensures Target() == Divide(millis)
      ensures Current() == Target()
    {
      DivideTime(millis);
      StartTask();
    }

    /** setCountDownTime(hour, minute, second): the hour clamped to 99, minute and second
        stored as given, then restart. */
    method SetCountDownTime(h: int, m: int, s: int)
      modifies this`hour, this`minute, this`second
      modifies this`currentHour, this`currentMinute, this`currentSecond
      ensures Target() == Clock(ClampHour(h), m, s)
      ensures Current() == Target()
    {
      var clamped := h;
      if clamped > MaxHour {
        clamped := MaxHour;
      }
      hour := clamped;
      minute := m;
      second := s;
      StartTask();
    }

    /** setCountDownTime(minute, second). */
    method SetCountDownMinuteSecond(m: int, s: int)
      modifies this`hour, this`minute, this`second
      modifies this`currentHour, this`currentMinute, this`currentSecond
      ensures Target() == Clock(0, m, s)
      ensures Current() == Target()
    {
      SetCountDownTime(0, m, s);
    }

    /** setCountDownTime(second). */
    method SetCountDownSecond(s: int)
      modifies this`hour, this`minute, this`second
      modifies this`currentHour, this`currentMinute, this`currentSecond
      ensures Target() == Clock(0, 0, s)
      ensures Current() == Target()
    {
      SetCountDownTime(0, 0, s);
    }

    method SetIsPartialVisibleIfLessThanAnHour(b: bool)
      modifies this`partialIfLessThanAnHour
      ensures partialIfLessThanAnHour == b
    {
      partialIfLessThanAnHour := b;
    }

    method SetIsPartialVisibleIfLessThanAMinute(b: bool)
      modifies this`partialIfLessThanAMinute
      ensures partialIfLessThanAMinute == b
    {
      partialIfLessThanAMinute := b;
    }

    /** setCountDownCallback: a non-null callback registers, null unregisters. */
    method SetCountDownCallback(present: bool)
      modifies this`callbackSet
      ensures callbackSet == present
    {
      callbackSet := present;
    }

    /** One run of mTask: update visibility from the flags, decrement the counters, and
        report completion, telling the callback when one is registered. It returns whether
        completion was reported. */
    method Tick() returns (finished: bool)
      modifies this`visibility, this`currentHour, this`currentMinute, this`currentSecond, this`finishCalls
      ensures visibility == UpdateVisibility(old(visibility), partialIfLessThanAMinute, partialIfLessThanAnHour)
      ensures Current() == Decrement(old(Current()))
      ensures finished == Finished(Current(), partialIfLessThanAMinute, partialIfLessThanAnHour)
      ensures finishCalls == old(finishCalls) + (if finished && callbackSet then 1 else 0)
    {
      if partialIfLessThanAMinute {
        visibility := Visibility(false, false, false, false);
      } else if partialIfLessThanAnHour {
        visibility := visibility.(hourView := false, leftSeparator := false);
      } else {
        visibility := AllVisible;
      }

      if currentSecond > 0 {
        currentSecond := currentSecond - 1;
      } else if currentMinute > 0 {
        currentMinute := currentMinute - 1;
        currentSecond := 59;
      } else if currentHour > 0 {
        currentHour := currentHour - 1;
        currentMinute := 59;
        currentSecond := 59;
      }

      finished := currentSecond == 0 && (partialIfLessThanAMinute || currentMinute == 0)
        && (partialIfLessThanAnHour || currentHour == 0);
      if finished && callbackSet {
        finishCalls := finishCalls + 1;
      }
    }
  }
}
