/** The time and rate helpers shared by the backend and the frontend:
    "HH:MM" labels and minutes of the day, the fixed shift tables, the
    overnight-aware shift window, the 96 quarter-hour labels of a day, and
    the SLA, productive-hours and month-shape helpers. */
module TimeUtils {
  import opened Wrappers
  import opened JsRuntime

  // ---------------------------------------------------------------------------
  // "HH:MM" <-> minutes

  /** timeToMinutes: split on ':' and read the first two pieces as numbers.
      A label without a second piece, or with a piece that is not a number,
      gives NaN (None); pieces after the second are ignored. */
  function TimeToMinutes(time: string): (r: Option<int>)
  {
    FieldsToMinutes(Split(time, ':'))
  }

  /** const [hours, minutes] = parts.map(Number); hours * 60 + minutes. */
  function FieldsToMinutes(parts: seq<string>): (r: Option<int>)
  {
    if |parts| < 2 then None
    else
      var hours := ParseInteger(parts[0]);
      var minutes := ParseInteger(parts[1]);
      if hours.Some? && minutes.Some? then Some(hours.value * 60 + minutes.value) else None
  }

  /** minutesToTime: floor(m / 60) and the JavaScript remainder m % 60, each
      padded to two characters. */
  function MinutesToTime(minutes: int): (s: string)
    ensures |s| >= 5
  {
    HourMinuteLabel(minutes / 60, JsRemainder(minutes, 60))
  }

  /** Hours and minutes as String(), each padded to two characters, joined
      by a colon. */
  function HourMinuteLabel(hours: int, mins: int): (s: string)
    ensures |s| >= 5
  {
    PadStart2(IntToString(hours)) + ":" + PadStart2(IntToString(mins))
  }

  /** The label of a non-negative minute count: its hours and its minute
      within the hour. */
  lemma {:induction false} MinutesToTimeParts(minutes: int)
    requires minutes >= 0
    ensures MinutesToTime(minutes) == HourMinuteLabel(minutes / 60, minutes % 60)
  {
  }

  /** Non-negative fields are written without a sign. */
  lemma {:induction false} NaturalLabel(hours: nat, mins: nat)
    ensures HourMinuteLabel(hours, mins) == PadStart2(NatToString(hours)) + ":" + PadStart2(NatToString(mins))
  {
  }

  lemma {:induction false} DigitsHaveNoColon(s: string)
    requires AllDigits(s)
    ensures ':' !in s
  {
  }

  /** Reading back a label of two digit strings gives 60 * hours + minutes. */
  lemma {:induction false} TimeToMinutesOfDigits(hh: string, mm: string)
    requires AllDigits(hh) && AllDigits(mm)
    ensures TimeToMinutes(hh + ":" + mm) == Some(DigitsValue(hh) * 60 + DigitsValue(mm))
  {
    SplitDigitFields(hh, mm);
    FieldsOfDigits(hh, mm);
  }

  lemma {:induction false} SplitDigitFields(hh: string, mm: string)
    requires AllDigits(hh) && AllDigits(mm)
    ensures Split(hh + ":" + mm, ':') == [hh, mm]
  {
    DigitsHaveNoColon(hh);
    DigitsHaveNoColon(mm);
    assert hh + ":" + mm == hh + [':'] + mm;
    SplitAtSeparator(hh, ':', mm);
    SplitNoSeparator(mm, ':');
  }

  lemma {:induction false} FieldsOfDigits(hh: string, mm: string)
    requires AllDigits(hh) && AllDigits(mm)
    ensures FieldsToMinutes([hh, mm]) == Some(DigitsValue(hh) * 60 + DigitsValue(mm))
  {
    var hours := ParseInteger(hh);
    var minutes := ParseInteger(mm);
    assert hours == Some(DigitsValue(hh) as int);
    assert minutes == Some(DigitsValue(mm) as int);
    var parts := [hh, mm];
    assert parts[0] == hh && parts[1] == mm;
  }

  /** timeToMinutes("HH:MM") == 60 * HH + MM for digit fields. */
  lemma {:induction false} TimeToMinutesOfLabel(hh: string, mm: string)
    requires |hh| == 2 && |mm| == 2 && AllDigits(hh) && AllDigits(mm)
    ensures TimeToMinutes(hh + ":" + mm)
         == Some(60 * (10 * DigitValue(hh[0]) + DigitValue(hh[1])) + 10 * DigitValue(mm[0]) + DigitValue(mm[1]))
  {
    TimeToMinutesOfDigits(hh, mm);
    TwoDigitsValue(hh);
    TwoDigitsValue(mm);
  }

  /** Every non-negative minute count survives the round trip through its label. */
  lemma {:induction false} MinutesRoundTrip(minutes: int)
    requires minutes >= 0
    ensures TimeToMinutes(MinutesToTime(minutes)) == Some(minutes)
  {
    var h, m := minutes / 60, minutes % 60;
    assert h * 60 + m == minutes;
    MinutesToTimeParts(minutes);
    LabelReads(h, m);
  }

  /** The label of non-negative hours and minutes reads back as their minute count. */
  lemma {:induction false} LabelReads(h: nat, m: nat)
    ensures TimeToMinutes(HourMinuteLabel(h, m)) == Some(h * 60 + m)
  {
    NaturalLabel(h, m);
    PaddedField(h);
    PaddedField(m);
    FieldsRead(PadStart2(NatToString(h)), PadStart2(NatToString(m)), h, m);
  }

  /** Two digit fields joined by a colon read back as hours and minutes. */
  lemma {:induction false} FieldsRead(hh: string, mm: string, h: nat, m: nat)
    requires AllDigits(hh) && AllDigits(mm) && DigitsValue(hh) == h && DigitsValue(mm) == m
    ensures TimeToMinutes(hh + ":" + mm) == Some(h * 60 + m)
  {
    TimeToMinutesOfDigits(hh, mm);
  }

  /** A padded field reads back as its number. */
  lemma {:induction false} PaddedField(n: nat)
    ensures AllDigits(PadStart2(NatToString(n))) && DigitsValue(PadStart2(NatToString(n))) == n
  {
    PadStart2Value(NatToString(n));
    NatToStringRoundTrip(n);
  }

  /** Every two-digit "HH:MM" label with MM <= 59 survives the round trip
      through minutes, thanks to the zero padding. */
  lemma {:induction false} LabelRoundTrip(hh: string, mm: string)
    requires |hh| == 2 && |mm| == 2 && AllDigits(hh) && AllDigits(mm) && DigitsValue(mm) <= 59
    ensures TimeToMinutes(hh + ":" + mm).Some?
    ensures MinutesToTime(TimeToMinutes(hh + ":" + mm).value) == hh + ":" + mm
  {
    TimeToMinutesOfDigits(hh, mm);
    PaddedFieldsOfDigits(hh, mm);
    LabelOfFields(DigitsValue(hh), DigitsValue(mm), hh, mm, TimeToMinutes(hh + ":" + mm).value);
  }

  lemma {:induction false} LabelOfFields(hour: nat, minute: nat, hh: string, mm: string, n: int)
    requires minute < 60 && n == hour * 60 + minute
    requires PadStart2(NatToString(hour)) == hh && PadStart2(NatToString(minute)) == mm
    ensures MinutesToTime(n) == hh + ":" + mm
  {
    ClockLabel(hour, minute);
    NaturalLabel(hour, minute);
  }

  lemma {:induction false} PaddedFieldsOfDigits(hh: string, mm: string)
    requires |hh| == 2 && |mm| == 2 && AllDigits(hh) && AllDigits(mm)
    ensures PadStart2(NatToString(DigitsValue(hh))) == hh && PadStart2(NatToString(DigitsValue(mm))) == mm
  {
    PadStart2OfTwoDigits(hh);
    PadStart2OfTwoDigits(mm);
  }

  lemma {:induction false} ClockLabelOf(hour: nat, minute: nat, hh: string, mm: string)
    requires minute < 60
    requires PadStart2(NatToString(hour)) == hh && PadStart2(NatToString(minute)) == mm
    ensures MinutesToTime(hour * 60 + minute) == hh + ":" + mm
  {
    ClockLabel(hour, minute);
    NaturalLabel(hour, minute);
  }

  /** A negative minute count does not survive: the hours are floored but
      the remainder keeps its sign, so -90 minutes reads back as -150. */
  lemma {:induction false} NegativeMinutesDoNotRoundTrip()
    ensures MinutesToTime(-90) == "-2:-30"
    ensures TimeToMinutes("-2:-30") == Some(-150)
  {
    NegativeLabel();
    NegativeFields();
  }

  lemma {:induction false} NegativeLabel()
    ensures MinutesToTime(-90) == "-2:-30"
  {
    assert -90 / 60 == -2 && JsRemainder(-90, 60) == -30;
    assert NatToString(2) == "2";
    assert NatToString(30) == NatToString(3) + [DigitChar(0)] == "30";
    assert IntToString(-2) == "-2";
    assert IntToString(-30) == "-30";
  }

  lemma {:induction false} NegativeFields()
    ensures TimeToMinutes("-2:-30") == Some(-150)
  {
    NegativeFieldsSplit();
    NegativeFieldsParse();
  }

  lemma {:induction false} NegativeFieldsSplit()
    ensures Split("-2:-30", ':') == ["-2", "-30"]
  {
    assert "-2:-30" == "-2" + [':'] + "-30";
    SplitAtSeparator("-2", ':', "-30");
    SplitNoSeparator("-30", ':');
  }

  lemma {:induction false} NegativeFieldsParse()
    ensures ParseInteger("-2") == Some(-2) && ParseInteger("-30") == Some(-30)
  {
    assert "-2"[1..] == "2" && "-30"[1..] == "30";
    assert !IsDigit("-2"[0]) && !IsDigit("-30"[0]);
    assert DigitsValue("30") == DigitsValue("3") * 10 + 0;
  }

  // ---------------------------------------------------------------------------
  // Shift tables

  /** The three shift lengths the application knows. */
  predicate IsShiftDuration(duration: string)
  {
    duration == "6:20" || duration == "8:12" || duration == "4:00"
  }

  /** getShiftDurationMinutes: the fixed table, and an error for any other label. */
  function GetShiftDurationMinutes(duration: string): (r: Result<int, string>)
    ensures r.Ok? <==> IsShiftDuration(duration)
    ensures r.Err? ==> r.error == "Invalid shift duration: " + duration
  {
    if duration == "6:20" then Ok(6 * 60 + 20)
    else if duration == "8:12" then Ok(8 * 60 + 12)
    else if duration == "4:00" then Ok(4 * 60)
    else Err("Invalid shift duration: " + duration)
  }

  /** The table agrees with reading the label itself as hours and minutes. */
  lemma {:induction false} ShiftDurationIsItsLabel(duration: string)
    requires IsShiftDuration(duration)
    ensures TimeToMinutes(duration) == Some(GetShiftDurationMinutes(duration).value)
  {
    assert DigitsValue("20") == 20 && DigitsValue("12") == 12 && DigitsValue("00") == 0;
    if duration == "6:20" {
      assert duration == "6" + ":" + "20";
      TimeToMinutesOfDigits("6", "20");
    } else if duration == "8:12" {
      assert duration == "8" + ":" + "12";
      TimeToMinutesOfDigits("8", "12");
    } else {
      assert duration == "4" + ":" + "00";
      TimeToMinutesOfDigits("4", "00");
    }
  }

  /** getUnproductivityRate: the fixed table, and an error for any other label. */
  function GetUnproductivityRate(duration: string): (r: Result<real, string>)
    ensures r.Ok? <==> IsShiftDuration(duration)
    ensures r.Ok? ==> 0.0 < r.value < 1.0
    ensures r.Err? ==> r.error == "Invalid shift duration: " + duration
  {
    if duration == "6:20" then Ok(0.135)
    else if duration == "8:12" then Ok(0.18)
    else if duration == "4:00" then Ok(0.0871)
    else Err("Invalid shift duration: " + duration)
  }

  /** The longer the shift, the larger its unproductive share. */
  lemma {:induction false} LongerShiftsAreLessProductive(d1: string, d2: string)
    requires IsShiftDuration(d1) && IsShiftDuration(d2)
    requires GetShiftDurationMinutes(d1).value < GetShiftDurationMinutes(d2).value
    ensures GetUnproductivityRate(d1).value < GetUnproductivityRate(d2).value
  {
  }

  // ---------------------------------------------------------------------------
  // Shift windows

  /** isTimeInShiftGroup: an inclusive window, wrapping past midnight when
      the start lies after the end. A label that reads as NaN makes every
      comparison false, so the answer is false. */
  function IsTimeInShiftGroup(time: string, shiftStart: string, shiftEnd: string): (r: bool)
    ensures r ==> TimeToMinutes(time).Some? && TimeToMinutes(shiftStart).Some? && TimeToMinutes(shiftEnd).Some?
  {
    match (TimeToMinutes(time), TimeToMinutes(shiftStart), TimeToMinutes(shiftEnd))
    case (Some(timeMinutes), Some(startMinutes), Some(endMinutes)) =>
      if startMinutes > endMinutes then timeMinutes >= startMinutes || timeMinutes <= endMinutes
      else timeMinutes >= startMinutes && timeMinutes <= endMinutes
    case _ => false
  }

  /** The minutes of the day. */
  const MinutesPerDay := 24 * 60

  /** The window read on a clock face: t lies on the arc that runs forward
      from s to e. */
  predicate OnClockArc(t: int, s: int, e: int)
  {
    (t - s) % MinutesPerDay <= (e - s) % MinutesPerDay
  }

  /** For times of day, the window test is the clock-face arc from the shift
      start forward to the shift end, overnight shifts included. */
  lemma {:induction false} ShiftWindowIsClockArc(time: string, shiftStart: string, shiftEnd: string)
    requires TimeToMinutes(time).Some? && TimeToMinutes(shiftStart).Some? && TimeToMinutes(shiftEnd).Some?
    requires var t, s, e := TimeToMinutes(time).value, TimeToMinutes(shiftStart).value, TimeToMinutes(shiftEnd).value;
             0 <= t < MinutesPerDay && 0 <= s < MinutesPerDay && 0 <= e < MinutesPerDay
    ensures IsTimeInShiftGroup(time, shiftStart, shiftEnd)
        <==> OnClockArc(TimeToMinutes(time).value, TimeToMinutes(shiftStart).value, TimeToMinutes(shiftEnd).value)
  {
    var t, s, e := TimeToMinutes(time).value, TimeToMinutes(shiftStart).value, TimeToMinutes(shiftEnd).value;
    ClockArc(t, s, e);
  }

  /** The window test on minutes is the clock-face arc. */
  lemma {:induction false} ClockArc(t: int, s: int, e: int)
    requires 0 <= t < MinutesPerDay && 0 <= s < MinutesPerDay && 0 <= e < MinutesPerDay
    ensures (if s > e then t >= s || t <= e else t >= s && t <= e) <==> OnClockArc(t, s, e)
  {
    if t >= s {
      assert (t - s) % MinutesPerDay == t - s;
    } else {
      assert (t - s) % MinutesPerDay == t - s + MinutesPerDay;
    }
    if e >= s {
      assert (e - s) % MinutesPerDay == e - s;
    } else {
      assert (e - s) % MinutesPerDay == e - s + MinutesPerDay;
    }
  }

  /** A day shift (start <= end) is the inclusive interval between them. */
  lemma {:induction false} DayShiftWindow(time: string, shiftStart: string, shiftEnd: string)
    requires TimeToMinutes(shiftStart).Some? && TimeToMinutes(shiftEnd).Some?
    requires TimeToMinutes(shiftStart).value <= TimeToMinutes(shiftEnd).value
    ensures IsTimeInShiftGroup(time, shiftStart, shiftEnd)
        <==> TimeToMinutes(time).Some?
             && TimeToMinutes(shiftStart).value <= TimeToMinutes(time).value <= TimeToMinutes(shiftEnd).value
  {
  }

  /** An overnight shift (start > end) covers everything from the start on
      and everything up to the end. */
  lemma {:induction false} OvernightShiftWindow(time: string, shiftStart: string, shiftEnd: string)
    requires TimeToMinutes(shiftStart).Some? && TimeToMinutes(shiftEnd).Some?
    requires TimeToMinutes(shiftStart).value > TimeToMinutes(shiftEnd).value
    ensures IsTimeInShiftGroup(time, shiftStart, shiftEnd)
        <==> TimeToMinutes(time).Some?
             && (TimeToMinutes(time).value >= TimeToMinutes(shiftStart).value
                 || TimeToMinutes(time).value <= TimeToMinutes(shiftEnd).value)
  {
  }

  /** The shift's own start and end always belong to it. */
  lemma {:induction false} ShiftEndpointsInside(shiftStart: string, shiftEnd: string)
    requires TimeToMinutes(shiftStart).Some? && TimeToMinutes(shiftEnd).Some?
    ensures IsTimeInShiftGroup(shiftStart, shiftStart, shiftEnd)
    ensures IsTimeInShiftGroup(shiftEnd, shiftStart, shiftEnd)
  {
  }

  // ---------------------------------------------------------------------------
  // The quarter-hour labels of a day

  /** The number of 15-minute intervals in a day. */
  const IntervalsPerDay := 96

  /** The label of the i-th quarter hour. */
  function IntervalLabel(i: nat): string
  {
    MinutesToTime(15 * i)
  }

  lemma {:induction false} DivMod60(h: int, m: int)
    requires 0 <= m < 60
    ensures (h * 60 + m) / 60 == h && (h * 60 + m) % 60 == m
  {
  }

  /** A label built from an hour and a minute of that hour is the label of
      their minute of the day. */
  lemma {:induction false} ClockLabel(hour: nat, minute: nat)
    requires minute < 60
    ensures MinutesToTime(hour * 60 + minute) == HourMinuteLabel(hour, minute)
  {
    DivMod60(hour, minute);
    MinutesToTimeParts(hour * 60 + minute);
  }

  /** generateTimeIntervals: for each hour, for each quarter of it, push the
      padded "HH:MM" label. */
  method GenerateTimeIntervals() returns (intervals: seq<string>)
    ensures |intervals| == IntervalsPerDay
    ensures forall i :: 0 <= i < |intervals| ==> intervals[i] == IntervalLabel(i)
  {
    intervals := [];
    var hour := 0;
    while hour < 24
      invariant 0 <= hour <= 24
      invariant |intervals| == 4 * hour
      invariant LabelsInOrder(intervals)
    {
      var minute := 0;
      ghost var quarter := 0;
      while minute < 60
        invariant 0 <= quarter <= 4 && minute == 15 * quarter
        invariant |intervals| == 4 * hour + quarter
        invariant LabelsInOrder(intervals)
      {
        var timeStr := PadStart2(NatToString(hour)) + ":" + PadStart2(NatToString(minute));
        QuarterLabel(hour, minute, |intervals|);
        NextLabel(intervals, timeStr);
        intervals := intervals + [timeStr];
        minute := minute + 15;
        quarter := quarter + 1;
      }
      hour := hour + 1;
    }
  }

  /** Entry i is the label of the i-th quarter hour. */
  predicate LabelsInOrder(intervals: seq<string>)
  {
    Indexed(intervals, IntervalLabel)
  }

  /** Entry i of the list is entry(i). */
  predicate Indexed(s: seq<string>, entry: nat -> string)
  {
    forall i :: 0 <= i < |s| ==> s[i] == entry(i)
  }

  /** Appending the next quarter's label keeps every entry at its own quarter. */
  lemma {:induction false} NextLabel(intervals: seq<string>, next: string)
    requires LabelsInOrder(intervals) && next == IntervalLabel(|intervals|)
    ensures LabelsInOrder(intervals + [next])
  {
    IndexedSnoc(intervals, IntervalLabel, next);
  }

  lemma {:induction false} IndexedSnoc(s: seq<string>, entry: nat -> string, next: string)
    requires Indexed(s, entry) && next == entry(|s|)
    ensures Indexed(s + [next], entry)
  {
    var longer := s + [next];
    forall i | 0 <= i < |longer|
      ensures longer[i] == entry(i)
    {
      if i < |s| {
        assert longer[i] == s[i];
      }
    }
  }

  /** The label the generator builds for an hour and a quarter of it is the
      label of that quarter hour of the day. */
  lemma {:induction false} QuarterLabel(hour: nat, minute: nat, k: nat)
    requires minute < 60 && 15 * k == 60 * hour + minute
    ensures IntervalLabel(k) == PadStart2(NatToString(hour)) + ":" + PadStart2(NatToString(minute))
  {
    ClockLabelOf(hour, minute, PadStart2(NatToString(hour)), PadStart2(NatToString(minute)));
    assert 15 * k == hour * 60 + minute;
  }

  /** Each label reads back as its own minute of the day, so the labels
      strictly increase through the day. */
  lemma {:induction false} IntervalLabelsIncrease(i: nat, j: nat)
    requires i < j
    ensures TimeToMinutes(IntervalLabel(i)) == Some(15 * i)
    ensures TimeToMinutes(IntervalLabel(j)) == Some(15 * j)
    ensures TimeToMinutes(IntervalLabel(i)).value < TimeToMinutes(IntervalLabel(j)).value
  {
    MinutesRoundTrip(15 * i);
    MinutesRoundTrip(15 * j);
  }

  /** The day runs from "00:00" to "23:45". */
  lemma {:induction false} IntervalLabelsFirstAndLast()
    ensures IntervalLabel(0) == "00:00"
    ensures IntervalLabel(IntervalsPerDay - 1) == "23:45"
  {
    FirstLabel();
    LastLabel();
  }

  lemma {:induction false} FirstLabel()
    ensures IntervalLabel(0) == "00:00"
  {
    ClockLabel(0, 0);
    NaturalLabel(0, 0);
  }

  lemma {:induction false} LastLabel()
    ensures IntervalLabel(95) == "23:45"
  {
    assert 15 * 95 == 23 * 60 + 45;
    ClockLabel(23, 45);
    NaturalLabel(23, 45);
    TwoDigitString(23);
    TwoDigitString(45);
    var hh, mm := NatToString(23), NatToString(45);
    assert hh == "23" by { assert hh == [DigitChar(2), DigitChar(3)]; }
    assert mm == "45" by { assert mm == [DigitChar(4), DigitChar(5)]; }
    assert PadStart2(hh) == hh && PadStart2(mm) == mm;
  }

  /** A number from 10 to 99 is written as its tens digit then its units digit. */
  lemma {:induction false} TwoDigitString(n: nat)
    requires 10 <= n < 100
    ensures NatToString(n) == [DigitChar(n / 10), DigitChar(n % 10)]
  {
    assert NatToString(n / 10) == [DigitChar(n / 10)];
  }

  // ---------------------------------------------------------------------------
  // Rates

  /** calculateProductiveHours: the hours left after the unproductive share. */
  function CalculateProductiveHours(totalHours: real, unproductivityRate: real): (r: real)
    ensures unproductivityRate == 0.0 ==> r == totalHours
    ensures totalHours >= 0.0 && 0.0 <= unproductivityRate <= 1.0 ==> 0.0 <= r <= totalHours
    ensures r + totalHours * unproductivityRate == totalHours
  {
    ScaledShare(totalHours, unproductivityRate);
    totalHours * (1.0 - unproductivityRate)
  }

  lemma {:induction false} ScaledShare(x: real, y: real)
    ensures x * (1.0 - y) == x - x * y
    ensures x >= 0.0 && 0.0 <= y <= 1.0 ==> 0.0 <= x * y <= x
  {
    if x >= 0.0 && 0.0 <= y <= 1.0 {
      assert x * y <= x * 1.0;
    }
  }

  /** calculateSLA: the percentage of calls answered in time; 0 with no calls. */
  function CalculateSLA(callsAnsweredInTime: real, totalCalls: real): (r: real)
    ensures totalCalls == 0.0 ==> r == 0.0
    ensures totalCalls != 0.0 ==> r * totalCalls == callsAnsweredInTime * 100.0
    ensures 0.0 <= callsAnsweredInTime <= totalCalls && totalCalls > 0.0 ==>
              0.0 <= r <= 100.0 && (r == 100.0 <==> callsAnsweredInTime == totalCalls)
  {
    if totalCalls == 0.0 then 0.0
    else
      SlaBounds(callsAnsweredInTime, totalCalls);
      (callsAnsweredInTime / totalCalls) * 100.0
  }

  lemma {:induction false} SlaBounds(answered: real, total: real)
    requires total != 0.0
    ensures (answered / total) * 100.0 * total == answered * 100.0
    ensures 0.0 <= answered <= total && total > 0.0 ==>
              0.0 <= answered / total <= 1.0 && (answered / total == 1.0 <==> answered == total)
  {
    if 0.0 <= answered <= total && total > 0.0 {
      if 0.0 < answered < total {
        BelowOne(answered, total);
      }
    }
  }

  // ---------------------------------------------------------------------------
  // Month shape

  /** isValidMonthFormat: the pattern four digits, '-', two digits, matched
      against the whole string. This is the shape of a calendar month of
      reduced precision in ISO 8601:2004 section 4.1.2.3, but only the shape:
      the month's value is not checked. */
  predicate IsValidMonthFormat(month: string)
  {
    |month| == 7 && AllDigits(month[..4]) && month[4] == '-' && AllDigits(month[5..])
  }

  /** The accepted strings are exactly a four-digit year, '-', and a two-digit month. */
  lemma {:induction false} MonthFormatShape(month: string)
    ensures IsValidMonthFormat(month)
        <==> exists year: string, mm: string {:trigger year + "-" + mm} ::
               |year| == 4 && |mm| == 2 && AllDigits(year) && AllDigits(mm) && month == year + "-" + mm
  {
    if IsValidMonthFormat(month) {
      var year, mm := month[..4], month[5..];
      assert month == year + "-" + mm;
    }
  }

  /** The month value is not range-checked: "2024-13" passes, "2024-1" does not. */
  lemma {:induction false} MonthFormatExamples()
    ensures IsValidMonthFormat("2024-13")
    ensures !IsValidMonthFormat("2024-1")
    ensures !IsValidMonthFormat("24-01-01")
  {
  }
}
