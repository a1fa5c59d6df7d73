/**
 * `NextTime.nextTime("HHMM", clock)`: the next moment, at or after the clock's
 * current time, whose time of day is the one written as HHMM. Time is counted
 * in whole minutes from an epoch that begins at midnight, so the day of a
 * moment is `t / MinutesPerDay` and its time of day `t % MinutesPerDay`.
 */
module Schedules {
  import opened Wrappers
  import opened Decimal

  const MinutesPerDay := 1440

  /** A time of day, as written in HHMM. */
  datatype TimeOfDay = TimeOfDay(hours: nat, minutes: nat)

  predicate ValidTime(t: TimeOfDay) {
    t.hours < 24 && t.minutes < 60
  }

  /** Minutes since midnight. */
  function MinuteOfDay(t: TimeOfDay): (m: nat)
    requires ValidTime(t)
    ensures m < MinutesPerDay
  {
    t.hours * 60 + t.minutes
  }

  /** The value of two decimal digits. */
  function TwoDigits(a: char, b: char): (n: nat)
    requires IsDigit(a) && IsDigit(b)
    ensures n < 100
  {
    10 * DigitValue(a) + DigitValue(b)
  }

  /**
   * "HHMM": hours from the first two digits, minutes from the last two.
   * Anything else, or a time that is not on the clock, reads as no time.
   */
  function ParseTime(s: string): (r: Option<TimeOfDay>)
    ensures r.Some? ==> ValidTime(r.value)
    ensures r.Some? ==> |s| == 4 && AllDigits(s)
  {
    if |s| == 4 && AllDigits(s) then
      var t := TimeOfDay(TwoDigits(s[0], s[1]), TwoDigits(s[2], s[3]));
      if ValidTime(t) then Some(t) else None
    else None
  }

  /** The two-digit form of a number below 100. */
  function Pad2(n: nat): (s: string)
    requires n < 100
    ensures |s| == 2 && AllDigits(s) && TwoDigits(s[0], s[1]) == n
  {
    [DigitChar(n / 10), DigitChar(n % 10)]
  }

  /** The HHMM form of a time of day. */
  function FormatTime(t: TimeOfDay): (s: string)
    requires ValidTime(t)
    ensures |s| == 4 && AllDigits(s)
  {
    Pad2(t.hours) + Pad2(t.minutes)
  }

  /** The day a moment falls on, starting at its midnight. */
  function Midnight(now: nat): (d: nat)
    ensures d <= now && now - d < MinutesPerDay && d % MinutesPerDay == 0
  {
    now - now % MinutesPerDay
  }

  /**
   * The next moment at the given time of day: today's, if it is not already
   * past (a time equal to now counts as today), and otherwise tomorrow's.
   */
  function NextTime(s: string, now: nat): (r: Option<nat>)
    ensures r.Some? <==> ParseTime(s).Some?
  {
    match ParseTime(s)
    case None => None
    case Some(t) =>
      var today := Midnight(now) + MinuteOfDay(t);
      Some(if now <= today then today else today + MinutesPerDay)
  }

  // ---- Properties ----

  /** Reading back the HHMM form of a time gives the time. */
  lemma ParseFormat(t: TimeOfDay)
    requires ValidTime(t)
    ensures ParseTime(FormatTime(t)) == Some(t)
  {
    var s := FormatTime(t);
    assert s[0] == Pad2(t.hours)[0] && s[1] == Pad2(t.hours)[1];
    assert s[2] == Pad2(t.minutes)[0] && s[3] == Pad2(t.minutes)[1];
  }

  /** A string that reads as a time is that time's HHMM form. */
  lemma FormatParse(s: string)
    requires ParseTime(s).Some?
    ensures FormatTime(ParseTime(s).value) == s
  {
    var t := ParseTime(s).value;
    DigitsOf(s[0], s[1]);
    DigitsOf(s[2], s[3]);
    assert FormatTime(t) == [s[0], s[1]] + [s[2], s[3]];
  }

  /** Two digits are recovered from their value. */
  lemma DigitsOf(a: char, b: char)
    requires IsDigit(a) && IsDigit(b)
    ensures Pad2(TwoDigits(a, b)) == [a, b]
  {
    var n := TwoDigits(a, b);
    assert n / 10 == DigitValue(a) && n % 10 == DigitValue(b);
  }

  /** A moment is split uniquely into its day and its minute of that day. */
  lemma DayAndMinute(day: nat, m: nat)
    requires m < MinutesPerDay
    ensures (day * MinutesPerDay + m) / MinutesPerDay == day
    ensures (day * MinutesPerDay + m) % MinutesPerDay == m
  {
    var t := day * MinutesPerDay + m;
    var q, r := t / MinutesPerDay, t % MinutesPerDay;
    assert t == q * MinutesPerDay + r;
    assert (day - q) * MinutesPerDay == r - m;
  }

  /** Midnight of a moment's day. */
  lemma MidnightIsDayStart(now: nat)
    ensures Midnight(now) == (now / MinutesPerDay) * MinutesPerDay
  {
  }

  /**
   * The next time is never before now, comes within a day of it, and falls
   * at the requested time of day.
   */
  lemma NextTimeBounds(s: string, now: nat)
    requires ParseTime(s).Some?
    ensures now <= NextTime(s, now).value < now + MinutesPerDay
    ensures NextTime(s, now).value % MinutesPerDay == MinuteOfDay(ParseTime(s).value)
  {
    var m := MinuteOfDay(ParseTime(s).value);
    var day := now / MinutesPerDay;
    MidnightIsDayStart(now);
    DayAndMinute(day, m);
    DayAndMinute(day + 1, m);
    assert (day + 1) * MinutesPerDay + m == day * MinutesPerDay + m + MinutesPerDay;
  }

  /** No moment at the requested time of day comes between now and the next time. */
  lemma NextTimeEarliest(s: string, now: nat, x: nat)
    requires ParseTime(s).Some?
    requires now <= x && x % MinutesPerDay == MinuteOfDay(ParseTime(s).value)
    ensures NextTime(s, now).value <= x
  {
    NextTimeBounds(s, now);
  }

  /** The next time is today exactly when its time of day is not earlier than now's, and tomorrow otherwise. */
  lemma NextTimeSameDay(s: string, now: nat)
    requires ParseTime(s).Some?
    ensures (NextTime(s, now).value / MinutesPerDay == now / MinutesPerDay) <==>
              (MinuteOfDay(ParseTime(s).value) >= now % MinutesPerDay)
    ensures NextTime(s, now).value / MinutesPerDay != now / MinutesPerDay ==>
              NextTime(s, now).value / MinutesPerDay == now / MinutesPerDay + 1
  {
    var m := MinuteOfDay(ParseTime(s).value);
    var day := now / MinutesPerDay;
    MidnightIsDayStart(now);
    DayAndMinute(day, m);
    DayAndMinute(day + 1, m);
    assert (day + 1) * MinutesPerDay + m == day * MinutesPerDay + m + MinutesPerDay;
  }

  // ---- The asserted cases, at noon on any day ----

  /** Noon on the given day. */
  function Noon(day: nat): nat {
    day * MinutesPerDay + 12 * 60
  }

  /** The given hour on the given day. */
  function At(day: nat, hour: nat): nat {
    day * MinutesPerDay + hour * 60
  }

  lemma ReadsHours()
    ensures ParseTime("1300") == Some(TimeOfDay(13, 0))
    ensures ParseTime("1200") == Some(TimeOfDay(12, 0))
    ensures ParseTime("1100") == Some(TimeOfDay(11, 0))
  {
  }

  /** A later time of day lands today: "1300" at noon is 13:00 the same day. */
  lemma LaterToday(day: nat)
    ensures NextTime("1300", Noon(day)) == Some(At(day, 13))
  {
    ReadsHours();
    assert Midnight(Noon(day)) == day * MinutesPerDay;
  }

  /** The current time of day counts as today: "1200" at noon is noon the same day. */
  lemma NowIsToday(day: nat)
    ensures NextTime("1200", Noon(day)) == Some(At(day, 12))
  {
    ReadsHours();
    assert Midnight(Noon(day)) == day * MinutesPerDay;
  }

  /** An earlier time of day rolls over: "1100" at noon is 11:00 the next day. */
  lemma EarlierTomorrow(day: nat)
    ensures NextTime("1100", Noon(day)) == Some(At(day + 1, 11))
  {
    ReadsHours();
    assert Midnight(Noon(day)) == day * MinutesPerDay;
  }
}
