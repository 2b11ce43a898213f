/** The time arithmetic of the contest list (src/components/ContestInfo.jsx):
    a contest's length as hours and minutes, and the countdown to its start.
    The clock is a parameter: `now` is the current Unix time in whole seconds. */
module ContestInfo {
  import opened Wrappers
  import JsNumber

  const SecondsPerMinute := 60
  const SecondsPerHour := 3600
  const SecondsPerDay := 86400

  // ---------------------------------------------------------------------------
  // formatDuration

  /** The hours of `Math.floor(seconds / 3600)` and the minutes of
      `Math.floor((seconds % 3600) / 60)`, with `%` taking the dividend's sign. */
  function DurationParts(seconds: int): (hm: (int, int))
    ensures seconds >= 0 ==> 0 <= hm.1 < 60
    ensures seconds >= 0 ==> hm.0 * 3600 + hm.1 * 60 <= seconds < hm.0 * 3600 + hm.1 * 60 + 60
  {
    var hours := JsNumber.FloorDiv(seconds, SecondsPerHour);
    var minutes := JsNumber.FloorDiv(JsNumber.JsRem(seconds, SecondsPerHour), SecondsPerMinute);
    (hours, minutes)
  }

  /** `formatDuration`: "{hours}h {minutes}m", both numbers those of
      `DurationParts` and readable back with `parseInt`. */
  function FormatDuration(seconds: int): (text: string)
    ensures text == HoursMinutes(DurationParts(seconds).0, DurationParts(seconds).1)
    ensures var k := |JsNumber.IntToString(DurationParts(seconds).0)| + 2;
            JsNumber.ParseInt(text) == Some(DurationParts(seconds).0)
            && k < |text| && text[k - 2..k] == "h " && text[|text| - 1] == 'm'
            && JsNumber.ParseInt(text[k..]) == Some(DurationParts(seconds).1)
  {
    var hm := DurationParts(seconds);
    HoursReadBack(hm.0, hm.1);
    MinutesReadBack(hm.0, hm.1);
    HoursMinutes(hm.0, hm.1)
  }

  /** The text "{h}h {m}m" of two numbers. */
  function HoursMinutes(h: int, m: int): (text: string)
    ensures var k := |JsNumber.IntToString(h)| + 2;
            k < |text| && text[..k - 2] == JsNumber.IntToString(h) && text[k - 2..k] == "h "
            && text[k..] == JsNumber.IntToString(m) + "m"
  {
    JsNumber.IntToString(h) + "h " + JsNumber.IntToString(m) + "m"
  }

  /** A number followed by text that does not continue a numeral reads back
      with `parseInt`. */
  lemma NumberThen(text: string, n: int, rest: string)
    requires text == JsNumber.IntToString(n) + rest
    requires rest != [] && rest[0] in "dhm"
    ensures JsNumber.ParseInt(text) == Some(n)
  {
    assert JsNumber.EndsNumeral(rest);
    JsNumber.ParseIntToString(n, rest);
  }

  /** The hours read back from the start of "{h}h {m}m" with `parseInt`. */
  lemma HoursReadBack(h: int, m: int)
    ensures JsNumber.ParseInt(HoursMinutes(h, m)) == Some(h)
  {
    NumberThen(HoursMinutes(h, m), h, "h " + JsNumber.IntToString(m) + "m");
  }

  /** The minutes read back from after "h " in "{h}h {m}m" with `parseInt`. */
  lemma MinutesReadBack(h: int, m: int)
    ensures var k := |JsNumber.IntToString(h)| + 2;
            k <= |HoursMinutes(h, m)| && JsNumber.ParseInt(HoursMinutes(h, m)[k..]) == Some(m)
  {
    var k := |JsNumber.IntToString(h)| + 2;
    var tail := JsNumber.IntToString(m) + "m";
    assert HoursMinutes(h, m) == JsNumber.IntToString(h) + "h " + tail;
    assert HoursMinutes(h, m)[k..] == tail;
    NumberThen(tail, m, "m");
  }

  /** Whole hours have no minutes, and a minute short of the hour shows 59. */
  lemma DurationEdges(h: nat)
    ensures DurationParts(h * 3600) == (h, 0)
    ensures DurationParts(h * 3600 + 3599) == (h, 59)
  {
  }

  // ---------------------------------------------------------------------------
  // getTimeUntil

  /** What the countdown shows: started, whole days and hours, hours and
      minutes, or minutes alone. */
  datatype Countdown = Started | InDays(days: int, hours: int) | InHours(hours: int, minutes: int) | InMinutes(minutes: int)

  /** The countdown to `timestamp`: days, the hours of the day left over, and
      the minutes of the hour left over; the largest non-zero unit decides the form. */
  function CountdownOf(timestamp: int, now: int): (c: Countdown)
    ensures c.Started? <==> timestamp < now
    ensures c.InDays? ==>
              0 < c.days && 0 <= c.hours < 24 &&
              c.days * 86400 + c.hours * 3600 <= timestamp - now < c.days * 86400 + c.hours * 3600 + 3600
    ensures c.InHours? ==>
              timestamp - now < 86400 && 0 < c.hours < 24 && 0 <= c.minutes < 60 &&
              c.hours * 3600 + c.minutes * 60 <= timestamp - now < c.hours * 3600 + c.minutes * 60 + 60
    ensures c.InMinutes? ==>
              0 <= timestamp - now < 3600 && 0 <= c.minutes < 60 &&
              c.minutes * 60 <= timestamp - now < c.minutes * 60 + 60
  {
    var diff := timestamp - now;
    if diff < 0 then Started
    else
      var days := JsNumber.FloorDiv(diff, SecondsPerDay);
      var hours := JsNumber.FloorDiv(JsNumber.JsRem(diff, SecondsPerDay), SecondsPerHour);
      var minutes := JsNumber.FloorDiv(JsNumber.JsRem(diff, SecondsPerHour), SecondsPerMinute);
      if days > 0 then InDays(days, hours)
      else if hours > 0 then InHours(hours, minutes)
      else InMinutes(minutes)
  }

  /** The text of a countdown: "Started", or "in " and the units. */
  function Render(c: Countdown): (text: string)
    ensures text == "Started" <==> c.Started?
    ensures !c.Started? ==> |text| > 3 && text[..3] == "in " && text[3..] == RenderUnits(c)
  {
    if c.Started? then "Started"
    else
      var text := "in " + RenderUnits(c);
      assert text[0] == 'i';
      text
  }

  /** The number a countdown leads with, and the letter of its unit. */
  function Leading(c: Countdown): (int, char)
    requires !c.Started?
  {
    match c
    case InDays(d, _) => (d, 'd')
    case InHours(h, _) => (h, 'h')
    case InMinutes(m) => (m, 'm')
  }

  /** The number shown second, and the letter of its unit. */
  function Trailing(c: Countdown): (int, char)
    requires c.InDays? || c.InHours?
  {
    match c
    case InDays(_, h) => (h, 'h')
    case InHours(_, m) => (m, 'm')
  }

  /** What follows "in " in a countdown that has not started: the leading
      number and its unit letter; then, for days and for hours, a space, the
      second number and its unit letter. */
  function RenderUnits(c: Countdown): (u: string)
    requires !c.Started?
    ensures var (n, unit) := Leading(c);
            var k := |JsNumber.IntToString(n)|;
            k < |u| && u[..k] == JsNumber.IntToString(n) && u[k] == unit
            && (c.InMinutes? ==> |u| == k + 1)
            && (!c.InMinutes? ==>
                  var (n2, unit2) := Trailing(c);
                  k + 2 < |u| && u[k + 1] == ' ' && u[k + 2..] == JsNumber.IntToString(n2) + [unit2])
  {
    match c
    case InDays(d, h) => JsNumber.IntToString(d) + "d " + JsNumber.IntToString(h) + "h"
    case InHours(h, m) => HoursMinutes(h, m)
    case InMinutes(m) => JsNumber.IntToString(m) + "m"
  }

  /** `getTimeUntil` with the clock passed in. */
  function TimeUntil(timestamp: int, now: int): (text: string)
    ensures text == "Started" <==> timestamp < now
    ensures timestamp >= now ==>
              |text| > 3 && text[..3] == "in " && text[3..] == RenderUnits(CountdownOf(timestamp, now))
  {
    Render(CountdownOf(timestamp, now))
  }

  /** A contest starting this very second is not yet started. */
  lemma StartingNow(now: int)
    ensures TimeUntil(now, now) == "in 0m"
  {
    assert CountdownOf(now, now) == InMinutes(0);
  }

  /** The leading number of a countdown is read back with `parseInt` from
      after "in ": days, hours or minutes, whichever unit leads. */
  lemma CountdownLeadingNumber(timestamp: int, now: int)
    requires timestamp >= now
    ensures JsNumber.ParseInt(TimeUntil(timestamp, now)[3..]) == Some(Leading(CountdownOf(timestamp, now)).0)
  {
    var u := TimeUntil(timestamp, now)[3..];
    var (n, unit) := Leading(CountdownOf(timestamp, now));
    var k := |JsNumber.IntToString(n)|;
    assert u == JsNumber.IntToString(n) + u[k..];
    NumberThen(u, n, u[k..]);
  }

  /** The second number of a countdown in days or in hours is read back with
      `parseInt` from after the first unit letter and its space. */
  lemma CountdownTrailingNumber(timestamp: int, now: int)
    requires timestamp >= now
    requires CountdownOf(timestamp, now).InDays? || CountdownOf(timestamp, now).InHours?
    ensures var c := CountdownOf(timestamp, now);
            var k := 3 + |JsNumber.IntToString(Leading(c).0)| + 2;
            k <= |TimeUntil(timestamp, now)|
            && JsNumber.ParseInt(TimeUntil(timestamp, now)[k..]) == Some(Trailing(c).0)
  {
    var c := CountdownOf(timestamp, now);
    var u := RenderUnits(c);
    var (n2, unit2) := Trailing(c);
    var k := |JsNumber.IntToString(Leading(c).0)|;
    assert TimeUntil(timestamp, now)[3 + k + 2..] == u[k + 2..];
    NumberThen(u[k + 2..], n2, [unit2]);
  }
}
