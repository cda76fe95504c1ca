/**
 * The reporting deadlines derived from the awareness instant: +24 hours (early
 * warning), +72 hours (incident notification) and +30 days (final report), each
 * written by `toISO` as an ISO-8601 UTC timestamp without milliseconds.
 */
module Deadlines {
  import opened JsCore
  import opened CivilTime

  const EarlyWarningHours := 24
  const IncidentNotificationHours := 72
  const FinalReportDays := 30

  /** `addHours(date, hours)` on instants in milliseconds. */
  function AddHours(t: int, hours: int): int { t + hours * MsPerHour }

  /** `addDays(date, days)` on instants in milliseconds. */
  function AddDays(t: int, days: int): int { t + days * MsPerDay }

  /** `.replace(/\.\d{3}Z$/, "Z")`: a trailing ".sssZ" becomes "Z"; anything else is kept. */
  function DropMillis(s: string): string
  {
    if |s| >= 5 && s[|s| - 5] == '.' && AllDigits(s[|s| - 4..|s| - 1]) && s[|s| - 1] == 'Z'
    then s[..|s| - 5] + "Z"
    else s
  }

  /** `toISO(dt)`: the UTC timestamp of an instant, to the second. */
  function ToISO(t: int): string
  {
    DropMillis(ToIsoString(t))
  }

  /** The text `toISO` gives for time `ms` of day number `day`: "YYYY-MM-DDThh:mm:ssZ". */
  function IsoText(day: int, ms: int): string
    requires 0 <= ms < MsPerDay
  {
    DateString(day) + "T" + ClockString(ms) + "Z"
  }

  /** toISOString always ends in ".sssZ", so `toISO` always drops exactly the milliseconds. */
  lemma ToISOShape(t: int)
    ensures ToISO(t) == IsoText(t / MsPerDay, t % MsPerDay)
  {
    var s := ToIsoString(t);
    var ms := t % MsPerDay;
    var prefix := DateString(t / MsPerDay) + "T" + ClockString(ms);
    assert s == prefix + "." + Pad3(ms % 1000) + "Z";
    assert s[..|s| - 5] == prefix;
  }

  lemma IsoTextOfParts(u: int, day: int, ms: int)
    requires u / MsPerDay == day && u % MsPerDay == ms
    ensures IsoText(u / MsPerDay, u % MsPerDay) == IsoText(day, ms)
  {
  }

  /** `toISO` of an instant whose day number and time of day are known. */
  lemma ToISOAt(u: int, day: int, ms: int)
    requires u / MsPerDay == day && u % MsPerDay == ms
    ensures ToISO(u) == IsoText(day, ms)
  {
    ToISOShape(u);
    IsoTextOfParts(u, day, ms);
  }

  /** The hours and minutes of a time of day only depend on its whole seconds. */
  lemma ClockFields(ms: int)
    requires 0 <= ms < MsPerDay
    ensures var s := ms / MsPerSecond;
      ms / MsPerHour == s / 3600 && ms / MsPerMinute == s / 60
  {
    var s := ms / MsPerSecond;
    DivBy(ms, MsPerHour, s / 3600);
    DivBy(ms, MsPerMinute, s / 60);
  }

  lemma SameSecondSameText(day: int, a: int, b: int)
    requires 0 <= a < MsPerDay && 0 <= b < MsPerDay && a / MsPerSecond == b / MsPerSecond
    ensures IsoText(day, a) == IsoText(day, b)
  {
    ClockFields(a);
    ClockFields(b);
    assert ClockString(a) == ClockString(b);
  }

  /** Cutting the milliseconds off an instant keeps its day and its whole seconds. */
  lemma MillisSplit(t: int)
    ensures 0 <= t % MsPerDay - t % MsPerSecond < MsPerDay
    ensures (t - t % MsPerSecond) / MsPerDay == t / MsPerDay
    ensures (t - t % MsPerSecond) % MsPerDay == t % MsPerDay - t % MsPerSecond
    ensures (t % MsPerDay - t % MsPerSecond) / MsPerSecond == t % MsPerDay / MsPerSecond
  {
    var day := t / MsPerDay;
    var ms := t % MsPerDay;
    var r := ms % MsPerSecond;
    DivBy(ms, MsPerSecond, ms / MsPerSecond);
    DivBy(t, MsPerSecond, day * 86400 + ms / MsPerSecond);
    DivBy(t - r, MsPerDay, day);
    DivBy(ms - r, MsPerSecond, ms / MsPerSecond);
  }

  /** `toISO` does not see the milliseconds of an instant. */
  lemma ToISOIgnoresMillis(t: int)
    ensures ToISO(t) == ToISO(t - t % MsPerSecond)
  {
    MillisSplit(t);
    ToISOAt(t, t / MsPerDay, t % MsPerDay);
    ToISOAt(t - t % MsPerSecond, t / MsPerDay, t % MsPerDay - t % MsPerSecond);
    SameSecondSameText(t / MsPerDay, t % MsPerDay, t % MsPerDay - t % MsPerSecond);
  }

  /** The fields ClockString reads off a whole minute of the day. */
  lemma MinuteFields(hours: int, minutes: int)
    requires 0 <= hours < 24 && 0 <= minutes < 60
    ensures 0 <= MakeTime(hours, minutes, 0, 0) < MsPerDay
    ensures MakeTime(hours, minutes, 0, 0) / MsPerHour == hours
    ensures MakeTime(hours, minutes, 0, 0) / MsPerMinute % 60 == minutes
    ensures MakeTime(hours, minutes, 0, 0) / MsPerSecond % 60 == 0
  {
    var ms := MakeTime(hours, minutes, 0, 0);
    DivBy(ms, MsPerHour, hours);
    DivBy(ms, MsPerMinute, 60 * hours + minutes);
    DivBy(60 * hours + minutes, 60, hours);
    DivBy(ms, MsPerSecond, 3600 * hours + 60 * minutes);
    DivBy(3600 * hours + 60 * minutes, 60, 60 * hours + minutes);
  }

  /** The clock text of a whole minute of the day. */
  lemma ClockOfMinute(hours: int, minutes: int)
    requires 0 <= hours < 24 && 0 <= minutes < 60
    ensures 0 <= MakeTime(hours, minutes, 0, 0) < MsPerDay
    ensures ClockString(MakeTime(hours, minutes, 0, 0)) == Pad2(hours) + ":" + Pad2(minutes) + ":00"
  {
    MinuteFields(hours, minutes);
  }

  /** The text of a day number whose date has a four-digit year. */
  lemma DateStringOf(day: int, c: Civil)
    requires CivilFromDays(day) == c && 0 <= c.year <= 9999
    ensures DateString(day) == Pad4(c.year) + "-" + Pad2(c.month) + "-" + Pad2(c.day)
  {
  }

  lemma IsoTextOfMinute(day: int, c: Civil, hours: int, minutes: int)
    requires CivilFromDays(day) == c && 0 <= c.year <= 9999
    requires 0 <= hours < 24 && 0 <= minutes < 60
    ensures 0 <= MakeTime(hours, minutes, 0, 0) < MsPerDay
    ensures IsoText(day, MakeTime(hours, minutes, 0, 0))
      == Pad4(c.year) + "-" + Pad2(c.month) + "-" + Pad2(c.day)
         + "T" + Pad2(hours) + ":" + Pad2(minutes) + ":00Z"
  {
    DateStringOf(day, c);
    ClockOfMinute(hours, minutes);
  }

  /**
   * `toISO(new Date(Date.UTC(Y, M - 1, D, h, m)))` of a valid date with a four-digit
   * year from 100 on and a valid clock is "YYYY-MM-DDThh:mm:00Z".
   */
  lemma DateUtcIso(c: Civil, hours: int, minutes: int)
    requires ValidCivil(c) && 100 <= c.year <= 9999
    requires 0 <= hours < 24 && 0 <= minutes < 60
    ensures ToISO(DateUtc(c.year, c.month - 1, c.day, hours, minutes))
      == Pad4(c.year) + "-" + Pad2(c.month) + "-" + Pad2(c.day)
         + "T" + Pad2(hours) + ":" + Pad2(minutes) + ":00Z"
  {
    var t := DateUtc(c.year, c.month - 1, c.day, hours, minutes);
    DateUtcCivil(c, hours, minutes);
    ToISOAt(t, t / MsPerDay, MakeTime(hours, minutes, 0, 0));
    IsoTextOfMinute(t / MsPerDay, c, hours, minutes);
  }

  /** The three deadlines as the intake response reports them. */
  datatype Due = Due(earlyWarning: string, incidentNotification: string, finalReport: string)

  function DueFor(awareness: int): Due
  {
    Due(ToISO(AddHours(awareness, EarlyWarningHours)),
        ToISO(AddHours(awareness, IncidentNotificationHours)),
        ToISO(AddDays(awareness, FinalReportDays)))
  }

  /** Whole days move the day number and leave the time of day alone. */
  lemma DayShift(t: int, k: int)
    ensures AddDays(t, k) / MsPerDay == t / MsPerDay + k
    ensures AddDays(t, k) % MsPerDay == t % MsPerDay
  {
    DivBy(t + k * MsPerDay, MsPerDay, t / MsPerDay + k);
  }

  /** `toISO` of an instant shifted by whole days: the date moves on, the clock stays. */
  lemma ShiftByDays(t: int, k: int)
    ensures ToISO(AddDays(t, k)) == IsoText(t / MsPerDay + k, t % MsPerDay)
  {
    DayShift(t, k);
    ToISOAt(AddDays(t, k), t / MsPerDay + k, t % MsPerDay);
  }

  /** 24 and 72 hours are whole days. */
  lemma HoursAreDays(t: int)
    ensures AddHours(t, EarlyWarningHours) == AddDays(t, 1)
    ensures AddHours(t, IncidentNotificationHours) == AddDays(t, 3)
  {
  }

  /**
   * The deadlines fall 1, 3 and 30 calendar days after the awareness day, at the
   * awareness time of day.
   */
  lemma DueShape(awareness: int)
    ensures var day := awareness / MsPerDay;
      var ms := awareness % MsPerDay;
      DueFor(awareness) == Due(IsoText(day + 1, ms), IsoText(day + 3, ms), IsoText(day + 30, ms))
  {
    HoursAreDays(awareness);
    ShiftByDays(awareness, 1);
    ShiftByDays(awareness, 3);
    ShiftByDays(awareness, 30);
  }

  /** The deadline instants come strictly after the awareness instant and after each other. */
  lemma DueOrdered(awareness: int)
    ensures awareness < AddHours(awareness, EarlyWarningHours)
      < AddHours(awareness, IncidentNotificationHours) < AddDays(awareness, FinalReportDays)
  {
  }
}
