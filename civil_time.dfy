/**
 * Proleptic Gregorian calendar arithmetic behind JavaScript's `Date.UTC` and
 * `Date.prototype.toISOString`. Instants are integer milliseconds since
 * 1970-01-01T00:00:00Z; days are counted from the same epoch.
 */
module CivilTime {
  import opened JsCore

  const MsPerSecond := 1000
  const MsPerMinute := 60000
  const MsPerHour := 3600000
  const MsPerDay := 86400000

  datatype Civil = Civil(year: int, month: int, day: int)

  predicate IsLeapYear(y: int) {
    y % 4 == 0 && (y % 100 != 0 || y % 400 == 0)
  }

  function DaysInMonth(y: int, m: int): int
    requires 1 <= m <= 12
  {
    if m == 2 then (if IsLeapYear(y) then 29 else 28)
    else if m == 4 || m == 6 || m == 9 || m == 11 then 30
    else 31
  }

  predicate ValidCivil(c: Civil) {
    1 <= c.month <= 12 && 1 <= c.day <= DaysInMonth(c.year, c.month)
  }

  /** Day of the year in a year that starts on 1 March (month index mp, 0 = March). */
  function MarchDayOfYear(mp: int, d: int): int {
    (153 * mp + 2) / 5 + d - 1
  }

  /** Days from the start of a 400-year era to (year of era, March-based day of year). */
  function DaysIntoEra(yoe: int, doy: int): int {
    365 * yoe + yoe / 4 - yoe / 100 + doy
  }

  /**
   * Day number of a civil date. The month must be 1..12; the day may be any integer
   * and counts on from the first of the month.
   */
  function DaysFromCivil(y: int, m: int, d: int): int
    requires 1 <= m <= 12
  {
    var y1 := if m <= 2 then y - 1 else y;
    var era := y1 / 400;
    var yoe := y1 % 400;
    var mp := if m > 2 then m - 3 else m + 9;
    era * 146097 + DaysIntoEra(yoe, MarchDayOfYear(mp, d)) - 719468
  }

  function YearOfEra(doe: int): int {
    (doe - doe / 1460 + doe / 36524 - doe / 146096) / 365
  }

  function DayOfYear(doe: int): int {
    var yoe := YearOfEra(doe);
    doe - (365 * yoe + yoe / 4 - yoe / 100)
  }

  lemma MulMono(d: int, a: int, b: int)
    requires d > 0 && a <= b
    ensures d * a <= d * b
  {
    assert d * b - d * a == d * (b - a);
  }

  lemma SmallMultiple(d: int, t: int)
    requires d > 0 && -d < d * t < d
    ensures t == 0
  {
    if t > 0 {
      MulMono(d, 1, t);
    } else if t < 0 {
      MulMono(d, t, -1);
    }
  }

  /** Integer division pinned down by its bounds. */
  lemma DivBy(x: int, d: int, q: int)
    requires 0 < d && d * q <= x < d * q + d
    ensures x / d == q && x % d == x - d * q
  {
    var k := x / d;
    assert d * k - d * q == d * (k - q);
    SmallMultiple(d, k - q);
  }

  /** The one leap-day correction `doe / 1460` makes inside a 4-year block. */
  function BlockCarry(c: int, q: int, s: int): int {
    if s + 24 * c + q >= 1460 then 1 else 0
  }

  /** The three quotients YearOfEra takes of a day of the era in canonical split form. */
  lemma BlockQuotients(c: int, q: int, s: int)
    requires 0 <= c <= 3 && 0 <= q <= 24 && 0 <= s <= 1460 && 1461 * q + s < 36524
    ensures var doe := 36524 * c + 1461 * q + s;
      doe / 1460 == 25 * c + q + BlockCarry(c, q, s) && doe / 36524 == c && doe / 146096 == 0
  {
    var doe := 36524 * c + 1461 * q + s;
    DivBy(doe, 1460, 25 * c + q + BlockCarry(c, q, s));
    DivBy(doe, 36524, c);
    DivBy(doe, 146096, 0);
  }

  /**
   * The year of era for the day `s` of 4-year block `q` of century `c` of an era
   * (the canonical split of a day of the era).
   */
  lemma BlockYear(c: int, q: int, s: int) returns (y4: int)
    requires 0 <= c <= 3 && 0 <= q <= 24 && 0 <= s <= 1460 && 1461 * q + s < 36524
    ensures y4 == (s - BlockCarry(c, q, s)) / 365 && 0 <= y4 <= 3
    ensures YearOfEra(36524 * c + 1461 * q + s) == 100 * c + 4 * q + y4
  {
    var e := BlockCarry(c, q, s);
    var doe := 36524 * c + 1461 * q + s;
    BlockQuotients(c, q, s);
    y4 := (s - e) / 365;
    DivBy(s - e, 365, y4);
    var n := 36500 * c + 1460 * q + s - e;
    assert doe - doe / 1460 + doe / 36524 - doe / 146096 == n;
    DivBy(n, 365, 100 * c + 4 * q + y4);
  }

  /** The day of the year that goes with BlockYear's year of era. */
  lemma BlockDay(c: int, q: int, s: int) returns (y4: int)
    requires 0 <= c <= 3 && 0 <= q <= 24 && 0 <= s <= 1460 && 1461 * q + s < 36524
    ensures y4 == (s - BlockCarry(c, q, s)) / 365
    ensures YearOfEra(36524 * c + 1461 * q + s) == 100 * c + 4 * q + y4
    ensures DayOfYear(36524 * c + 1461 * q + s) == s - 365 * y4
    ensures 0 <= s - 365 * y4 <= 365
  {
    y4 := BlockYear(c, q, s);
    var yoe := 100 * c + 4 * q + y4;
    DivBy(yoe, 4, 25 * c + q);
    DivBy(yoe, 100, c);
  }

  /** The last day of an era, which the canonical split leaves out. */
  lemma LastDayOfEra()
    ensures YearOfEra(146096) == 399 && DayOfYear(146096) == 365
  {
    DivBy(146096, 1460, 100);
    DivBy(146096, 36524, 4);
    DivBy(146096, 146096, 1);
    DivBy(145999, 365, 399);
    DivBy(399, 4, 99);
    DivBy(399, 100, 3);
  }

  /** Within one era, a day maps to a year of the era and a March-based day of that year. */
  lemma EraBounds(doe: int)
    requires 0 <= doe < 146097
    ensures 0 <= YearOfEra(doe) <= 399 && 0 <= DayOfYear(doe) <= 365
  {
    if doe == 146096 {
      LastDayOfEra();
    } else {
      var c := doe / 36524;
      var r := doe % 36524;
      var q := r / 1461;
      var s := r % 1461;
      var y4 := BlockDay(c, q, s);
    }
  }

  /** First March-based day of year of month index mp (0 = March ... 11 = February). */
  function MonthStart(mp: int): int
    requires 0 <= mp <= 11
  {
    [0, 31, 61, 92, 122, 153, 184, 214, 245, 275, 306, 337][mp]
  }

  lemma MonthStartIs(mp: int)
    requires 0 <= mp <= 11
    ensures (153 * mp + 2) / 5 == MonthStart(mp)
  {
    DivBy(153 * mp + 2, 5, MonthStart(mp));
  }

  function MonthOfDayOfYear(doy: int): int { (5 * doy + 2) / 153 }

  lemma MonthBounds(doy: int)
    requires 0 <= doy <= 365
    ensures var mp := MonthOfDayOfYear(doy);
      0 <= mp <= 11 && 1 <= doy - (153 * mp + 2) / 5 + 1 <= 31
  {
    var mp := MonthOfDayOfYear(doy);
    DivBy(5 * doy + 2, 153, mp);
    MonthStartIs(mp);
  }

  /** The civil date of day doe of the 400-year era number era. */
  function CivilOfEra(era: int, doe: int): (r: Civil)
    requires 0 <= doe < 146097
    ensures 1 <= r.month <= 12 && 1 <= r.day <= 31
  {
    EraBounds(doe);
    var yoe := YearOfEra(doe);
    var doy := DayOfYear(doe);
    MonthBounds(doy);
    var mp := MonthOfDayOfYear(doy);
    var d := doy - (153 * mp + 2) / 5 + 1;
    var m := if mp < 10 then mp + 3 else mp - 9;
    var y := yoe + era * 400;
    Civil(if m <= 2 then y + 1 else y, m, d)
  }

  /** The civil date of a day number (the inverse of DaysFromCivil). */
  function CivilFromDays(z: int): (r: Civil)
    ensures 1 <= r.month <= 12 && 1 <= r.day <= 31
  {
    var z1 := z + 719468;
    CivilOfEra(z1 / 146097, z1 % 146097)
  }

  /** Number of days in March-based month mp (0 = March ... 11 = February). */
  function MarchMonthLength(mp: int, leap: bool): int
    requires 0 <= mp <= 11
  {
    if mp == 11 then (if leap then 29 else 28)
    else if mp == 1 || mp == 3 || mp == 6 || mp == 8 then 30
    else 31
  }

  lemma MonthInverse(mp: int, d: int, leap: bool)
    requires 0 <= mp <= 11 && 1 <= d <= MarchMonthLength(mp, leap)
    ensures MonthOfDayOfYear(MarchDayOfYear(mp, d)) == mp
    ensures MarchDayOfYear(mp, d) - (153 * mp + 2) / 5 + 1 == d
    ensures 0 <= MarchDayOfYear(mp, d) <= (if leap then 365 else 364)
  {
    MonthStartIs(mp);
    var doy := MonthStart(mp) + d - 1;
    DivBy(5 * doy + 2, 153, mp);
  }

  /** March-based year yoe of an era ends with a 29 February. */
  predicate LeapMarchYear(yoe: int) { IsLeapYear(yoe + 1) }

  /** Only the last March-based year of a 4-year block ends in 29 February, and not at a plain century. */
  lemma LeapDayPosition(c: int, q: int, y4: int)
    requires 0 <= c <= 3 && 0 <= q <= 24 && 0 <= y4 <= 3
    requires LeapMarchYear(100 * c + 4 * q + y4)
    ensures y4 == 3 && (q < 24 || c == 3)
  {
    var k := 100 * c + 4 * q + y4 + 1;
    if y4 < 3 {
      DivBy(k, 4, 25 * c + q);
    } else if q == 24 && c < 3 {
      DivBy(k, 100, c + 1);
      DivBy(k, 400, 0);
    }
  }

  /** A year of era as century, 4-year block and year within the block. */
  lemma SplitYearOfEra(yoe: int) returns (c: int, q: int, y4: int)
    requires 0 <= yoe <= 399
    ensures 0 <= c <= 3 && 0 <= q <= 24 && 0 <= y4 <= 3
    ensures yoe == 100 * c + 4 * q + y4 && yoe / 4 == 25 * c + q && yoe / 100 == c
  {
    c := yoe / 100;
    q := (yoe - 100 * c) / 4;
    y4 := yoe - 100 * c - 4 * q;
    DivBy(yoe, 4, 25 * c + q);
  }

  lemma EraInverse(yoe: int, doy: int)
    requires 0 <= yoe <= 399
    requires 0 <= doy <= (if LeapMarchYear(yoe) then 365 else 364)
    ensures 0 <= DaysIntoEra(yoe, doy) < 146097
    ensures YearOfEra(DaysIntoEra(yoe, doy)) == yoe
    ensures DayOfYear(DaysIntoEra(yoe, doy)) == doy
  {
    var c, q, y4 := SplitYearOfEra(yoe);
    var s := 365 * y4 + doy;
    assert DaysIntoEra(yoe, doy) == 36524 * c + 1461 * q + s;
    if doy == 365 {
      LeapDayPosition(c, q, y4);
    }
    if c == 3 && q == 24 && y4 == 3 && doy == 365 {
      LastDayOfEra();
    } else {
      var y4' := BlockDay(c, q, s);
      DivBy(s - BlockCarry(c, q, s), 365, y4);
    }
  }

  lemma LeapShift(era: int, yoe: int)
    ensures IsLeapYear(era * 400 + yoe + 1) == LeapMarchYear(yoe)
  {
    var k := yoe + 1;
    var x := era * 400 + k;
    DivBy(x, 400, era + k / 400);
    DivBy(x, 100, 4 * era + k / 100);
    DivBy(x, 4, 100 * era + k / 4);
  }

  /** The era, year of era and March-based day of year DaysFromCivil works with. */
  lemma CivilSplit(c: Civil) returns (era: int, yoe: int, mp: int, doy: int)
    requires ValidCivil(c)
    ensures 0 <= yoe <= 399 && 0 <= mp <= 11
    ensures 0 <= doy <= (if LeapMarchYear(yoe) then 365 else 364)
    ensures MonthOfDayOfYear(doy) == mp && doy - (153 * mp + 2) / 5 + 1 == c.day
    ensures c.month == (if mp < 10 then mp + 3 else mp - 9)
    ensures era * 400 + yoe == (if c.month <= 2 then c.year - 1 else c.year)
    ensures DaysFromCivil(c.year, c.month, c.day) + 719468 == era * 146097 + DaysIntoEra(yoe, doy)
  {
    var m := c.month;
    var y1 := if m <= 2 then c.year - 1 else c.year;
    era := y1 / 400;
    yoe := y1 % 400;
    mp := if m > 2 then m - 3 else m + 9;
    LeapShift(era, yoe);
    var leap := LeapMarchYear(yoe);
    assert 1 <= c.day <= MarchMonthLength(mp, leap);
    MonthInverse(mp, c.day, leap);
    doy := MarchDayOfYear(mp, c.day);
  }

  /** The day number DaysFromCivil gives lies in era `era` at day `doe`. */
  lemma DaysInEra(z: int, era: int, doe: int)
    requires 0 <= doe < 146097 && z + 719468 == era * 146097 + doe
    ensures CivilFromDays(z) == CivilOfEra(era, doe)
  {
    DivBy(z + 719468, 146097, era);
  }

  /** Every valid civil date survives the trip to a day number and back. */
  lemma CivilRoundTrip(c: Civil)
    requires ValidCivil(c)
    ensures CivilFromDays(DaysFromCivil(c.year, c.month, c.day)) == c
  {
    var era, yoe, mp, doy := CivilSplit(c);
    EraInverse(yoe, doy);
    var doe := DaysIntoEra(yoe, doy);
    DaysInEra(DaysFromCivil(c.year, c.month, c.day), era, doe);
    var r := CivilOfEra(era, doe);
    assert r.day == c.day;
    assert r.month == c.month;
  }

  /** ECMAScript MakeDay: the month may be any integer and carries into the year. */
  function MakeDay(year: int, month: int, date: int): int
  {
    DaysFromCivil(year + month / 12, month % 12 + 1, 1) + date - 1
  }

  /** ECMAScript MakeTime, MakeDate for integer arguments. */
  function MakeTime(hours: int, minutes: int, seconds: int, ms: int): int
  {
    hours * MsPerHour + minutes * MsPerMinute + seconds * MsPerSecond + ms
  }

  function MakeDate(day: int, time: int): int
  {
    day * MsPerDay + time
  }

  /**
   * `Date.UTC(year, month, date, hours, minutes)` for integer arguments. No field is
   * range-checked: each carries into the next larger one. Years 0 to 99 mean 1900 to 1999.
   */
  function DateUtc(year: int, month: int, date: int, hours: int, minutes: int): int
  {
    var fullYear := if 0 <= year <= 99 then 1900 + year else year;
    MakeDate(MakeDay(fullYear, month, date), MakeTime(hours, minutes, 0, 0))
  }

  /** The day number and time of day inside the instant Date.UTC builds from a valid date. */
  lemma DateUtcParts(c: Civil, hours: int, minutes: int)
    requires ValidCivil(c) && !(0 <= c.year <= 99)
    requires 0 <= hours < 24 && 0 <= minutes < 60
    ensures DateUtc(c.year, c.month - 1, c.day, hours, minutes) / MsPerDay == DaysFromCivil(c.year, c.month, c.day)
    ensures DateUtc(c.year, c.month - 1, c.day, hours, minutes) % MsPerDay == MakeTime(hours, minutes, 0, 0)
  {
    var day := MakeDay(c.year, c.month - 1, c.day);
    assert day == DaysFromCivil(c.year, c.month, c.day);
    DivBy(DateUtc(c.year, c.month - 1, c.day, hours, minutes), MsPerDay, day);
  }

  /** A valid date and wall-clock minute, read back from the instant Date.UTC builds. */
  lemma DateUtcCivil(c: Civil, hours: int, minutes: int)
    requires ValidCivil(c) && !(0 <= c.year <= 99)
    requires 0 <= hours < 24 && 0 <= minutes < 60
    ensures var t := DateUtc(c.year, c.month - 1, c.day, hours, minutes);
      CivilFromDays(t / MsPerDay) == c && t % MsPerDay == MakeTime(hours, minutes, 0, 0)
  {
    DateUtcParts(c, hours, minutes);
    CivilRoundTrip(c);
  }

  function Pad2(n: nat): (r: string)
    requires n < 100
    ensures |r| == 2 && AllDigits(r)
  {
    [DigitChar(n / 10), DigitChar(n % 10)]
  }

  function Pad3(n: nat): (r: string)
    requires n < 1000
    ensures |r| == 3 && AllDigits(r)
  {
    [DigitChar(n / 100), DigitChar(n / 10 % 10), DigitChar(n % 10)]
  }

  function Pad4(n: nat): (r: string)
    requires n < 10000
    ensures |r| == 4 && AllDigits(r)
  {
    [DigitChar(n / 1000), DigitChar(n / 100 % 10), DigitChar(n / 10 % 10), DigitChar(n % 10)]
  }

  function DigitOf(c: char): int { c as int - '0' as int }

  /** The value of a short digit string, position by position. */
  lemma ShortDigitsValue(s: string)
    requires AllDigits(s) && 1 <= |s| <= 4
    ensures |s| == 1 ==> DigitsValue(s) == DigitOf(s[0])
    ensures |s| == 2 ==> DigitsValue(s) == 10 * DigitOf(s[0]) + DigitOf(s[1])
    ensures |s| == 3 ==> DigitsValue(s) == 100 * DigitOf(s[0]) + 10 * DigitOf(s[1]) + DigitOf(s[2])
    ensures |s| == 4 ==> DigitsValue(s) == 1000 * DigitOf(s[0]) + 100 * DigitOf(s[1]) + 10 * DigitOf(s[2]) + DigitOf(s[3])
  {
    var s1 := s[..1];
    assert s1[..0] == [];
    assert DigitsValue(s1) == DigitOf(s[0]);
    if |s| >= 2 {
      var s2 := s[..2];
      assert s2[..1] == s1;
      assert DigitsValue(s2) == 10 * DigitOf(s[0]) + DigitOf(s[1]);
      if |s| >= 3 {
        var s3 := s[..3];
        assert s3[..2] == s2;
        if |s| == 4 {
          assert s[..3] == s3;
        }
      } else {
        assert s == s2;
      }
    } else {
      assert s == s1;
    }
  }

  lemma DigitSplit4(a: int, b: int, c: int, d: int)
    requires 0 <= a < 10 && 0 <= b < 10 && 0 <= c < 10 && 0 <= d < 10
    ensures var v := 1000 * a + 100 * b + 10 * c + d;
      v / 1000 == a && v / 100 % 10 == b && v / 10 % 10 == c && v % 10 == d
  {
    var v := 1000 * a + 100 * b + 10 * c + d;
    assert v / 100 == 10 * a + b;
    assert (10 * a + b) % 10 == b;
    assert v / 10 == 100 * a + 10 * b + c;
    assert (100 * a + 10 * b + c) % 10 == c;
  }

  lemma DigitRoundTrip(ch: char)
    requires IsDigit(ch)
    ensures 0 <= DigitOf(ch) < 10 && DigitChar(DigitOf(ch)) == ch
  {
  }

  /** A run of two or four digits is the padded spelling of its value. */
  lemma DigitsArePadded(s: string)
    requires AllDigits(s) && (|s| == 2 || |s| == 4)
    ensures |s| == 2 ==> DigitsValue(s) < 100 && Pad2(DigitsValue(s)) == s
    ensures |s| == 4 ==> DigitsValue(s) < 10000 && Pad4(DigitsValue(s)) == s
  {
    ShortDigitsValue(s);
    forall i | 0 <= i < |s| ensures 0 <= DigitOf(s[i]) < 10 && DigitChar(DigitOf(s[i])) == s[i] {
      DigitRoundTrip(s[i]);
    }
    var v := DigitsValue(s);
    if |s| == 4 {
      DigitSplit4(DigitOf(s[0]), DigitOf(s[1]), DigitOf(s[2]), DigitOf(s[3]));
      assert Pad4(v) == s;
    } else {
      DigitSplit4(0, 0, DigitOf(s[0]), DigitOf(s[1]));
      assert Pad2(v) == s;
    }
  }

  /** The year as toISOString writes it: four digits, or a sign and six digits outside 0..9999. */
  function YearString(y: int): string
  {
    if 0 <= y <= 9999 then Pad4(y)
    else (if y < 0 then "-" else "+") + PadLeft(NatToString(if y < 0 then -y else y), 6)
  }

  /** The calendar part "YYYY-MM-DD" of a day number. */
  function DateString(day: int): string
  {
    var c := CivilFromDays(day);
    YearString(c.year) + "-" + Pad2(c.month) + "-" + Pad2(c.day)
  }

  /** The clock part "HH:mm:ss" of a time within a day. */
  function ClockString(ms: int): (r: string)
    requires 0 <= ms < MsPerDay
    ensures |r| == 8
  {
    Pad2(ms / MsPerHour) + ":" + Pad2(ms / MsPerMinute % 60) + ":" + Pad2(ms / MsPerSecond % 60)
  }

  /** `new Date(t).toISOString()`: "YYYY-MM-DDTHH:mm:ss.sssZ" in UTC. */
  function ToIsoString(t: int): (r: string)
    ensures |r| >= 5 && r[|r| - 5] == '.' && AllDigits(r[|r| - 4..|r| - 1]) && r[|r| - 1] == 'Z'
  {
    var ms := t % MsPerDay;
    DateString(t / MsPerDay) + "T" + ClockString(ms) + "." + Pad3(ms % 1000) + "Z"
  }
}
