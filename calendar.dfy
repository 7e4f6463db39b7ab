/**
 * The part of Go's time package the parser relies on: instants as Unix
 * seconds, the proleptic Gregorian calendar in UTC, the layouts the parser
 * formats with and the one it parses.
 */
module Calendar {
  import opened Base
  import opened Text

  /** An instant as whole seconds since 1970-01-01T00:00:00Z. */
  type Instant = int

  /** time.Time{}: January 1 of year 1, 00:00:00 UTC. */
  const ZeroTime: Instant := -62135596800

  const SecondsPerDay: int := 86400

  /** t.After(u). */
  predicate After(t: Instant, u: Instant) { t > u }

  predicate IsLeap(y: int) { y % 4 == 0 && (y % 100 != 0 || y % 400 == 0) }

  function DaysInYear(y: int): int { if IsLeap(y) then 366 else 365 }

  /** Days from January 1 of year 1 to January 1 of year y. */
  function DaysBeforeYear(y: int): int
  {
    365 * (y - 1) + (y - 1) / 4 - (y - 1) / 100 + (y - 1) / 400
  }

  /** Euclidean division by 4, 100 and 400, from a quotient and remainder in range. */
  lemma DivMod4(a: int, q: int, r: int)
    requires a == q * 4 + r && 0 <= r < 4
    ensures a / 4 == q && a % 4 == r
  {
  }

  lemma DivMod100(a: int, q: int, r: int)
    requires a == q * 100 + r && 0 <= r < 100
    ensures a / 100 == q && a % 100 == r
  {
  }

  lemma DivMod400(a: int, q: int, r: int)
    requires a == q * 400 + r && 0 <= r < 400
    ensures a / 400 == q && a % 400 == r
  {
  }

  /** Stepping y - 1 to y adds one to y / 4, y / 100 and y / 400 exactly when they divide y. */
  lemma DivStep4(y: int)
    ensures y / 4 == (y - 1) / 4 + (if y % 4 == 0 then 1 else 0)
  {
    var q, r := (y - 1) / 4, (y - 1) % 4;
    if r == 3 {
      DivMod4(y, q + 1, 0);
    } else {
      DivMod4(y, q, r + 1);
    }
  }

  lemma DivStep100(y: int)
    ensures y / 100 == (y - 1) / 100 + (if y % 100 == 0 then 1 else 0)
  {
    var q, r := (y - 1) / 100, (y - 1) % 100;
    if r == 99 {
      DivMod100(y, q + 1, 0);
    } else {
      DivMod100(y, q, r + 1);
    }
  }

  lemma DivStep400(y: int)
    ensures y / 400 == (y - 1) / 400 + (if y % 400 == 0 then 1 else 0)
  {
    var q, r := (y - 1) / 400, (y - 1) % 400;
    if r == 399 {
      DivMod400(y, q + 1, 0);
    } else {
      DivMod400(y, q, r + 1);
    }
  }

  /** Every multiple of 400 is one of 100, and every multiple of 100 one of 4. */
  lemma LeapDivisors(y: int)
    ensures y % 400 == 0 ==> y % 100 == 0
    ensures y % 100 == 0 ==> y % 4 == 0
  {
    if y % 400 == 0 {
      DivMod100(y, (y / 400) * 4, 0);
    }
    if y % 100 == 0 {
      DivMod4(y, (y / 100) * 25, 0);
    }
  }

  lemma NextYear(y: int)
    ensures DaysBeforeYear(y + 1) == DaysBeforeYear(y) + DaysInYear(y)
  {
    DivStep4(y);
    DivStep100(y);
    DivStep400(y);
    LeapDivisors(y);
  }

  lemma {:induction false} YearsAreOrdered(y1: int, y2: int)
    requires y1 < y2
    ensures DaysBeforeYear(y1) + 365 <= DaysBeforeYear(y2)
    decreases y2 - y1
  {
    NextYear(y1);
    if y1 + 1 < y2 {
      YearsAreOrdered(y1 + 1, y2);
    }
  }

  function DaysInMonth(y: int, m: int): int
    requires 1 <= m <= 12
  {
    if m == 2 then (if IsLeap(y) then 29 else 28)
    else if m == 4 || m == 6 || m == 9 || m == 11 then 30
    else 31
  }

  /** Days of year y before the first of month m (m == 13 gives the whole year). */
  function DaysBeforeMonth(y: int, m: int): int
    requires 1 <= m <= 13
    decreases m
  {
    if m == 1 then 0 else DaysBeforeMonth(y, m - 1) + DaysInMonth(y, m - 1)
  }

  lemma WholeYear(y: int)
    ensures DaysBeforeMonth(y, 13) == DaysInYear(y)
  {
  }

  /** The year whose days contain day number d (days since January 1 of year 1). */
  function FindYear(d: int, y: int): (r: int)
    ensures DaysBeforeYear(r) <= d < DaysBeforeYear(r + 1)
    decreases (if DaysBeforeYear(y) > d then DaysBeforeYear(y) - d else 0),
              (if d >= DaysBeforeYear(y + 1) then d - DaysBeforeYear(y + 1) + 1 else 0)
  {
    YearsAreOrdered(y - 1, y);
    YearsAreOrdered(y + 1, y + 2);
    if DaysBeforeYear(y) > d then FindYear(d, y - 1)
    else if d >= DaysBeforeYear(y + 1) then FindYear(d, y + 1)
    else y
  }

  /** The month of year y that contains day doy (counted from 0). */
  function FindMonth(y: int, doy: int, m: int): (r: int)
    requires 0 <= doy < DaysInYear(y)
    requires 1 <= m <= 12 && DaysBeforeMonth(y, m) <= doy
    ensures 1 <= r <= 12
    ensures DaysBeforeMonth(y, r) <= doy < DaysBeforeMonth(y, r) + DaysInMonth(y, r)
    decreases 12 - m
  {
    WholeYear(y);
    if doy < DaysBeforeMonth(y, m + 1) then m else FindMonth(y, doy, m + 1)
  }

  /** A civil date and time of day in UTC. */
  datatype DateTime = DateTime(year: int, month: int, day: int, hour: int, minute: int, second: int)

  predicate ValidDateTime(dt: DateTime)
  {
    1 <= dt.month <= 12 && 1 <= dt.day <= DaysInMonth(dt.year, dt.month)
    && 0 <= dt.hour < 24 && 0 <= dt.minute < 60 && 0 <= dt.second < 60
  }

  /** time.Date(year, month, day, hour, min, sec, 0, time.UTC).Unix(). */
  function FromCivil(dt: DateTime): Instant
    requires 1 <= dt.month <= 12
  {
    (DaysBeforeYear(dt.year) + DaysBeforeMonth(dt.year, dt.month) + dt.day - 1) * SecondsPerDay
    + dt.hour * 3600 + dt.minute * 60 + dt.second + ZeroTime
  }

  /** The UTC calendar fields of an instant (t.UTC().Date() and t.UTC().Clock()). */
  function ToCivil(t: Instant): (dt: DateTime)
    ensures ValidDateTime(dt)
    ensures FromCivil(dt) == t
  {
    var abs := t - ZeroTime;
    var days := abs / SecondsPerDay;
    var secs := abs % SecondsPerDay;
    var y := FindYear(days, days / 366);
    NextYear(y);
    var doy := days - DaysBeforeYear(y);
    var m := FindMonth(y, doy, 1);
    ClockSplit(secs);
    assert abs == days * SecondsPerDay + secs;
    DateTime(y, m, doy - DaysBeforeMonth(y, m) + 1, secs / 3600, secs % 3600 / 60, secs % 60)
  }

  /** A second of the day splits into hours, minutes and seconds. */
  lemma ClockSplit(secs: int)
    requires 0 <= secs < SecondsPerDay
    ensures 0 <= secs / 3600 < 24 && 0 <= secs % 3600 / 60 < 60 && 0 <= secs % 60 < 60
    ensures secs == secs / 3600 * 3600 + secs % 3600 / 60 * 60 + secs % 60
  {
    var h, rest := secs / 3600, secs % 3600;
    var mi, sec := rest / 60, rest % 60;
    assert secs == h * 3600 + rest && 0 <= rest < 3600;
    assert rest == mi * 60 + sec && 0 <= sec < 60;
    DivModMinute(secs, h * 60 + mi, sec);
  }

  lemma {:induction false} MonthsAreOrdered(y: int, k: int, m: int)
    requires 1 <= k <= m <= 13
    ensures DaysBeforeMonth(y, k) <= DaysBeforeMonth(y, m)
    decreases m - k
  {
    if k < m {
      MonthsAreOrdered(y, k, m - 1);
    }
  }

  lemma DivModDay(a: int, q: int, r: int)
    requires a == q * SecondsPerDay + r && 0 <= r < SecondsPerDay
    ensures a / SecondsPerDay == q && a % SecondsPerDay == r
  {
  }

  lemma DivModHour(a: int, q: int, r: int)
    requires a == q * 3600 + r && 0 <= r < 3600
    ensures a / 3600 == q && a % 3600 == r
  {
  }

  lemma DivModMinute(a: int, q: int, r: int)
    requires a == q * 60 + r && 0 <= r < 60
    ensures a / 60 == q && a % 60 == r
  {
  }

  /** The time-of-day part of ToCivil, taken on its own. */
  lemma ClockFields(secs: int, h: int, mi: int, s: int)
    requires 0 <= h < 24 && 0 <= mi < 60 && 0 <= s < 60 && secs == h * 3600 + mi * 60 + s
    ensures secs / 3600 == h && secs % 3600 / 60 == mi && secs % 60 == s
  {
    DivModHour(secs, h, mi * 60 + s);
    DivModMinute(mi * 60 + s, mi, s);
    DivModMinute(secs, h * 60 + mi, s);
  }

  /** The day number of a date, counted from January 1 of year 1. */
  function DayNumber(dt: DateTime): int
    requires 1 <= dt.month <= 12
  {
    DaysBeforeYear(dt.year) + DaysBeforeMonth(dt.year, dt.month) + dt.day - 1
  }

  /** A valid date's day number falls within its year. */
  lemma DayInYear(dt: DateTime)
    requires ValidDateTime(dt)
    ensures DaysBeforeYear(dt.year) <= DayNumber(dt) < DaysBeforeYear(dt.year + 1)
  {
    NextYear(dt.year);
    WholeYear(dt.year);
    MonthsAreOrdered(dt.year, 1, dt.month);
    MonthsAreOrdered(dt.year, dt.month + 1, 13);
  }

  /** A day number falls within one year only. */
  lemma YearUnique(d: int, y1: int, y2: int)
    requires DaysBeforeYear(y1) <= d < DaysBeforeYear(y1 + 1)
    requires DaysBeforeYear(y2) <= d < DaysBeforeYear(y2 + 1)
    ensures y1 == y2
  {
    if y1 < y2 {
      if y1 + 1 < y2 { YearsAreOrdered(y1 + 1, y2); }
    } else if y2 < y1 {
      if y2 + 1 < y1 { YearsAreOrdered(y2 + 1, y1); }
    }
  }

  /** A day of a year falls within one month only. */
  lemma MonthUnique(y: int, doy: int, m1: int, m2: int)
    requires 1 <= m1 <= 12 && 1 <= m2 <= 12
    requires DaysBeforeMonth(y, m1) <= doy < DaysBeforeMonth(y, m1 + 1)
    requires DaysBeforeMonth(y, m2) <= doy < DaysBeforeMonth(y, m2 + 1)
    ensures m1 == m2
  {
    if m1 < m2 {
      MonthsAreOrdered(y, m1 + 1, m2);
    } else if m2 < m1 {
      MonthsAreOrdered(y, m2 + 1, m1);
    }
  }

  /** Two valid dates on the same day number are the same date. */
  lemma SameDay(a: DateTime, b: DateTime)
    requires ValidDateTime(a) && ValidDateTime(b) && DayNumber(a) == DayNumber(b)
    ensures a.year == b.year && a.month == b.month && a.day == b.day
  {
    DayInYear(a);
    DayInYear(b);
    YearUnique(DayNumber(a), a.year, b.year);
    var y, doy := a.year, DayNumber(a) - DaysBeforeYear(a.year);
    MonthUnique(y, doy, a.month, b.month);
  }

  /** FromCivil is one-to-one on valid dates and times. */
  lemma CivilInjective(a: DateTime, b: DateTime)
    requires ValidDateTime(a) && ValidDateTime(b) && FromCivil(a) == FromCivil(b)
    ensures a == b
  {
    var sa := a.hour * 3600 + a.minute * 60 + a.second;
    var sb := b.hour * 3600 + b.minute * 60 + b.second;
    var abs := FromCivil(a) - ZeroTime;
    ClockFields(sa, a.hour, a.minute, a.second);
    ClockFields(sb, b.hour, b.minute, b.second);
    DivModDay(abs, DayNumber(a), sa);
    DivModDay(abs, DayNumber(b), sb);
    SameDay(a, b);
  }

  /** Converting valid calendar fields to an instant and back gives the same fields. */
  lemma CivilRoundTrip(dt: DateTime)
    requires ValidDateTime(dt)
    ensures ToCivil(FromCivil(dt)) == dt
  {
    CivilInjective(ToCivil(FromCivil(dt)), dt);
  }

  /** The start of the hour that contains t. */
  function TruncateHour(t: Instant): Instant
  {
    t - t % 3600
  }

  /** Truncating to the hour zeroes the minutes and seconds and keeps the rest of the calendar fields. */
  lemma TruncateHourFields(t: Instant)
    ensures ToCivil(TruncateHour(t)) == ToCivil(t).(minute := 0, second := 0)
  {
    var dt := ToCivil(t);
    var h := dt.(minute := 0, second := 0);
    var rest := dt.minute * 60 + dt.second;
    assert t == (DayNumber(dt) * 24 + dt.hour - 17259888) * 3600 + rest;
    DivModHour(t, DayNumber(dt) * 24 + dt.hour - 17259888, rest);
    assert FromCivil(h) == TruncateHour(t);
    CivilInjective(ToCivil(TruncateHour(t)), h);
  }

  // ------------------------------------------------------------------ layouts

  /** The "2006" element: four digits at least, and a sign before years below zero. */
  function Year4(y: int): string
  {
    if y < 0 then "-" + Padded(-y, 4) else Padded(y, 4)
  }

  /** A two-digit element such as "01", "02", "15", "04" or "05". */
  function Two(n: nat): string
  {
    Padded(n, 2)
  }

  lemma TwoDigits(n: nat)
    requires n < 100
    ensures |Two(n)| == 2 && AllDigits(Two(n)) && ValueOf(Two(n)) == n
  {
    if n >= 10 {
      assert Decimal(n) == Decimal(n / 10) + [DigitChar(n % 10)];
    }
  }

  /** t.Format("y=2006/m=01/d=02/h=15"), in UTC. */
  function HourPath(t: Instant): string
  {
    var dt := ToCivil(t);
    "y=" + Year4(dt.year) + "/m=" + Two(dt.month) + "/d=" + Two(dt.day) + "/h=" + Two(dt.hour)
  }

  /** t.Format("2006-01-02-15"), in UTC. */
  function HourStamp(t: Instant): string
  {
    var dt := ToCivil(t);
    Year4(dt.year) + "-" + Two(dt.month) + "-" + Two(dt.day) + "-" + Two(dt.hour)
  }

  /** t.Format("2006-01-02-15-04-05"), in UTC. */
  function SecondStamp(t: Instant): string
  {
    var dt := ToCivil(t);
    Year4(dt.year) + "-" + Two(dt.month) + "-" + Two(dt.day) + "-" + Two(dt.hour)
    + "-" + Two(dt.minute) + "-" + Two(dt.second)
  }

  /**
   * time.Parse("01/02 15:04:05 GMT 2006", m/d h:min:00 GMT y) for the digit
   * groups a blob name yields: the month, hour and minute are range checked
   * in layout order while the text is scanned, where any two-digit day is
   * accepted; the day is checked against the length of its month once the
   * scan is over.
   */
  function ParseHourFields(year: string, month: string, day: string, hour: string, minute: string): (r: Result<Instant>)
    requires AllDigits(year) && AllDigits(month) && AllDigits(day) && AllDigits(hour) && AllDigits(minute)
    ensures r.Ok? <==> (1 <= ValueOf(month) <= 12 && 1 <= ValueOf(day) <= DaysInMonth(ValueOf(year), ValueOf(month))
      && ValueOf(hour) < 24 && ValueOf(minute) < 60)
    ensures r.Ok? ==> ToCivil(r.value) == DateTime(ValueOf(year), ValueOf(month), ValueOf(day), ValueOf(hour), ValueOf(minute), 0)
  {
    var y, mo, d, h, mi := ValueOf(year), ValueOf(month), ValueOf(day), ValueOf(hour), ValueOf(minute);
    if mo < 1 || 12 < mo then Err(TimeOutOfRange("month"))
    else if 24 <= h then Err(TimeOutOfRange("hour"))
    else if 60 <= mi then Err(TimeOutOfRange("minute"))
    else if d < 1 || d > DaysInMonth(y, mo) then Err(TimeOutOfRange("day"))
    else
      var dt := DateTime(y, mo, d, h, mi, 0);
      CivilRoundTrip(dt);
      Ok(FromCivil(dt))
  }

  /**
   * The day is checked last: with a valid month, an hour or minute out of
   * range is reported as such whatever the day, even one above 31.
   */
  lemma DayCheckedLast(year: string, month: string, day: string, hour: string, minute: string)
    requires AllDigits(year) && AllDigits(month) && AllDigits(day) && AllDigits(hour) && AllDigits(minute)
    requires 1 <= ValueOf(month) <= 12
    ensures 24 <= ValueOf(hour) ==> ParseHourFields(year, month, day, hour, minute) == Err(TimeOutOfRange("hour"))
    ensures ValueOf(hour) < 24 && 60 <= ValueOf(minute) ==> ParseHourFields(year, month, day, hour, minute) == Err(TimeOutOfRange("minute"))
  {
  }

  /** A year from 0 to 9999 prints as four digits that read back as the year. */
  lemma FourDigitYear(y: int)
    requires 0 <= y <= 9999
    ensures |Year4(y)| == 4 && AllDigits(Year4(y)) && ValueOf(Year4(y)) == y
  {
    DecimalWidth(y, 4);
  }

  /** Parsing the fields HourPath prints gives back the instant truncated to its hour. */
  lemma ParseHourPath(t: Instant)
    requires 0 <= ToCivil(t).year <= 9999
    ensures var dt := ToCivil(t);
      AllDigits(Year4(dt.year)) && |Year4(dt.year)| == 4
      && ParseHourFields(Year4(dt.year), Two(dt.month), Two(dt.day), Two(dt.hour), "00") == Ok(TruncateHour(t))
  {
    var dt := ToCivil(t);
    ParsePrintedHour(dt);
    TruncateHourFields(t);
    assert FromCivil(ToCivil(TruncateHour(t))) == TruncateHour(t);
  }

  /** Parsing the printed fields of a date and hour gives the start of that hour. */
  lemma ParsePrintedHour(dt: DateTime)
    requires ValidDateTime(dt) && 0 <= dt.year <= 9999
    ensures AllDigits(Year4(dt.year)) && |Year4(dt.year)| == 4
    ensures ParseHourFields(Year4(dt.year), Two(dt.month), Two(dt.day), Two(dt.hour), "00") == Ok(FromCivil(dt.(minute := 0, second := 0)))
  {
    FourDigitYear(dt.year);
    TwoDigits(dt.month);
    TwoDigits(dt.day);
    TwoDigits(dt.hour);
    assert ValueOf("00") == 0 by {
      assert "00"[..1] == "0";
    }
    var h := dt.(minute := 0, second := 0);
    var r := ParseHourFields(Year4(dt.year), Two(dt.month), Two(dt.day), Two(dt.hour), "00");
    assert r.Ok? && ToCivil(r.value) == h;
    assert FromCivil(ToCivil(r.value)) == r.value;
  }

  /** An instant and the start of its hour print the same "2006-01-02-15" stamp and the same hour path. */
  lemma StampsOfTruncatedHour(t: Instant)
    ensures HourStamp(TruncateHour(t)) == HourStamp(t)
    ensures HourPath(TruncateHour(t)) == HourPath(t)
  {
    TruncateHourFields(t);
  }
}
