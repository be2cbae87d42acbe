/** Calendar dates as pandas handles them: proleptic Gregorian dates within
    the nanosecond `Timestamp` range, their ISO spelling, monthly periods,
    quarters, and whole-day differences. */
module Calendar {
  import opened Values
  import opened Text

  datatype Date = Date(year: int, month: int, day: int)

  predicate IsLeapYear(y: int)
  {
    y % 4 == 0 && (y % 100 != 0 || y % 400 == 0)
  }

  function DaysInMonth(y: int, m: int): int
  {
    if m == 2 then (if IsLeapYear(y) then 29 else 28)
    else if m == 4 || m == 6 || m == 9 || m == 11 then 30
    else 31
  }

  predicate ValidDate(d: Date)
  {
    1 <= d.year && 1 <= d.month <= 12 && 1 <= d.day <= DaysInMonth(d.year, d.month)
  }

  /** A date that exists in the proleptic Gregorian calendar. */
  type CalendarDate = d: Date | ValidDate(d) witness Date(1970, 1, 1)

  /** Strict chronological order: by year, then month, then day. */
  predicate Before(a: Date, b: Date)
  {
    a.year < b.year || (a.year == b.year && (a.month < b.month || (a.month == b.month && a.day < b.day)))
  }

  predicate NotAfter(a: Date, b: Date)
  {
    a == b || Before(a, b)
  }

  /** The first and last dates whose midnight a pandas `Timestamp` can hold
      (its range is 1677-09-21 00:12:43 to 2262-04-11 23:47:16). */
  const FirstTimestampDate: Date := Date(1677, 9, 22)
  const LastTimestampDate: Date := Date(2262, 4, 11)

  predicate InTimestampRange(d: Date)
  {
    NotAfter(FirstTimestampDate, d) && NotAfter(d, LastTimestampDate)
  }

  // ---------------------------------------------------------------------
  // Day numbers.

  function YearLength(y: int): int
  {
    if IsLeapYear(y) then 366 else 365
  }

  /** Days in the years before `y`, counted from year 1. */
  function DaysBeforeYear(y: int): int
    requires y >= 1
  {
    var p := y - 1;
    365 * p + p / 4 - p / 100 + p / 400
  }

  /** Days in the months of year `y` before month `m`. */
  function DaysBeforeMonth(y: int, m: int): int
    requires 1 <= m <= 12
  {
    var table := [0, 31, 59, 90, 120, 151, 181, 212, 243, 273, 304, 334];
    table[m - 1] + (if m > 2 && IsLeapYear(y) then 1 else 0)
  }

  /** Days from 0001-01-01 (day 1) to `d`. */
  function DayNumber(d: CalendarDate): int
  {
    DaysBeforeYear(d.year) + DaysBeforeMonth(d.year, d.month) + d.day
  }

  lemma YearStep(y: int)
    requires y >= 1
    ensures DaysBeforeYear(y + 1) == DaysBeforeYear(y) + YearLength(y)
  {
    var p := y - 1;
    assert (p + 1) / 4 == p / 4 + (if y % 4 == 0 then 1 else 0);
    assert (p + 1) / 100 == p / 100 + (if y % 100 == 0 then 1 else 0);
    assert (p + 1) / 400 == p / 400 + (if y % 400 == 0 then 1 else 0);
  }

  lemma {:induction false} YearsIncrease(y1: int, y2: int)
    requires 1 <= y1 < y2
    ensures DaysBeforeYear(y1) + YearLength(y1) <= DaysBeforeYear(y2)
    decreases y2 - y1
  {
    YearStep(y1);
    if y1 + 1 < y2 {
      YearsIncrease(y1 + 1, y2);
    }
  }

  lemma MonthStep(y: int, m: int)
    requires 1 <= m < 12
    ensures DaysBeforeMonth(y, m + 1) == DaysBeforeMonth(y, m) + DaysInMonth(y, m)
  {
  }

  lemma {:induction false} MonthsIncrease(y: int, m1: int, m2: int)
    requires 1 <= m1 < m2 <= 12
    ensures DaysBeforeMonth(y, m1) + DaysInMonth(y, m1) <= DaysBeforeMonth(y, m2)
    decreases m2 - m1
  {
    MonthStep(y, m1);
    if m1 + 1 < m2 {
      MonthsIncrease(y, m1 + 1, m2);
    }
  }

  /** The days of a year all come before the next year's. */
  lemma WithinYear(d: CalendarDate)
    ensures DaysBeforeMonth(d.year, d.month) + d.day <= YearLength(d.year)
  {
    if d.month < 12 {
      MonthsIncrease(d.year, d.month, 12);
    }
  }

  /** Day numbers follow the calendar: a strictly earlier date has a strictly
      smaller day number. */
  lemma DayNumberMonotone(a: CalendarDate, b: CalendarDate)
    requires Before(a, b)
    ensures DayNumber(a) < DayNumber(b)
  {
    if a.year < b.year {
      WithinYear(a);
      YearsIncrease(a.year, b.year);
    } else if a.month < b.month {
      MonthsIncrease(a.year, a.month, b.month);
    }
  }

  /** Day numbers tell dates apart and order them exactly as the calendar does. */
  lemma DayNumberOrder(a: CalendarDate, b: CalendarDate)
    ensures Before(a, b) <==> DayNumber(a) < DayNumber(b)
    ensures a == b <==> DayNumber(a) == DayNumber(b)
  {
    if Before(a, b) {
      DayNumberMonotone(a, b);
    } else if Before(b, a) {
      DayNumberMonotone(b, a);
    } else {
      assert a == b;
    }
  }

  /** `(b - a).days` for two dates at midnight: the whole days between them. */
  function DaysBetween(a: CalendarDate, b: CalendarDate): (n: int)
    ensures n >= 0 <==> NotAfter(a, b)
    ensures n == 0 <==> a == b
  {
    DayNumberOrder(a, b);
    DayNumberOrder(b, a);
    DayNumber(b) - DayNumber(a)
  }

  /** `min()` of a date column: the earliest present date, absent (NaT) when none. */
  function Earliest(ds: seq<CalendarDate>): (e: Option<CalendarDate>)
    ensures e.Some? <==> |ds| > 0
    ensures e.Some? ==> e.value in ds && forall i :: 0 <= i < |ds| ==> NotAfter(e.value, ds[i])
  {
    if |ds| == 0 then None
    else
      var last := ds[|ds|-1];
      match Earliest(ds[..|ds|-1])
      case None => Some(last)
      case Some(m) => if Before(last, m) then Some(last) else Some(m)
  }

  /** `max()` of a date column: the latest present date, absent (NaT) when none. */
  function Latest(ds: seq<CalendarDate>): (e: Option<CalendarDate>)
    ensures e.Some? <==> |ds| > 0
    ensures e.Some? ==> e.value in ds && forall i :: 0 <= i < |ds| ==> NotAfter(ds[i], e.value)
  {
    if |ds| == 0 then None
    else
      var last := ds[|ds|-1];
      match Latest(ds[..|ds|-1])
      case None => Some(last)
      case Some(m) => if Before(m, last) then Some(last) else Some(m)
  }

  /** The earliest date is never after the latest one. */
  lemma EarliestNotAfterLatest(ds: seq<CalendarDate>)
    ensures |ds| > 0 ==> NotAfter(Earliest(ds).value, Latest(ds).value)
  {
    if |ds| > 0 {
      var e, l := Earliest(ds).value, Latest(ds).value;
      var i :| 0 <= i < |ds| && ds[i] == l;
      assert NotAfter(e, ds[i]);
    }
  }

  // ---------------------------------------------------------------------
  // An instant in time, and whole days elapsed (`Timedelta.days`).

  const NanosPerDay: int := 86_400_000_000_000

  /** A moment: a date and the nanoseconds since its midnight. */
  datatype Instant = Instant(date: CalendarDate, nanos: int)

  predicate ValidInstant(t: Instant)
  {
    0 <= t.nanos < NanosPerDay
  }

  /** `(t - d).days` for a date `d` at midnight: the elapsed time in
      nanoseconds, floored to whole days (a `Timedelta`'s `days` rounds
      towards negative infinity). */
  function DaysSince(t: Instant, d: CalendarDate): int
  {
    ((DayNumber(t.date) - DayNumber(d)) * NanosPerDay + t.nanos) / NanosPerDay
  }

  /** The time of day never counts: whole days elapsed are the calendar
      difference between the two dates, negative when `d` is later. */
  lemma DaysSinceIsCalendarDays(t: Instant, d: CalendarDate)
    requires ValidInstant(t)
    ensures DaysSince(t, d) == DaysBetween(d, t.date)
  {
    var k := DayNumber(t.date) - DayNumber(d);
    FloorDays(k, t.nanos);
  }

  lemma FloorDays(k: int, r: int)
    requires 0 <= r < NanosPerDay
    ensures (k * NanosPerDay + r) / NanosPerDay == k
  {
  }

  // ---------------------------------------------------------------------
  // Monthly periods and quarters.

  /** A monthly period (`to_period('M')`). */
  datatype YearMonth = YearMonth(year: int, month: int)

  function MonthOf(d: CalendarDate): YearMonth
  {
    YearMonth(d.year, d.month)
  }

  /** The number of months from period `p` to period `q` (`(q - p).n`). */
  function MonthsBetween(p: YearMonth, q: YearMonth): int
  {
    12 * (q.year - p.year) + (q.month - p.month)
  }

  /** A later date never lies in an earlier month. */
  lemma MonthsBetweenNonNegative(a: CalendarDate, b: CalendarDate)
    requires NotAfter(a, b)
    ensures MonthsBetween(MonthOf(a), MonthOf(b)) >= 0
    ensures MonthsBetween(MonthOf(a), MonthOf(b)) == 0 <==> MonthOf(a) == MonthOf(b)
  {
  }

  /** `dt.quarter`: months 1-3 are quarter 1, and so on. */
  function QuarterOf(month: int): (q: int)
    requires 1 <= month <= 12
    ensures 1 <= q <= 4
    ensures 3 * (q - 1) < month <= 3 * q
  {
    (month + 2) / 3
  }

  // ---------------------------------------------------------------------
  // ISO dates `YYYY-MM-DD`.

  function Field(s: string): Option<nat>
  {
    if AllDigits(s) then Some(ParseDigits(s)) else None
  }

  /** `pd.to_datetime` on one text cell, for cells spelt `YYYY-MM-DD`: the
      date, when it exists and a `Timestamp` can hold it; otherwise a parse
      error. */
  function ParseIsoDate(s: string): (r: Option<CalendarDate>)
    ensures r.Some? ==> InTimestampRange(r.value)
    ensures r.Some? ==> r.value.year < 10000 && FormatIsoDate(r.value) == s
  {
    if |s| != 10 || s[4] != '-' || s[7] != '-' then None
    else
      match (Field(s[..4]), Field(s[5..7]), Field(s[8..]))
      case (Some(y), Some(m), Some(d)) =>
        var date := Date(y, m, d);
        if ValidDate(date) && InTimestampRange(date) then
          IsoSpelling(s, date);
          Some(date)
        else None
      case _ => None
  }

  /** A `YYYY-MM-DD` string of digits is the ISO spelling of its fields. */
  lemma IsoSpelling(s: string, d: CalendarDate)
    requires |s| == 10 && s[4] == '-' && s[7] == '-'
    requires Field(s[..4]) == Some(d.year) && Field(s[5..7]) == Some(d.month) && Field(s[8..]) == Some(d.day)
    ensures d.year < 10000 && FormatIsoDate(d) == s
  {
    FieldSpelling(s[..4], d.year);
    FieldSpelling(s[5..7], d.month);
    FieldSpelling(s[8..], d.day);
    assert Pow10(4) == 10000;
    IsoPieces(s);
  }

  /** A field is the zero-padded spelling of the number it reads as. */
  lemma FieldSpelling(t: string, n: nat)
    requires Field(t) == Some(n)
    ensures n < Pow10(|t|) && PadDigits(n, |t|) == t
  {
    PaddedSpelling(t);
  }

  lemma IsoPieces(s: string)
    requires |s| == 10 && s[4] == '-' && s[7] == '-'
    ensures s == s[..4] + "-" + s[5..7] + "-" + s[8..]
  {
    var t := s[..4] + "-" + s[5..7] + "-" + s[8..];
    assert |t| == 10;
    forall k | 0 <= k < 10 ensures t[k] == s[k] {
    }
  }

  /** The ISO spelling of a date with a four-digit year. */
  function FormatIsoDate(d: CalendarDate): (s: string)
    requires d.year < 10000
    ensures |s| == 10
  {
    PadDigits(d.year, 4) + "-" + PadDigits(d.month, 2) + "-" + PadDigits(d.day, 2)
  }

  /** Every representable date is read back from its ISO spelling. */
  lemma IsoRoundTrip(d: CalendarDate)
    requires InTimestampRange(d)
    ensures ParseIsoDate(FormatIsoDate(d)) == Some(d)
  {
    assert Pow10(4) == 10000 && Pow10(2) == 100;
    var y, m, dd := PadDigits(d.year, 4), PadDigits(d.month, 2), PadDigits(d.day, 2);
    var s := FormatIsoDate(d);
    assert s[..4] == y;
    assert s[5..7] == m;
    assert s[8..] == dd;
  }
}
