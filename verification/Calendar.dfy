/**
 The Gregorian day count behind the date parser of doc/swagger/lib/es5-shim.js:
 a closed form, compared with the sum of the lengths of years and months.
 */
module Calendar {

  // ----- the calendar -----

  predicate Leap(y: int) {
    y % 4 == 0 && (y % 100 != 0 || y % 400 == 0)
  }

  function YearLength(y: int): nat {
    if Leap(y) then 366 else 365
  }

  /** Months are counted from 0. */
  function MonthLength(y: int, m: nat): (n: nat)
    requires m < 12
    ensures 28 <= n <= 31
  {
    if m == 1 then if Leap(y) then 29 else 28
    else if m == 3 || m == 5 || m == 8 || m == 10 then 30
    else 31
  }

  /** Days from 1970-01-01 to the first day of a year, year by year. */
  function YearStart(y: int): int
    decreases if y >= 1970 then y - 1970 else 1970 - y
  {
    if y == 1970 then 0
    else if y > 1970 then YearStart(y - 1) + YearLength(y - 1)
    else YearStart(y + 1) - YearLength(y)
  }

  /** Days from the first day of a year to the first day of a month, month by month. */
  function MonthStart(y: int, m: nat): nat
    requires m <= 12
  {
    if m == 0 then 0 else MonthStart(y, m - 1) + MonthLength(y, m - 1)
  }

  // ----- the closed form -----

  const MONTHS: seq<nat> := [0, 31, 59, 90, 120, 151, 181, 212, 243, 273, 304, 334, 365]

  /** dayFromMonth; division rounds down, as Math.floor does. */
  function DayFromMonth(year: int, month: nat): int
    requires month <= 12
  {
    var t := if month > 1 then 1 else 0;
    MONTHS[month] + (year - 1969 + t) / 4 - (year - 1901 + t) / 100 + (year - 1601 + t) / 400 + 365 * (year - 1970)
  }

  function One(b: bool): nat {
    if b then 1 else 0
  }

  lemma {:induction false} LeapDays(y: int)
    ensures (y - 1968) / 4 - (y - 1900) / 100 + (y - 1600) / 400
         == (y - 1969) / 4 - (y - 1901) / 100 + (y - 1601) / 400 + One(Leap(y))
  {
    FloorStep(y - 1968, 4);
    FloorStep(y - 1900, 100);
    FloorStep(y - 1600, 400);
    LeapRemainders(y);
  }

  lemma {:induction false} LeapRemainders(y: int)
    ensures One(Leap(y)) == One((y - 1968) % 4 == 0) - One((y - 1900) % 100 == 0) + One((y - 1600) % 400 == 0)
  {
    Divides(y, 492, 4);
    Divides(y, 19, 100);
    Divides(y, 4, 400);
    Multiple(y);
  }

  lemma {:induction false} Multiple(y: int)
    ensures y % 400 == 0 ==> y % 100 == 0
    ensures y % 100 == 0 ==> y % 4 == 0
  {
    if y % 400 == 0 {
      var q := y / 400;
      assert y == (4 * q) * 100;
    }
    if y % 100 == 0 {
      var q := y / 100;
      assert y == (25 * q) * 4;
    }
  }

  lemma {:induction false} Divides(y: int, k: int, n: int)
    requires n == 4 || n == 100 || n == 400
    ensures (y - k * n) % n == y % n
  {
  }

  lemma {:induction false} FloorStep(a: int, n: int)
    requires n == 4 || n == 100 || n == 400
    ensures a / n == (a - 1) / n + One(a % n == 0)
  {
  }

  lemma {:induction false} YearStep(y: int)
    ensures DayFromMonth(y + 1, 0) == DayFromMonth(y, 0) + YearLength(y)
  {
    LeapDays(y);
  }

  lemma {:induction false} FebruaryStep(y: int, m: nat)
    requires m <= 12
    ensures DayFromMonth(y, m) == DayFromMonth(y, 0) + MONTHS[m] + One(m > 1 && Leap(y))
  {
    LeapDays(y);
  }

  lemma {:induction false} YearStartClosed(y: int)
    ensures DayFromMonth(y, 0) == YearStart(y)
    decreases if y >= 1970 then y - 1970 else 1970 - y
  {
    if y > 1970 {
      YearStartClosed(y - 1);
      YearStep(y - 1);
    } else if y < 1970 {
      YearStartClosed(y + 1);
      YearStep(y);
    }
  }

  /** The table of months, with a day added after February in leap years. */
  lemma {:induction false} MonthStartTable(y: int, m: nat)
    requires m <= 12
    ensures MonthStart(y, m) == MONTHS[m] + One(m > 1 && Leap(y))
  {
    if m > 0 {
      MonthStartTable(y, m - 1);
    }
  }

  /** The closed form counts days, for every year, before 1970 and before year 0 too. */
  lemma {:induction false} DayFromMonthCounts(y: int, m: nat)
    requires m <= 12
    ensures DayFromMonth(y, m) == YearStart(y) + MonthStart(y, m)
  {
    YearStartClosed(y);
    FebruaryStep(y, m);
    MonthStartTable(y, m);
  }

  /** The parser's test of the day of the month. */
  lemma {:induction false} MonthLengthByDifference(y: int, m: nat)
    requires m < 12
    ensures DayFromMonth(y, m + 1) - DayFromMonth(y, m) == MonthLength(y, m)
  {
    DayFromMonthCounts(y, m);
    DayFromMonthCounts(y, m + 1);
  }

  // ----- dates and moments -----

  /** Month and day are counted from 0. */
  datatype Moment = Moment(year: int, month: nat, day: nat, hour: nat, minute: nat, second: nat, ms: nat)

  predicate ValidDate(year: int, month: nat, day: nat) {
    month < 12 && day < MonthLength(year, month)
  }

  predicate Valid(m: Moment) {
    ValidDate(m.year, m.month, m.day) && m.hour < 24 && m.minute < 60 && m.second < 60 && m.ms < 1000
  }

  function Day(m: Moment): int
    requires m.month < 12
  {
    YearStart(m.year) + MonthStart(m.year, m.month) + m.day
  }

  function Clock(m: Moment): nat {
    ((m.hour * 60 + m.minute) * 60 + m.second) * 1000 + m.ms
  }

  /** The time value, as the parser adds it up. */
  function TimeOf(m: Moment): int
    requires m.month < 12
  {
    ((((DayFromMonth(m.year, m.month) + m.day) * 24 + m.hour) * 60 + m.minute) * 60 + m.second) * 1000 + m.ms
  }

  lemma {:induction false} TimeOfDay(m: Moment)
    requires m.month < 12
    ensures TimeOf(m) == 86400000 * Day(m) + Clock(m)
  {
    DayFromMonthCounts(m.year, m.month);
  }

  predicate Earlier(a: Moment, b: Moment) {
    if a.year != b.year then a.year < b.year
    else if a.month != b.month then a.month < b.month
    else if a.day != b.day then a.day < b.day
    else if a.hour != b.hour then a.hour < b.hour
    else if a.minute != b.minute then a.minute < b.minute
    else if a.second != b.second then a.second < b.second
    else a.ms < b.ms
  }

  lemma {:induction false} YearStartMonotone(a: int, b: int)
    requires a <= b
    ensures YearStart(a) + 365 * (b - a) <= YearStart(b)
    decreases b - a
  {
    if a < b {
      YearStartMonotone(a + 1, b);
      YearStartStep(a);
    }
  }

  lemma {:induction false} YearStartStep(y: int)
    ensures YearStart(y + 1) == YearStart(y) + YearLength(y)
  {
  }

  lemma {:induction false} MonthStartMonotone(y: int, a: nat, b: nat)
    requires a <= b <= 12
    ensures MonthStart(y, a) <= MonthStart(y, b)
    decreases b - a
  {
    if a < b {
      MonthStartMonotone(y, a + 1, b);
    }
  }

  /** A valid date lies in its year. */
  lemma {:induction false} DayInYear(m: Moment)
    requires ValidDate(m.year, m.month, m.day)
    ensures YearStart(m.year) <= Day(m) < YearStart(m.year + 1)
  {
    MonthStartMonotone(m.year, m.month + 1, 12);
    MonthStartTable(m.year, 12);
    YearStartStep(m.year);
  }

  lemma {:induction false} EarlierDay(a: Moment, b: Moment)
    requires ValidDate(a.year, a.month, a.day) && ValidDate(b.year, b.month, b.day)
    requires if a.year != b.year then a.year < b.year
             else if a.month != b.month then a.month < b.month
             else a.day < b.day
    ensures Day(a) < Day(b)
  {
    if a.year < b.year {
      DayInYear(a);
      DayInYear(b);
      YearStartMonotone(a.year + 1, b.year);
    } else if a.month < b.month {
      MonthStartMonotone(a.year, a.month + 1, b.month);
    }
  }

  lemma {:induction false} EarlierTime(a: Moment, b: Moment)
    requires Valid(a) && Valid(b) && Earlier(a, b)
    ensures TimeOf(a) < TimeOf(b)
  {
    TimeOfDay(a);
    TimeOfDay(b);
    if !(a.year == b.year && a.month == b.month && a.day == b.day) {
      EarlierDay(a, b);
    }
  }

  /** Time values are ordered as the fields are, lexicographically. */
  lemma {:induction false} TimeOrder(a: Moment, b: Moment)
    requires Valid(a) && Valid(b)
    ensures TimeOf(a) < TimeOf(b) <==> Earlier(a, b)
    ensures TimeOf(a) == TimeOf(b) <==> a == b
  {
    if Earlier(a, b) {
      EarlierTime(a, b);
    } else if Earlier(b, a) {
      EarlierTime(b, a);
    }
  }

  /** Midnight at the start of the day after. */
  function NextDay(m: Moment): Moment
    requires ValidDate(m.year, m.month, m.day)
  {
    if m.day + 1 < MonthLength(m.year, m.month) then Moment(m.year, m.month, m.day + 1, 0, 0, 0, 0)
    else if m.month + 1 < 12 then Moment(m.year, m.month + 1, 0, 0, 0, 0, 0)
    else Moment(m.year + 1, 0, 0, 0, 0, 0, 0)
  }

  lemma {:induction false} NextDayNumber(m: Moment)
    requires ValidDate(m.year, m.month, m.day)
    ensures Valid(NextDay(m)) && Day(NextDay(m)) == Day(m) + 1
  {
    if m.day + 1 < MonthLength(m.year, m.month) {
    } else if m.month + 1 < 12 {
      assert MonthStart(m.year, m.month + 1) == MonthStart(m.year, m.month) + MonthLength(m.year, m.month);
    } else {
      MonthStartTable(m.year, 12);
      YearStartStep(m.year);
    }
  }

  /** 24:00 is the next day's 00:00, at the end of a month and of a year too. */
  lemma {:induction false} EndOfDay(m: Moment)
    requires ValidDate(m.year, m.month, m.day) && m.hour == 24 && m.minute == 0 && m.second == 0 && m.ms == 0
    ensures Valid(NextDay(m)) && TimeOf(m) == TimeOf(NextDay(m))
  {
    NextDayNumber(m);
    TimeOfDay(m);
    TimeOfDay(NextDay(m));
  }

  // ----- the fields of a time value -----

  function YearFrom(y: int, day: int): (r: int)
    ensures YearStart(r) <= day < YearStart(r + 1)
    decreases if day < YearStart(y) then YearStart(y) - day
              else if day >= YearStart(y + 1) then day - YearStart(y)
              else 0
  {
    YearStartStep(y);
    YearStartStep(y - 1);
    YearStartStep(y + 1);
    if day < YearStart(y) then YearFrom(y - 1, day)
    else if day >= YearStart(y + 1) then YearFrom(y + 1, day)
    else y
  }

  function MonthFrom(y: int, m: nat, dayInYear: nat): (r: nat)
    requires m < 12 && MonthStart(y, m) <= dayInYear < MonthStart(y, 12)
    ensures r < 12 && MonthStart(y, r) <= dayInYear < MonthStart(y, r + 1)
    decreases 12 - m
  {
    if dayInYear < MonthStart(y, m + 1) then m else MonthFrom(y, m + 1, dayInYear)
  }

  /** The fields that the getters of section 15.9.1 of ECMA-262 5.1 give for a time value. */
  function FieldsOf(t: int): (m: Moment)
    ensures Valid(m) && TimeOf(m) == t
  {
    var day, clock := t / 86400000, t % 86400000;
    var year := YearFrom(1970, day);
    var dayInYear := day - YearStart(year);
    YearStartStep(year);
    MonthStartTable(year, 12);
    var month := MonthFrom(year, 0, dayInYear);
    var m := Moment(year, month, dayInYear - MonthStart(year, month),
                    clock / 3600000, clock / 60000 % 60, clock / 1000 % 60, clock % 1000);
    ClockFields(clock);
    TimeOfDay(m);
    m
  }

  lemma {:induction false} ClockFields(clock: nat)
    requires clock < 86400000
    ensures clock / 3600000 < 24
    ensures ((clock / 3600000 * 60 + clock / 60000 % 60) * 60 + clock / 1000 % 60) * 1000 + clock % 1000 == clock
  {
    var seconds := clock / 1000;
    assert clock == seconds * 1000 + clock % 1000;
    var minutes := seconds / 60;
    assert minutes == clock / 60000;
    assert minutes / 60 == clock / 3600000;
  }

  /** They are the only fields with that time value. */
  lemma {:induction false} FieldsUnique(m: Moment)
    requires Valid(m)
    ensures FieldsOf(TimeOf(m)) == m
  {
    TimeOrder(FieldsOf(TimeOf(m)), m);
  }

  /** Within the range of dates, years have at most six digits. */
  lemma {:induction false} YearBound(t: int)
    requires -8640000000000000 <= t <= 8640000000000000
    ensures -999999 <= FieldsOf(t).year <= 999999
  {
    var m := FieldsOf(t);
    TimeOfDay(m);
    DayInYear(m);
    if m.year > 999999 {
      YearStartMonotone(1970, m.year);
    } else if m.year < -999999 {
      YearStartMonotone(m.year + 1, 1970);
    }
  }
}
