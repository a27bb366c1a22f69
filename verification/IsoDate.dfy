/**
 Date.prototype.toISOString and Date.parse of doc/swagger/lib/es5-shim.js: the
 date-time strings of section 15.9.1.15 of ECMA-262 5.1, printed and read back.
 */
module IsoDate {
  import opened Wrappers
  import opened Decimal
  import opened Calendar

  /** A number of milliseconds since 1970, or NaN. */
  datatype TimeValue = NotATime | Time(t: int)

  // ----- the strings that isoDateExpression matches -----

  datatype Zone = NoZone | Utc | Offset(sign: char, hours: string, minutes: string)

  /** The fraction is empty or starts with a point. */
  datatype Seconds = NoSeconds | Seconds(second: string, fraction: string)

  datatype ClockPart = NoClock | ClockPart(hour: string, minute: string, seconds: Seconds, zone: Zone)

  datatype DatePart = YearOnly | ToMonth(month: string) | ToDay(month: string, day: string, clock: ClockPart)

  /** The capture groups of a match. */
  datatype Groups = Groups(year: string, date: DatePart)

  predicate TwoDigits(s: string) {
    |s| == 2 && AllDigits(s)
  }

  predicate YearText(s: string) {
    || (|s| == 4 && AllDigits(s))
    || (|s| == 7 && (s[0] == '+' || s[0] == '-') && AllDigits(s[1..]))
  }

  predicate FractionText(s: string) {
    s == "" || (|s| >= 2 && s[0] == '.' && AllDigits(s[1..]))
  }

  predicate ZoneOk(z: Zone) {
    z.Offset? ==> (z.sign == '+' || z.sign == '-') && TwoDigits(z.hours) && TwoDigits(z.minutes)
  }

  predicate SecondsOk(s: Seconds) {
    s.Seconds? ==> TwoDigits(s.second) && FractionText(s.fraction)
  }

  predicate ClockOk(c: ClockPart) {
    c.ClockPart? ==> TwoDigits(c.hour) && TwoDigits(c.minute) && SecondsOk(c.seconds) && ZoneOk(c.zone)
  }

  predicate DateOk(d: DatePart) {
    && (d.ToMonth? ==> TwoDigits(d.month))
    && (d.ToDay? ==> TwoDigits(d.month) && TwoDigits(d.day) && ClockOk(d.clock))
  }

  predicate GroupsOk(g: Groups) {
    YearText(g.year) && DateOk(g.date)
  }

  function ZoneTextOf(z: Zone): string {
    match z
    case NoZone => ""
    case Utc => "Z"
    case Offset(sign, hours, minutes) => [sign] + hours + ([':'] + minutes)
  }

  function SecondsTextOf(s: Seconds): string {
    if s.NoSeconds? then "" else [':'] + s.second + s.fraction
  }

  function ClockTextOf(c: ClockPart): string {
    if c.NoClock? then ""
    else ['T'] + c.hour + ([':'] + c.minute + (SecondsTextOf(c.seconds) + ZoneTextOf(c.zone)))
  }

  function DateTextOf(d: DatePart): string {
    match d
    case YearOnly => ""
    case ToMonth(month) => ['-'] + month + ""
    case ToDay(month, day, clock) => ['-'] + month + (['-'] + day + ClockTextOf(clock))
  }

  /** The string that a match came from. */
  function TextOf(g: Groups): string {
    g.year + DateTextOf(g.date)
  }

  // ----- matching -----

  /** A separator and two digits. */
  predicate FieldAt(c: char, s: string) {
    |s| >= 3 && s[0] == c && AllDigits(s[1..3])
  }

  function DigitPrefix(s: string): (n: nat)
    ensures n <= |s| && AllDigits(s[..n]) && (n < |s| ==> !IsDigit(s[n]))
  {
    if s == "" || !IsDigit(s[0]) then 0
    else
      var n := DigitPrefix(s[1..]);
      assert forall i | 0 < i < 1 + n :: s[i] == s[1..][..n][i - 1];
      1 + n
  }

  function MatchZone(s: string): Option<Zone> {
    if s == "" then Some(NoZone)
    else if s == "Z" then Some(Utc)
    else if |s| == 6 && (s[0] == '+' || s[0] == '-') && AllDigits(s[1..3]) && FieldAt(':', s[3..])
    then Some(Offset(s[0], s[1..3], s[4..6]))
    else None
  }

  /** The seconds and the length of their text. */
  function MatchSeconds(s: string): (r: (Seconds, nat))
    ensures r.1 <= |s|
  {
    if !FieldAt(':', s) then (NoSeconds, 0)
    else if |s| > 3 && s[3] == '.' && DigitPrefix(s[4..]) > 0 then
      var end := 4 + DigitPrefix(s[4..]);
      (Seconds(s[1..3], s[3..end]), end)
    else (Seconds(s[1..3], ""), 3)
  }

  function MatchClock(s: string): Option<ClockPart> {
    if s == "" then Some(NoClock)
    else if FieldAt('T', s) && FieldAt(':', s[3..]) then
      var (seconds, n) := MatchSeconds(s[6..]);
      match MatchZone(s[6..][n..])
      case None => None
      case Some(zone) => Some(ClockPart(s[1..3], s[4..6], seconds, zone))
    else None
  }

  function MatchDate(s: string): Option<DatePart> {
    if s == "" then Some(YearOnly)
    else if !FieldAt('-', s) then None
    else if |s| == 3 then Some(ToMonth(s[1..]))
    else if FieldAt('-', s[3..]) then
      match MatchClock(s[6..])
      case None => None
      case Some(clock) => Some(ToDay(s[1..3], s[4..6], clock))
    else None
  }

  function YearLengthAt(s: string): (n: nat)
    ensures n <= |s| && (n > 0 ==> YearText(s[..n]))
  {
    if |s| >= 4 && AllDigits(s[..4]) then 4
    else if |s| >= 7 && (s[0] == '+' || s[0] == '-') && AllDigits(s[1..7]) then
      assert s[..7][1..] == s[1..7];
      7
    else 0
  }

  /** isoDateExpression.exec */
  function Match(s: string): Option<Groups> {
    var n := YearLengthAt(s);
    if n == 0 then None
    else match MatchDate(s[n..])
      case None => None
      case Some(date) => Some(Groups(s[..n], date))
  }

  // ----- matching inverts the text of the groups -----

  lemma {:induction false} FieldText(c: char, d: string, rest: string)
    requires TwoDigits(d)
    ensures var s := [c] + d + rest;
            FieldAt(c, s) && s[1..3] == d && s[3..] == rest
  {
    var s := [c] + d + rest;
    assert s[1..3] == d;
  }

  lemma {:induction false} FieldSplit(c: char, s: string)
    requires FieldAt(c, s)
    ensures s == [c] + s[1..3] + s[3..] && TwoDigits(s[1..3])
  {
  }

  lemma {:induction false} ZoneMatches(s: string, z: Zone)
    ensures MatchZone(s) == Some(z) <==> ZoneOk(z) && s == ZoneTextOf(z)
  {
    if ZoneOk(z) && s == ZoneTextOf(z) && z.Offset? {
      FieldText(z.sign, z.hours, [':'] + z.minutes);
      FieldText(':', z.minutes, "");
      assert [':'] + z.minutes + "" == [':'] + z.minutes;
      assert s[4..6] == z.minutes;
    }
    if MatchZone(s) == Some(z) && z.Offset? {
      FieldSplit(':', s[3..]);
      assert s == [s[0]] + s[1..3] + ([':'] + s[4..6]);
    }
  }

  lemma {:induction false} SecondsSound(s: string)
    ensures var (seconds, n) := MatchSeconds(s); SecondsOk(seconds) && s[..n] == SecondsTextOf(seconds)
  {
    if FieldAt(':', s) {
      FieldSplit(':', s);
      var (seconds, n) := MatchSeconds(s);
      if n > 3 {
        assert seconds.fraction[1..] == s[4..][..n - 4];
        assert s[..n] == [':'] + s[1..3] + s[3..n];
      } else {
        assert s[..3] == [':'] + s[1..3] + "";
      }
    }
  }

  lemma {:induction false} DigitPrefixOf(d: string, rest: string)
    requires AllDigits(d) && (rest != "" ==> !IsDigit(rest[0]))
    ensures DigitPrefix(d + rest) == |d|
  {
    if d == "" {
      assert d + rest == rest;
    } else {
      DigitPrefixOf(d[1..], rest);
      assert (d + rest)[1..] == d[1..] + rest;
    }
  }

  lemma {:induction false} ZoneStart(z: Zone)
    requires ZoneOk(z)
    ensures var s := ZoneTextOf(z); s != "" ==> !IsDigit(s[0]) && s[0] != '.' && s[0] != ':'
  {
  }

  lemma {:induction false} NoFraction(second: string, rest: string)
    requires TwoDigits(second) && (rest != "" ==> rest[0] != '.')
    ensures MatchSeconds([':'] + second + rest) == (Seconds(second, ""), 3)
  {
    var s := [':'] + second + rest;
    FieldText(':', second, rest);
    assert |s| > 3 ==> s[3] == s[3..][0];
  }

  /** A point and digits are taken whole before something that is not a digit. */
  lemma {:induction false} WithFraction(second: string, digits: string, rest: string)
    requires TwoDigits(second) && AllDigits(digits) && digits != "" && (rest != "" ==> !IsDigit(rest[0]))
    ensures MatchSeconds([':'] + second + (['.'] + digits + rest)) == (Seconds(second, ['.'] + digits), 4 + |digits|)
  {
    var s := [':'] + second + (['.'] + digits + rest);
    FieldText(':', second, ['.'] + digits + rest);
    DigitPrefixOf(digits, rest);
    assert s[4..] == digits + rest;
    assert s[3] == s[3..][0] == '.';
    assert s[3..4 + |digits|] == ['.'] + digits;
  }

  lemma {:induction false} SecondsBefore(second: string, fraction: string, rest: string)
    requires TwoDigits(second) && FractionText(fraction)
    requires rest != "" ==> !IsDigit(rest[0]) && rest[0] != '.'
    ensures MatchSeconds([':'] + second + fraction + rest) == (Seconds(second, fraction), 3 + |fraction|)
  {
    if fraction == "" {
      NoFraction(second, rest);
      assert [':'] + second + fraction + rest == [':'] + second + rest;
    } else {
      WithFraction(second, fraction[1..], rest);
      assert ['.'] + fraction[1..] == fraction;
      assert [':'] + second + fraction + rest == [':'] + second + (fraction + rest);
    }
  }

  lemma {:induction false} SecondsComplete(seconds: Seconds, z: Zone)
    requires SecondsOk(seconds) && ZoneOk(z)
    ensures var s := SecondsTextOf(seconds) + ZoneTextOf(z);
            MatchSeconds(s) == (seconds, |SecondsTextOf(seconds)|)
  {
    var zone := ZoneTextOf(z);
    var s := SecondsTextOf(seconds) + zone;
    ZoneStart(z);
    if seconds.NoSeconds? {
      assert s == zone;
    } else {
      SecondsBefore(seconds.second, seconds.fraction, zone);
    }
  }

  lemma {:induction false} ClockMatches(s: string, c: ClockPart)
    ensures MatchClock(s) == Some(c) <==> ClockOk(c) && s == ClockTextOf(c)
  {
    if ClockOk(c) && s == ClockTextOf(c) && c.ClockPart? {
      ClockComplete(c);
    }
    if MatchClock(s) == Some(c) && c.ClockPart? {
      ClockSound(s, c);
    }
  }

  lemma {:induction false} ClockComplete(c: ClockPart)
    requires ClockOk(c) && c.ClockPart?
    ensures MatchClock(ClockTextOf(c)) == Some(c)
  {
    var s, tail := ClockTextOf(c), SecondsTextOf(c.seconds) + ZoneTextOf(c.zone);
    FieldText('T', c.hour, [':'] + c.minute + tail);
    FieldText(':', c.minute, tail);
    assert s[4..6] == s[3..][1..3] && s[6..] == s[3..][3..] == tail;
    SecondsComplete(c.seconds, c.zone);
    var n := |SecondsTextOf(c.seconds)|;
    assert tail[n..] == ZoneTextOf(c.zone);
    ZoneMatches(ZoneTextOf(c.zone), c.zone);
  }

  lemma {:induction false} ClockSound(s: string, c: ClockPart)
    requires MatchClock(s) == Some(c) && c.ClockPart?
    ensures ClockOk(c) && s == ClockTextOf(c)
  {
    FieldSplit('T', s);
    FieldSplit(':', s[3..]);
    TailSplit(s);
    TailSound(s[6..], c.seconds, c.zone);
  }

  lemma {:induction false} TailSplit(s: string)
    requires |s| >= 6
    ensures s[3..][1..3] == s[4..6] && s[3..][3..] == s[6..]
  {
  }

  lemma {:induction false} TailSound(tail: string, seconds: Seconds, zone: Zone)
    requires MatchSeconds(tail).0 == seconds && MatchZone(tail[MatchSeconds(tail).1..]) == Some(zone)
    ensures SecondsOk(seconds) && ZoneOk(zone) && tail == SecondsTextOf(seconds) + ZoneTextOf(zone)
  {
    SecondsSound(tail);
    var n := MatchSeconds(tail).1;
    ZoneMatches(tail[n..], zone);
    assert tail == tail[..n] + tail[n..];
  }

  lemma {:induction false} DateMatches(s: string, d: DatePart)
    ensures MatchDate(s) == Some(d) <==> DateOk(d) && s == DateTextOf(d)
  {
    if DateOk(d) && s == DateTextOf(d) && !d.YearOnly? {
      DateComplete(d);
    }
    if MatchDate(s) == Some(d) && !d.YearOnly? {
      DateSound(s, d);
    }
  }

  lemma {:induction false} DateComplete(d: DatePart)
    requires DateOk(d) && !d.YearOnly?
    ensures MatchDate(DateTextOf(d)) == Some(d)
  {
    var s := DateTextOf(d);
    if d.ToMonth? {
      FieldText('-', d.month, "");
      assert s[1..] == s[1..3];
    } else {
      var tail := ClockTextOf(d.clock);
      FieldText('-', d.month, ['-'] + d.day + tail);
      FieldText('-', d.day, tail);
      assert s[4..6] == s[3..][1..3] && s[6..] == s[3..][3..] == tail;
      ClockMatches(tail, d.clock);
    }
  }

  lemma {:induction false} DateSound(s: string, d: DatePart)
    requires MatchDate(s) == Some(d) && !d.YearOnly?
    ensures DateOk(d) && s == DateTextOf(d)
  {
    FieldSplit('-', s);
    if d.ToMonth? {
      assert s[1..] == s[1..3] && s[3..] == "";
    } else {
      FieldSplit('-', s[3..]);
      assert s[3..][1..3] == s[4..6] && s[3..][3..] == s[6..];
      ClockMatches(s[6..], d.clock);
    }
  }

  /** The regular expression matches exactly the texts of groups, and each in one way. */
  lemma {:induction false} MatchIffText(s: string, g: Groups)
    ensures Match(s) == Some(g) <==> GroupsOk(g) && s == TextOf(g)
  {
    if GroupsOk(g) && s == TextOf(g) {
      var n := |g.year|;
      assert s[..n] == g.year && s[n..] == DateTextOf(g.date);
      if n == 4 {
        assert s[..4] == g.year;
      } else {
        assert s[0] == g.year[0] && s[1..7] == g.year[1..];
        assert s[..4][0] == g.year[0];
      }
      assert YearLengthAt(s) == n;
      DateMatches(DateTextOf(g.date), g.date);
    }
    if Match(s) == Some(g) {
      var n := YearLengthAt(s);
      DateMatches(s[n..], g.date);
      assert s == s[..n] + s[n..];
    }
  }

  // ----- Date.parse -----

  /** Number(match[1]) */
  function YearValue(s: string): int
    requires YearText(s)
  {
    if |s| == 4 then Read(s) else if s[0] == '-' then 0 - Read(s[1..]) else Read(s[1..])
  }

  /** The first three decimals, which is what is left after rounding a fraction down to thousandths. */
  function Thousandths(digits: string): nat
    requires AllDigits(digits)
  {
    if |digits| > 3 then Thousandths(digits[..|digits| - 1])
    else if |digits| == 3 then Read(digits)
    else if |digits| == 2 then 10 * Read(digits)
    else 100 * Read(digits)
  }

  /** Math.floor(Number(match[7]) * 1000), with the product exact */
  function Milliseconds(fraction: string): nat
    requires FractionText(fraction)
  {
    if fraction == "" then 0 else Thousandths(fraction[1..])
  }

  lemma {:induction false} ThousandthsFloor(digits: string)
    requires AllDigits(digits)
    ensures Thousandths(digits) == Read(digits) * 1000 / Pow(10, |digits|)
  {
    var n, p := |digits|, Pow(10, |digits|);
    if n > 3 {
      var front := digits[..n - 1];
      ThousandthsFloor(front);
      PowAdd(10, 3, n - 4);
      assert Pow(10, 3) == 1000;
      var q, r := Pow(10, n - 4), Read(front);
      assert Pow(10, n - 1) == 1000 * q && p == 10 * Pow(10, n - 1);
      DropDigit(r, DigitValue(digits[n - 1]), q);
    } else {
      assert Pow(10, 0) == 1 && Pow(10, 1) == 10 && Pow(10, 2) == 100 && Pow(10, 3) == 1000;
      assert n == 0 || n == 1 || n == 2 || n == 3;
    }
  }

  lemma {:induction false} DropDigit(r: nat, x: nat, q: nat)
    requires x < 10 && q > 0
    ensures (10 * r + x) * 1000 / (10 * (1000 * q)) == r * 1000 / (1000 * q)
  {
    var k := r / q;
    assert k * q <= r < k * q + q;
    QuotientUnique(r * 1000, 1000 * q, k, 1000 * (r - k * q));
    QuotientUnique((10 * r + x) * 1000, 10 * (1000 * q), k, 1000 * (10 * (r - k * q) + x));
  }

  /** The time of day and the offset that parse computes from the groups. */
  datatype ClockFields = ClockFields(hour: nat, minute: nat, second: nat, ms: nat,
                                     local: bool, sign: int, hourOffset: nat, minuteOffset: nat)

  /** The same with the date; month and day count from 0 and can be -1. */
  datatype Fields = Fields(year: int, month: int, day: int, clock: ClockFields)

  function ClockIn(c: ClockPart): ClockFields
    requires ClockOk(c)
  {
    if c.NoClock? then ClockFields(0, 0, 0, 0, false, -1, 0, 0)
    else
      var second := if c.seconds.NoSeconds? then 0 else Read(c.seconds.second);
      var ms := if c.seconds.NoSeconds? then 0 else Milliseconds(c.seconds.fraction);
      if c.zone.Offset? then
        ClockFields(Read(c.hour), Read(c.minute), second, ms, false,
                    if c.zone.sign == '-' then 1 else -1, Read(c.zone.hours), Read(c.zone.minutes))
      else ClockFields(Read(c.hour), Read(c.minute), second, ms, c.zone.NoZone?, -1, 0, 0)
  }

  function FieldsIn(g: Groups): Fields
    requires GroupsOk(g)
  {
    var year := YearValue(g.year);
    match g.date
    case YearOnly => Fields(year, 0, 0, ClockIn(NoClock))
    case ToMonth(month) => Fields(year, Read(month) - 1, 0, ClockIn(NoClock))
    case ToDay(month, day, clock) => Fields(year, Read(month) - 1, Read(day) - 1, ClockIn(clock))
  }

  /** The test before the time value is computed. */
  predicate Accepted(f: Fields) {
    && f.clock.hour < (if f.clock.minute > 0 || f.clock.second > 0 || f.clock.ms > 0 then 24 else 25)
    && f.clock.minute < 60 && f.clock.second < 60 && f.clock.ms < 1000
    && f.month > -1 && f.month < 12 && f.clock.hourOffset < 24 && f.clock.minuteOffset < 60
    && f.day > -1
    && f.day < DayFromMonth(f.year, f.month + 1) - DayFromMonth(f.year, f.month)
  }

  function TimeIn(f: Fields): int
    requires Accepted(f)
  {
    var minutes := ((DayFromMonth(f.year, f.month) + f.day) * 24 + f.clock.hour
                    + f.clock.hourOffset * f.clock.sign) * 60;
    ((minutes + f.clock.minute + f.clock.minuteOffset * f.clock.sign) * 60 + f.clock.second) * 1000 + f.clock.ms
  }

  const MAX_TIME: int := 8_640_000_000_000_000

  function Clipped(v: TimeValue): TimeValue {
    if v.Time? && -MAX_TIME <= v.t <= MAX_TIME then v else NotATime
  }

  function ParseGroups(g: Groups, toUTC: int -> TimeValue): TimeValue
    requires GroupsOk(g)
  {
    var f := FieldsIn(g);
    if !Accepted(f) then NotATime
    else Clipped(if f.clock.local then toUTC(TimeIn(f)) else Time(TimeIn(f)))
  }

  /** Date.parse; strings that do not match are left to the native parser. */
  function Parse(s: string, toUTC: int -> TimeValue, native: string -> TimeValue): TimeValue {
    match Match(s)
    case None => native(s)
    case Some(g) =>
      MatchIffText(s, g);
      ParseGroups(g, toUTC)
  }

  // ----- what parse accepts and computes -----

  function MomentIn(f: Fields): Moment
    requires 0 <= f.month && 0 <= f.day
  {
    Moment(f.year, f.month, f.day, f.clock.hour, f.clock.minute, f.clock.second, f.clock.ms)
  }

  predicate EndsDay(f: Fields) {
    f.clock.hour == 24 && f.clock.minute == 0 && f.clock.second == 0 && f.clock.ms == 0
  }

  /**
   Accepted are the fields of a day of the calendar, at a time of that day or at
   its end, with an offset below 24 hours; the value is the local time less the
   offset, and at the end of a day it is the next day's midnight.
   */
  lemma {:induction false} ParseMeaning(f: Fields)
    ensures Accepted(f)
       <==> && f.month >= 0 && f.day >= 0 && ValidDate(f.year, f.month, f.day)
            && (Valid(MomentIn(f)) || EndsDay(f))
            && f.clock.hourOffset < 24 && f.clock.minuteOffset < 60
    ensures Accepted(f) ==>
              TimeIn(f) + (f.clock.hourOffset * 60 + f.clock.minuteOffset) * 60000 * -f.clock.sign
              == if EndsDay(f) then TimeOf(NextDay(MomentIn(f))) else TimeOf(MomentIn(f))
  {
    if 0 <= f.month < 12 {
      MonthLengthByDifference(f.year, f.month);
    }
    if Accepted(f) {
      TimeLessOffset(f);
      if EndsDay(f) {
        EndOfDay(MomentIn(f));
      }
    }
  }

  lemma {:induction false} TimeLessOffset(f: Fields)
    requires Accepted(f)
    ensures TimeIn(f) + (f.clock.hourOffset * 60 + f.clock.minuteOffset) * 60000 * -f.clock.sign == TimeOf(MomentIn(f))
  {
    var days := DayFromMonth(f.year, f.month) + f.day;
    OffsetApart(days, f.clock.hour, f.clock.minute, f.clock.second, f.clock.ms, f.clock.sign, f.clock.hourOffset,
                f.clock.minuteOffset);
  }

  lemma {:induction false} OffsetApart(days: int, hour: int, minute: int, second: int, ms: int, sign: int, hours: int,
                                       minutes: int)
    ensures ((((days * 24 + hour + hours * sign) * 60 + minute + minutes * sign) * 60 + second) * 1000 + ms)
            + (hours * 60 + minutes) * 60000 * -sign
         == (((days * 24 + hour) * 60 + minute) * 60 + second) * 1000 + ms
  {
    var h, m := hours * sign, minutes * sign;
    calc {
      (hours * 60 + minutes) * 60000 * -sign;
      (hours * 60 + minutes) * sign * -60000;
      { Distribute(hours * 60, minutes, sign); }
      (hours * 60 * sign + minutes * sign) * -60000;
      { assert hours * 60 * sign == 60 * h; }
      (60 * h + m) * -60000;
    }
  }

  lemma {:induction false} Distribute(a: int, b: int, c: int)
    ensures (a + b) * c == a * c + b * c
  {
  }

  /** With the same offset, parsed times are ordered as the fields are, lexicographically. */
  lemma {:induction false} ParseOrder(f: Fields, g: Fields)
    requires Accepted(f) && Accepted(g) && f.clock.hour < 24 && g.clock.hour < 24
    requires f.clock.sign == g.clock.sign
    requires f.clock.hourOffset == g.clock.hourOffset && f.clock.minuteOffset == g.clock.minuteOffset
    ensures TimeIn(f) < TimeIn(g) <==> Earlier(MomentIn(f), MomentIn(g))
    ensures TimeIn(f) == TimeIn(g) <==> MomentIn(f) == MomentIn(g)
  {
    ParseMeaning(f);
    ParseMeaning(g);
    TimeOrder(MomentIn(f), MomentIn(g));
  }

  // ----- toISOString -----

  /** strSlice(s, -n) */
  function LastChars(s: string, n: nat): string {
    if n <= |s| then s[|s| - n..] else s
  }

  function Pad(zeros: string, n: nat, width: nat): string {
    LastChars(zeros + Show(n), width)
  }

  function TwoDigit(n: nat): string {
    Pad("00", n, 2)
  }

  function YearString(year: int): string {
    var size := if year < 0 then -year else year;
    (if year < 0 then "-" else if year > 9999 then "+" else "")
    + Pad("00000", size, if 0 <= year <= 9999 then 4 else 6)
  }

  /** The groups of the string for a moment. */
  function IsoGroups(m: Moment): Groups {
    Groups(YearString(m.year),
           ToDay(TwoDigit(m.month + 1), TwoDigit(m.day + 1),
                 ClockPart(TwoDigit(m.hour), TwoDigit(m.minute),
                           Seconds(TwoDigit(m.second), ['.'] + Pad("000", m.ms, 3)), Utc)))
  }

  function Joined(parts: seq<string>, c: char): string {
    if parts == [] then "" else if |parts| == 1 then parts[0] else parts[0] + [c] + Joined(parts[1..], c)
  }

  /** Date.prototype.toISOString; a date whose time value is NaN is a RangeError. */
  method ToISOString(v: TimeValue) returns (r: Option<string>)
    ensures r.None? <==> v.NotATime?
    ensures v.Time? ==> r == Some(TextOf(IsoGroups(FieldsOf(v.t))))
  {
    if v.NotATime? {
      return None;
    }
    var m := FieldsOf(v.t);
    var s := MomentString(m);
    return Some(s);
  }

  method MomentString(m: Moment) returns (s: string)
    requires Valid(m)
    ensures s == TextOf(IsoGroups(m))
  {
    var month, year := (m.month % 12 + 12) % 12, m.year + m.month / 12;
    assert year == m.year && month == m.month;
    var numbers := [month + 1, m.day + 1, m.hour, m.minute, m.second];
    var result := PaddedFields(numbers);
    s := Assemble(YearString(year), result, Pad("000", m.ms, 3));
    PaddedGroups(m, numbers, result);
  }

  lemma {:induction false} PaddedGroups(m: Moment, numbers: seq<nat>, result: seq<string>)
    requires numbers == [m.month + 1, m.day + 1, m.hour, m.minute, m.second]
    requires |result| == 5 && forall j | 0 <= j < 5 :: result[j] == TwoDigit(numbers[j])
    ensures AssembledGroups(YearString(m.year), result, Pad("000", m.ms, 3)) == IsoGroups(m)
  {
  }

  function AssembledGroups(year: string, result: seq<string>, ms: string): Groups
    requires |result| == 5
  {
    Groups(year, ToDay(result[0], result[1], ClockPart(result[2], result[3], Seconds(result[4], ['.'] + ms), Utc)))
  }

  method Assemble(year: string, result: seq<string>, ms: string) returns (s: string)
    requires |result| == 5
    ensures s == TextOf(AssembledGroups(year, result, ms))
  {
    s := year + "-" + Joined(result[..2], '-') + "T" + Joined(result[2..], ':') + "." + ms + "Z";
    JoinedTwo(result[..2], '-');
    JoinedThree(result[2..], ':');
    IsoText(year, result[0], result[1], result[2], result[3], result[4], ms);
  }

  method PaddedFields(numbers: seq<nat>) returns (result: seq<string>)
    ensures |result| == |numbers| && forall j | 0 <= j < |numbers| :: result[j] == TwoDigit(numbers[j])
  {
    result := [];
    var i := 0;
    while i < |numbers|
      invariant i <= |numbers| && |result| == i
      invariant forall j | 0 <= j < i :: result[j] == TwoDigit(numbers[j])
    {
      result := result + [TwoDigit(numbers[i])];
      i := i + 1;
    }
  }

  lemma {:induction false} JoinedTwo(parts: seq<string>, c: char)
    requires |parts| == 2
    ensures Joined(parts, c) == parts[0] + [c] + parts[1]
  {
  }

  lemma {:induction false} JoinedThree(parts: seq<string>, c: char)
    requires |parts| == 3
    ensures Joined(parts, c) == parts[0] + [c] + (parts[1] + [c] + parts[2])
  {
    JoinedTwo(parts[1..], c);
  }

  lemma {:induction false} IsoText(year: string, month: string, day: string, hour: string, minute: string,
                                   second: string, ms: string)
    ensures year + "-" + (month + "-" + day) + "T" + (hour + ":" + (minute + ":" + second)) + "." + ms + "Z"
         == TextOf(Groups(year, ToDay(month, day, ClockPart(hour, minute, Seconds(second, ['.'] + ms), Utc))))
  {
    var seconds := Seconds(second, ['.'] + ms);
    assert SecondsTextOf(seconds) + ZoneTextOf(Utc) == ":" + second + "." + ms + "Z";
    var clock := ClockPart(hour, minute, seconds, Utc);
    assert ClockTextOf(clock) == "T" + (hour + ":" + (minute + ":" + second)) + "." + ms + "Z";
  }

  // ----- the round trip -----

  lemma {:induction false} PadReads(zeros: string, n: nat, width: nat)
    requires zeros == Zeros(|zeros|) && 0 < width <= |zeros| + 1 && n < Pow(10, width)
    ensures var p := Pad(zeros, n, width);
            |p| == width && AllDigits(p) && Read(p) == n
  {
    ShowLength(n, width);
    var k := width - |Show(n)|;
    assert Pad(zeros, n, width) == Zeros(k) + Show(n);
    ReadPadded(k, Show(n));
  }

  lemma {:induction false} YearReads(year: int)
    requires -999999 <= year <= 999999
    ensures YearText(YearString(year)) && YearValue(YearString(year)) == year
  {
    var size := if year < 0 then -year else year;
    assert "00000" == Zeros(5);
    assert Pow(10, 4) == 10000 && Pow(10, 6) == 1000000;
    if 0 <= year <= 9999 {
      PadReads("00000", size, 4);
      assert "" + Pad("00000", size, 4) == Pad("00000", size, 4);
    } else {
      PadReads("00000", size, 6);
      assert YearString(year)[1..] == Pad("00000", size, 6);
    }
  }

  lemma {:induction false} TwoDigitsRead(n: nat)
    requires n < 100
    ensures TwoDigits(TwoDigit(n)) && Read(TwoDigit(n)) == n
  {
    assert "00" == Zeros(2) && Pow(10, 2) == 100;
    PadReads("00", n, 2);
  }

  lemma {:induction false} MillisecondsRead(n: nat)
    requires n < 1000
    ensures FractionText(['.'] + Pad("000", n, 3)) && Milliseconds(['.'] + Pad("000", n, 3)) == n
  {
    assert "000" == Zeros(3) && Pow(10, 3) == 1000;
    PadReads("000", n, 3);
    assert (['.'] + Pad("000", n, 3))[1..] == Pad("000", n, 3);
    assert n * 1000 / 1000 == n;
  }

  function UtcClock(m: Moment): ClockFields {
    ClockFields(m.hour, m.minute, m.second, m.ms, false, -1, 0, 0)
  }

  lemma {:induction false} UtcClockRead(m: Moment, c: ClockPart)
    requires c.ClockPart? && c.zone.Utc? && c.seconds.Seconds? && ClockOk(c)
    requires Read(c.hour) == m.hour && Read(c.minute) == m.minute
    requires Read(c.seconds.second) == m.second && Milliseconds(c.seconds.fraction) == m.ms
    ensures ClockIn(c) == UtcClock(m)
  {
  }

  lemma {:induction false} DateRead(m: Moment, g: Groups)
    requires GroupsOk(g) && g.date.ToDay? && ClockIn(g.date.clock) == UtcClock(m)
    requires YearValue(g.year) == m.year && Read(g.date.month) == m.month + 1 && Read(g.date.day) == m.day + 1
    ensures FieldsIn(g) == Fields(m.year, m.month, m.day, UtcClock(m))
  {
  }

  lemma {:induction false} IsoClockRead(m: Moment)
    requires Valid(m)
    ensures var c := IsoGroups(m).date.clock; ClockOk(c) && ClockIn(c) == UtcClock(m)
  {
    TwoDigitsRead(m.hour);
    TwoDigitsRead(m.minute);
    TwoDigitsRead(m.second);
    MillisecondsRead(m.ms);
    UtcClockRead(m, IsoGroups(m).date.clock);
  }

  /** The printed groups are read as the fields they were printed from. */
  lemma {:induction false} IsoGroupsRead(m: Moment)
    requires Valid(m) && -999999 <= m.year <= 999999
    ensures GroupsOk(IsoGroups(m))
    ensures FieldsIn(IsoGroups(m)) == Fields(m.year, m.month, m.day, UtcClock(m))
  {
    IsoClockRead(m);
    YearReads(m.year);
    TwoDigitsRead(m.month + 1);
    TwoDigitsRead(m.day + 1);
    DateRead(m, IsoGroups(m));
  }

  function IsoString(t: int): string {
    TextOf(IsoGroups(FieldsOf(t)))
  }

  lemma {:induction false} ParseText(g: Groups, toUTC: int -> TimeValue, native: string -> TimeValue)
    requires GroupsOk(g)
    ensures Parse(TextOf(g), toUTC, native) == ParseGroups(g, toUTC)
  {
    MatchIffText(TextOf(g), g);
  }

  /** Valid fields without an offset. */
  lemma {:induction false} UtcTime(m: Moment, f: Fields)
    requires Valid(m) && f == Fields(m.year, m.month, m.day, UtcClock(m))
    ensures Accepted(f) && TimeIn(f) == TimeOf(m)
  {
    assert MomentIn(f) == m;
    ParseMeaning(f);
  }

  lemma {:induction false} RoundTripMoment(m: Moment, toUTC: int -> TimeValue, native: string -> TimeValue)
    requires Valid(m) && -999999 <= m.year <= 999999 && -MAX_TIME <= TimeOf(m) <= MAX_TIME
    ensures Parse(TextOf(IsoGroups(m)), toUTC, native) == Time(TimeOf(m))
  {
    var g := IsoGroups(m);
    IsoGroupsRead(m);
    ParseText(g, toUTC, native);
    UtcTime(m, FieldsIn(g));
  }

  /** Every time value in the range of dates is printed as a string that parses to it. */
  lemma {:induction false} RoundTrip(t: int, toUTC: int -> TimeValue, native: string -> TimeValue)
    requires -MAX_TIME <= t <= MAX_TIME
    ensures Parse(IsoString(t), toUTC, native) == Time(t)
  {
    YearBound(t);
    RoundTripMoment(FieldsOf(t), toUTC, native);
  }

  /** Different times are printed differently. */
  lemma {:induction false} IsoStringInjective(t: int, u: int)
    requires -MAX_TIME <= t <= MAX_TIME && -MAX_TIME <= u <= MAX_TIME
    requires IsoString(t) == IsoString(u)
    ensures t == u
  {
    var toUTC, native := (t: int) => Time(t), (s: string) => NotATime;
    RoundTrip(t, toUTC, native);
    RoundTrip(u, toUTC, native);
  }
}
