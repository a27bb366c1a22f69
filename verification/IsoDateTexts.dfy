/**
 Date.parse of doc/swagger/lib/es5-shim.js on written texts: which strings it
 reads, and the time value of each, told by the calendar alone.
 */
module IsoDateTexts {
  import opened Wrappers
  import opened Decimal
  import opened Calendar
  import opened IsoDate

  // ----- the time value of a date and time -----

  /** Month and day are counted from 1; a day also has the hour 24:00. */
  datatype WallTime = WallTime(year: int, month: nat, day: nat, hour: nat, minute: nat, second: nat, ms: nat) {
    predicate OnCalendar() {
      && 1 <= month <= 12 && 1 <= day <= MonthLength(year, month - 1)
      && minute < 60 && second < 60 && ms < 1000
      && (hour < 24 || (hour == 24 && minute == 0 && second == 0 && ms == 0))
    }

    /** The milliseconds from the start of 1970, year by year and month by month. */
    function Elapsed(): int
      requires OnCalendar()
    {
      86_400_000 * (YearStart(year) + MonthStart(year, month - 1) + (day - 1))
      + 3_600_000 * hour + 60_000 * minute + 1000 * second + ms
    }
  }

  /** Times are at most 100,000,000 days from 1970 (section 15.9.1.1 of ECMA-262 5.1). */
  function InRange(t: int): TimeValue {
    if -100_000_000 * 86_400_000 <= t <= 100_000_000 * 86_400_000 then Time(t) else NotATime
  }

  // ----- texts with all fields -----

  /** The digits of a date and time; the seconds may have decimals. */
  datatype Written = Written(year: string, month: string, day: string, hour: string, minute: string, second: string,
                             decimals: string) {
    predicate Ok() {
      && (|year| == 4 || (|year| == 7 && (year[0] == '+' || year[0] == '-')))
      && AllDigits(year[if |year| == 4 then 0 else 1..])
      && TwoDigits(month) && TwoDigits(day) && TwoDigits(hour) && TwoDigits(minute) && TwoDigits(second)
      && AllDigits(decimals)
    }

    function Date(): string {
      year + "-" + month + "-" + day
    }

    function Text(): string {
      Date() + "T" + hour + ":" + minute + ":" + second + if decimals == "" then "" else "." + decimals
    }

    function Year(): int
      requires Ok()
    {
      if |year| == 4 then Read(year[0..]) else Read(year[1..]) * if year[0] == '-' then -1 else 1
    }

    function Ms(): nat
      requires Ok()
    {
      Read(decimals) * 1000 / Pow(10, |decimals|)
    }

    /** What is written. */
    function Wall(): WallTime
      requires Ok()
    {
      WallTime(Year(), Read(month), Read(day), Read(hour), Read(minute), Read(second), Ms())
    }

    function Groups(zone: Zone): Groups {
      IsoDate.Groups(year, ToDay(month, day, ClockPart(hour, minute,
                                                       Seconds(second, if decimals == "" then "" else "." + decimals),
                                                       zone)))
    }
  }

  lemma {:induction false} ClockJoined(hour: string, minute: string, second: string, decimals: string, zone: Zone)
    ensures ClockTextOf(ClockPart(hour, minute, Seconds(second, decimals), zone))
         == "T" + hour + ":" + minute + ":" + second + decimals + ZoneTextOf(zone)
  {
    var s, z := [':'] + second + decimals, ZoneTextOf(zone);
    assert ['T'] + hour + ([':'] + minute + (s + z)) == "T" + hour + ":" + minute + ":" + second + decimals + z;
  }

  lemma {:induction false} DateJoined(year: string, month: string, day: string, clock: ClockPart)
    ensures TextOf(Groups(year, ToDay(month, day, clock))) == year + "-" + month + "-" + day + ClockTextOf(clock)
  {
    var c := ClockTextOf(clock);
    assert year + (['-'] + month + (['-'] + day + c)) == year + "-" + month + "-" + day + c;
  }

  lemma {:induction false} WrittenText(w: Written, zone: Zone)
    ensures TextOf(w.Groups(zone)) == w.Text() + ZoneTextOf(zone)
  {
    var decimals := if w.decimals == "" then "" else "." + w.decimals;
    DateJoined(w.year, w.month, w.day, w.Groups(zone).date.clock);
    ClockJoined(w.hour, w.minute, w.second, decimals, zone);
    SevenTogether(w.Date(), "T" + w.hour + ":" + w.minute + ":" + w.second + decimals, ZoneTextOf(zone));
    TextSplit(w.Date(), w.hour, w.minute, w.second, decimals);
  }

  lemma {:induction false} SevenTogether(date: string, clock: string, zone: string)
    ensures date + (clock + zone) == date + clock + zone
  {
  }

  lemma {:induction false} TextSplit(date: string, hour: string, minute: string, second: string, decimals: string)
    ensures date + ("T" + hour + ":" + minute + ":" + second + decimals)
         == date + "T" + hour + ":" + minute + ":" + second + decimals
  {
  }

  /** The fields that parse computes are those written, counted from 0. */
  lemma {:induction false} WrittenFields(w: Written, zone: Zone)
    requires w.Ok() && ZoneOk(zone)
    ensures GroupsOk(w.Groups(zone))
    ensures var f := FieldsIn(w.Groups(zone));
            && f.clock.local == zone.NoZone?
            && (zone.Offset? ==> f.clock.sign == (if zone.sign == '+' then -1 else 1)
                                 && f.clock.hourOffset == Read(zone.hours)
                                 && f.clock.minuteOffset == Read(zone.minutes))
            && (!zone.Offset? ==> f.clock.hourOffset == 0 && f.clock.minuteOffset == 0)
    ensures var f, n := FieldsIn(w.Groups(zone)), w.Wall();
            && f.year == n.year && f.month == n.month - 1 && f.day == n.day - 1 && f.clock.hour == n.hour
            && f.clock.minute == n.minute && f.clock.second == n.second && f.clock.ms == n.ms
  {
    if |w.year| == 4 {
      assert w.year[0..] == w.year;
    }
    ThousandthsFloor(w.decimals);
    if w.decimals == "" {
      assert Pow(10, 0) == 1;
    } else {
      assert ("." + w.decimals)[1..] == w.decimals;
    }
  }

  /** Accepted fields are on the calendar, and their time is what has elapsed, less the offset. */
  lemma {:induction false} FieldsMeaning(f: Fields, n: WallTime)
    requires f.year == n.year && f.month == n.month - 1 && f.day == n.day - 1 && f.clock.hour == n.hour
    requires f.clock.minute == n.minute && f.clock.second == n.second && f.clock.ms == n.ms
    ensures Accepted(f) <==> n.OnCalendar() && f.clock.hourOffset < 24 && f.clock.minuteOffset < 60
    ensures Accepted(f) ==>
              TimeIn(f) == n.Elapsed() + (60 * f.clock.hourOffset + f.clock.minuteOffset) * 60000 * f.clock.sign
  {
    ParseMeaning(f);
    if Accepted(f) {
      TimeLessOffset(f);
      TimeOfDay(MomentIn(f));
      SignApart((60 * f.clock.hourOffset + f.clock.minuteOffset) * 60000, f.clock.sign);
    }
  }

  lemma {:induction false} SignApart(a: int, sign: int)
    ensures a * -sign == -(a * sign)
  {
  }

  /** How far a zone is ahead of UTC, in milliseconds. */
  function Ahead(zone: Zone): int
    requires ZoneOk(zone)
  {
    if !zone.Offset? then 0
    else
      var minutes := 60 * Read(zone.hours) + Read(zone.minutes);
      if zone.sign == '+' then 60000 * minutes else -60000 * minutes
  }

  predicate OffsetValid(zone: Zone)
    requires ZoneOk(zone)
  {
    zone.Offset? ==> Read(zone.hours) < 24 && Read(zone.minutes) < 60
  }

  /** The time value of a date and time in a zone; without a zone it is a local one. */
  function TimeInZone(n: WallTime, zone: Zone, toUTC: int -> TimeValue): TimeValue
    requires ZoneOk(zone)
  {
    if !n.OnCalendar() || !OffsetValid(zone) then NotATime
    else if zone.NoZone? then (if toUTC(n.Elapsed()).Time? then InRange(toUTC(n.Elapsed()).t) else NotATime)
    else InRange(n.Elapsed() - Ahead(zone))
  }

  lemma {:induction false} AcceptedTime(f: Fields, n: WallTime, zone: Zone, toUTC: int -> TimeValue)
    requires ZoneOk(zone) && f.clock.local == zone.NoZone?
    requires Accepted(f) <==> n.OnCalendar() && OffsetValid(zone)
    requires Accepted(f) ==> TimeIn(f) == n.Elapsed() - Ahead(zone)
    ensures (if !Accepted(f) then NotATime else Clipped(if f.clock.local then toUTC(TimeIn(f)) else Time(TimeIn(f))))
         == TimeInZone(n, zone, toUTC)
  {
    assert 100_000_000 * 86_400_000 == MAX_TIME;
  }

  lemma {:induction false} ZoneAhead(zone: Zone, sign: int, hours: nat, minutes: nat)
    requires ZoneOk(zone)
    requires zone.Offset? ==> sign == (if zone.sign == '+' then -1 else 1)
                              && hours == Read(zone.hours) && minutes == Read(zone.minutes)
    requires !zone.Offset? ==> hours == 0 && minutes == 0
    ensures (60 * hours + minutes) * 60000 * sign == -Ahead(zone)
    ensures OffsetValid(zone) <==> hours < 24 && minutes < 60
  {
  }

  lemma {:induction false} GroupsTime(w: Written, zone: Zone, toUTC: int -> TimeValue)
    requires w.Ok() && ZoneOk(zone) && GroupsOk(w.Groups(zone))
    ensures ParseGroups(w.Groups(zone), toUTC) == TimeInZone(w.Wall(), zone, toUTC)
  {
    var f, n := FieldsIn(w.Groups(zone)), w.Wall();
    WrittenFields(w, zone);
    FieldsMeaning(f, n);
    ZoneAhead(zone, f.clock.sign, f.clock.hourOffset, f.clock.minuteOffset);
    AcceptedTime(f, n, zone, toUTC);
  }

  lemma {:induction false} ParseInZone(w: Written, zone: Zone, toUTC: int -> TimeValue, native: string -> TimeValue)
    requires w.Ok() && ZoneOk(zone)
    ensures Parse(w.Text() + ZoneTextOf(zone), toUTC, native) == TimeInZone(w.Wall(), zone, toUTC)
  {
    var g := w.Groups(zone);
    assert GroupsOk(g) by {
      WrittenFields(w, zone);
    }
    WrittenText(w, zone);
    ParseText(g, toUTC, native);
    GroupsTime(w, zone, toUTC);
  }

  /** A text with all fields and Z: the time elapsed, if there is that date and time and it is in range. */
  lemma {:induction false} ParseUtc(w: Written, toUTC: int -> TimeValue, native: string -> TimeValue)
    requires w.Ok()
    ensures Parse(w.Text() + "Z", toUTC, native)
         == if w.Wall().OnCalendar() then InRange(w.Wall().Elapsed()) else NotATime
  {
    ParseInZone(w, Utc, toUTC, native);
  }

  /** Without a zone the time elapsed is a local one, which toUTC converts before it is tested for its range. */
  lemma {:induction false} ParseLocal(w: Written, toUTC: int -> TimeValue, native: string -> TimeValue)
    requires w.Ok()
    ensures Parse(w.Text(), toUTC, native)
         == if !w.Wall().OnCalendar() || toUTC(w.Wall().Elapsed()).NotATime? then NotATime
            else InRange(toUTC(w.Wall().Elapsed()).t)
  {
    assert w.Text() + "" == w.Text();
    ParseInZone(w, NoZone, toUTC, native);
  }

  /** Clocks in the zone +hh:mm are that much ahead, so the time is that much earlier. */
  lemma {:induction false} ParseAhead(w: Written, hh: string, mm: string,
                                      toUTC: int -> TimeValue, native: string -> TimeValue)
    requires w.Ok() && TwoDigits(hh) && TwoDigits(mm)
    ensures Parse(w.Text() + "+" + hh + ":" + mm, toUTC, native)
         == if w.Wall().OnCalendar() && Read(hh) < 24 && Read(mm) < 60
            then InRange(w.Wall().Elapsed() - (60 * Read(hh) + Read(mm)) * 60000) else NotATime
  {
    OffsetJoined(w.Text(), '+', hh, mm);
    ParseInZone(w, Offset('+', hh, mm), toUTC, native);
  }

  /** In the zone -hh:mm it is later. */
  lemma {:induction false} ParseBehind(w: Written, hh: string, mm: string,
                                       toUTC: int -> TimeValue, native: string -> TimeValue)
    requires w.Ok() && TwoDigits(hh) && TwoDigits(mm)
    ensures Parse(w.Text() + "-" + hh + ":" + mm, toUTC, native)
         == if w.Wall().OnCalendar() && Read(hh) < 24 && Read(mm) < 60
            then InRange(w.Wall().Elapsed() + (60 * Read(hh) + Read(mm)) * 60000) else NotATime
  {
    OffsetJoined(w.Text(), '-', hh, mm);
    ParseInZone(w, Offset('-', hh, mm), toUTC, native);
  }

  lemma {:induction false} OffsetJoined(text: string, sign: char, hh: string, mm: string)
    ensures text + ZoneTextOf(Offset(sign, hh, mm)) == text + [sign] + hh + ":" + mm
  {
  }

  // ----- texts with fewer fields -----

  lemma {:induction false} OneAndZero()
    ensures TwoDigits("00") && Read("00") == 0 && TwoDigits("01") && Read("01") == 1
  {
    assert "00"[..1] == "0" && "01"[..1] == "0" && "0"[..0] == "";
    assert Read("0") == 0;
  }

  lemma {:induction false} MonthJoined(year: string, month: string)
    ensures TextOf(Groups(year, ToMonth(month))) == year + "-" + month
  {
  }

  lemma {:induction false} ShortClockJoined(date: string, hour: string, minute: string, zone: Zone)
    ensures date + ClockTextOf(ClockPart(hour, minute, NoSeconds, zone))
         == date + "T" + hour + ":" + minute + ZoneTextOf(zone)
  {
    var z := ZoneTextOf(zone);
    assert "" + z == z;
    assert date + (['T'] + hour + ([':'] + minute + z)) == date + "T" + hour + ":" + minute + z;
  }

  lemma {:induction false} ParseShortClock(year: string, month: string, day: string, hour: string, minute: string,
                                           zone: Zone, toUTC: int -> TimeValue, native: string -> TimeValue)
    requires YearText(year) && TwoDigits(month) && TwoDigits(day) && TwoDigits(hour) && TwoDigits(minute)
    requires ZoneOk(zone)
    ensures Parse(year + "-" + month + "-" + day + "T" + hour + ":" + minute + ZoneTextOf(zone), toUTC, native)
         == ParseGroups(Groups(year, ToDay(month, day, ClockPart(hour, minute, NoSeconds, zone))), toUTC)
  {
    var clock := ClockPart(hour, minute, NoSeconds, zone);
    ShortClockJoined(year + "-" + month + "-" + day, hour, minute, zone);
    DateJoined(year, month, day, clock);
    ParseText(Groups(year, ToDay(month, day, clock)), toUTC, native);
  }

  /** A missing month is January. */
  lemma {:induction false} ParseYear(year: string, toUTC: int -> TimeValue, native: string -> TimeValue)
    requires YearText(year)
    ensures Parse(year, toUTC, native) == Parse(year + "-01", toUTC, native)
  {
    OneAndZero();
    ParseYearText(year, toUTC, native);
    ParseMonthText(year, "01", toUTC, native);
    assert year + "-" + "01" == year + "-01";
  }

  lemma {:induction false} ParseYearText(year: string, toUTC: int -> TimeValue, native: string -> TimeValue)
    requires YearText(year)
    ensures Parse(year, toUTC, native) == ParseGroups(Groups(year, YearOnly), toUTC)
  {
    assert TextOf(Groups(year, YearOnly)) == year;
    ParseText(Groups(year, YearOnly), toUTC, native);
  }

  lemma {:induction false} ParseMonthText(year: string, month: string, toUTC: int -> TimeValue,
                                          native: string -> TimeValue)
    requires YearText(year) && TwoDigits(month)
    ensures Parse(year + "-" + month, toUTC, native) == ParseGroups(Groups(year, ToMonth(month)), toUTC)
  {
    MonthJoined(year, month);
    ParseText(Groups(year, ToMonth(month)), toUTC, native);
  }

  /** A missing day is the first. */
  lemma {:induction false} ParseMonth(year: string, month: string, toUTC: int -> TimeValue,
                                      native: string -> TimeValue)
    requires YearText(year) && TwoDigits(month)
    ensures Parse(year + "-" + month, toUTC, native) == Parse(year + "-" + month + "-" + "01", toUTC, native)
  {
    OneAndZero();
    ParseMonthText(year, month, toUTC, native);
    ParseDateText(year, month, "01", toUTC, native);
  }

  lemma {:induction false} ParseDateText(year: string, month: string, day: string, toUTC: int -> TimeValue,
                                         native: string -> TimeValue)
    requires YearText(year) && TwoDigits(month) && TwoDigits(day)
    ensures Parse(year + "-" + month + "-" + day, toUTC, native)
         == ParseGroups(Groups(year, ToDay(month, day, NoClock)), toUTC)
  {
    var text := year + "-" + month + "-" + day;
    DateJoined(year, month, day, NoClock);
    assert text + "" == text;
    ParseText(Groups(year, ToDay(month, day, NoClock)), toUTC, native);
  }

  /** A date without a clock is midnight in UTC, and not in local time. */
  lemma {:induction false} ParseDate(year: string, month: string, day: string, toUTC: int -> TimeValue,
                                     native: string -> TimeValue)
    requires YearText(year) && TwoDigits(month) && TwoDigits(day)
    ensures var text := year + "-" + month + "-" + day;
            Parse(text, toUTC, native) == Parse(text + "T" + "00" + ":" + "00" + "Z", toUTC, native)
  {
    OneAndZero();
    ParseDateText(year, month, day, toUTC, native);
    ParseShortClock(year, month, day, "00", "00", Utc, toUTC, native);
  }

  /** Missing seconds are 0, in every zone. */
  lemma {:induction false} ParseMinutes(year: string, month: string, day: string, hour: string, minute: string,
                                        zone: Zone, toUTC: int -> TimeValue, native: string -> TimeValue)
    requires YearText(year) && TwoDigits(month) && TwoDigits(day) && TwoDigits(hour) && TwoDigits(minute)
    requires ZoneOk(zone)
    ensures Parse(year + "-" + month + "-" + day + "T" + hour + ":" + minute + ZoneTextOf(zone), toUTC, native)
         == Parse(Written(year, month, day, hour, minute, "00", "").Text() + ZoneTextOf(zone), toUTC, native)
  {
    var w := Written(year, month, day, hour, minute, "00", "");
    OneAndZero();
    ParseShortClock(year, month, day, hour, minute, zone, toUTC, native);
    WrittenText(w, zone);
    ParseText(w.Groups(zone), toUTC, native);
    SecondsDefault(year, month, day, hour, minute, zone, toUTC);
  }

  lemma {:induction false} SecondsDefault(year: string, month: string, day: string, hour: string, minute: string,
                                          zone: Zone, toUTC: int -> TimeValue)
    requires YearText(year) && TwoDigits(month) && TwoDigits(day) && TwoDigits(hour) && TwoDigits(minute)
    requires ZoneOk(zone)
    ensures GroupsOk(Written(year, month, day, hour, minute, "00", "").Groups(zone))
    ensures ParseGroups(Groups(year, ToDay(month, day, ClockPart(hour, minute, NoSeconds, zone))), toUTC)
         == ParseGroups(Written(year, month, day, hour, minute, "00", "").Groups(zone), toUTC)
  {
    OneAndZero();
    ClockDefault(hour, minute, zone);
  }

  lemma {:induction false} ClockDefault(hour: string, minute: string, zone: Zone)
    requires TwoDigits(hour) && TwoDigits(minute) && ZoneOk(zone) && TwoDigits("00") && Read("00") == 0
    ensures ClockIn(ClockPart(hour, minute, NoSeconds, zone))
         == ClockIn(ClockPart(hour, minute, Seconds("00", ""), zone))
  {
  }

  // ----- which texts are read -----

  /** A d in the pattern stands for a digit, any other character for itself. */
  predicate Fits(s: string, pattern: string) {
    |s| == |pattern| && forall i | 0 <= i < |s| :: if pattern[i] == 'd' then IsDigit(s[i]) else s[i] == pattern[i]
  }

  const MINUTES := "-dd-ddTdd:dd"
  const SECONDS := "-dd-ddTdd:dd:dd"

  predicate YearFits(s: string) {
    Fits(s, "dddd") || Fits(s, "+dddddd") || Fits(s, "-dddddd")
  }

  predicate ZoneFits(s: string) {
    s == "" || s == "Z" || Fits(s, "+dd:dd") || Fits(s, "-dd:dd")
  }

  /** After the year: fields up to a point, decimals only after seconds, and a zone only after a clock. */
  predicate RestFits(fields: string, decimals: string, zone: string) {
    && (Fits(fields, "") || Fits(fields, "-dd") || Fits(fields, "-dd-dd") || Fits(fields, MINUTES)
        || Fits(fields, SECONDS))
    && (decimals != "" ==> Fits(fields, SECONDS) && FractionText(decimals))
    && (zone != "" ==> (Fits(fields, MINUTES) || Fits(fields, SECONDS)) && ZoneFits(zone))
  }

  ghost predicate IsoFormat(s: string) {
    exists year, fields, decimals, zone ::
      s == year + fields + decimals + zone && YearFits(year) && RestFits(fields, decimals, zone)
  }

  /** Exactly the texts of this form are read; all others are left to the native parser. */
  lemma {:induction false} ReadIffFormat(s: string)
    ensures Match(s).Some? <==> IsoFormat(s)
  {
    if Match(s).Some? {
      MatchIffText(s, Match(s).value);
      FormatOfGroups(Match(s).value);
    }
    if IsoFormat(s) {
      var year, fields, decimals, zone :|
        s == year + fields + decimals + zone && YearFits(year) && RestFits(fields, decimals, zone);
      var g := GroupsOfFormat(year, fields, decimals, zone);
      MatchIffText(s, g);
    }
  }

  lemma {:induction false} YearFitsIff(s: string)
    ensures YearFits(s) <==> YearText(s)
  {
    if |s| == 7 {
      assert AllDigits(s[1..]) <==> forall i | 1 <= i < 7 :: IsDigit(s[i]) by {
        assert forall i | 1 <= i < 7 :: s[i] == s[1..][i - 1];
      }
    }
  }

  lemma {:induction false} ZoneFitsIs(z: Zone)
    requires ZoneOk(z)
    ensures ZoneFits(ZoneTextOf(z))
  {
  }

  lemma {:induction false} ZoneOf(s: string) returns (z: Zone)
    requires ZoneFits(s)
    ensures ZoneOk(z) && s == ZoneTextOf(z)
  {
    if s == "" {
      z := NoZone;
    } else if s == "Z" {
      z := Utc;
    } else {
      z := Offset(s[0], s[1..3], s[4..6]);
      var pattern := if Fits(s, "+dd:dd") then "+dd:dd" else "-dd:dd";
      assert pattern[1] == pattern[2] == pattern[4] == pattern[5] == 'd';
      assert AllDigits(s[1..3]) && AllDigits(s[4..6]);
      assert s == [s[0]] + s[1..3] + ([':'] + s[4..6]);
    }
  }

  lemma {:induction false} FormatOfGroups(g: Groups)
    requires GroupsOk(g)
    ensures IsoFormat(TextOf(g))
  {
    YearFitsIff(g.year);
    match g.date
    case YearOnly => FormatWitness(TextOf(g), g.year, "", "", "");
    case ToMonth(month) => FormatWitness(TextOf(g), g.year, "-" + month, "", "");
    case ToDay(month, day, clock) =>
      DateJoined(g.year, month, day, clock);
      if clock.NoClock? {
        FormatWitness(TextOf(g), g.year, "-" + month + "-" + day, "", "");
      } else {
        FormatOfClock(g.year, month, day, clock);
      }
  }

  lemma {:induction false} FormatWitness(s: string, year: string, fields: string, decimals: string, zone: string)
    requires s == year + fields + decimals + zone && YearFits(year) && RestFits(fields, decimals, zone)
    ensures IsoFormat(s)
  {
  }

  lemma {:induction false} FormatOfClock(year: string, month: string, day: string, c: ClockPart)
    requires YearFits(year) && TwoDigits(month) && TwoDigits(day) && c.ClockPart? && ClockOk(c)
    ensures IsoFormat(TextOf(Groups(year, ToDay(month, day, c))))
  {
    var zone := ZoneTextOf(c.zone);
    ZoneFitsIs(c.zone);
    if c.seconds.NoSeconds? {
      MinutesText(year, month, day, c.hour, c.minute, c.zone);
      MinutesFit(month, day, c.hour, c.minute);
      FormatWitness(TextOf(Groups(year, ToDay(month, day, c))), year, MinuteFields(month, day, c.hour, c.minute), "",
                    zone);
    } else {
      var fields := SecondFields(month, day, c.hour, c.minute, c.seconds.second);
      SecondsText(year, month, day, c.hour, c.minute, c.seconds.second, c.seconds.fraction, c.zone);
      SecondsFit(month, day, c.hour, c.minute, c.seconds.second);
      FormatWitness(TextOf(Groups(year, ToDay(month, day, c))), year, fields, c.seconds.fraction, zone);
    }
  }

  function MinuteFields(month: string, day: string, hour: string, minute: string): string {
    "-" + month + "-" + day + "T" + hour + ":" + minute
  }

  function SecondFields(month: string, day: string, hour: string, minute: string, second: string): string {
    MinuteFields(month, day, hour, minute) + ":" + second
  }

  lemma {:induction false} MinutesText(year: string, month: string, day: string, hour: string, minute: string,
                                       zone: Zone)
    ensures TextOf(Groups(year, ToDay(month, day, ClockPart(hour, minute, NoSeconds, zone))))
         == year + MinuteFields(month, day, hour, minute) + "" + ZoneTextOf(zone)
  {
    DateJoined(year, month, day, ClockPart(hour, minute, NoSeconds, zone));
    ShortClockJoined(year + "-" + month + "-" + day, hour, minute, zone);
    MinutesApart(year, month, day, hour, minute);
    assert year + MinuteFields(month, day, hour, minute) + "" == year + MinuteFields(month, day, hour, minute);
  }

  lemma {:induction false} MinutesApart(year: string, month: string, day: string, hour: string, minute: string)
    ensures year + "-" + month + "-" + day + "T" + hour + ":" + minute
         == year + MinuteFields(month, day, hour, minute)
  {
  }

  lemma {:induction false} SecondsText(year: string, month: string, day: string, hour: string, minute: string,
                                       second: string, decimals: string, zone: Zone)
    ensures TextOf(Groups(year, ToDay(month, day, ClockPart(hour, minute, Seconds(second, decimals), zone))))
         == year + SecondFields(month, day, hour, minute, second) + decimals + ZoneTextOf(zone)
  {
    DateJoined(year, month, day, ClockPart(hour, minute, Seconds(second, decimals), zone));
    ClockJoined(hour, minute, second, decimals, zone);
    SecondsApart(year + "-" + month + "-" + day, hour, minute, second, decimals, ZoneTextOf(zone));
    MinutesApart(year, month, day, hour, minute);
    assert year + MinuteFields(month, day, hour, minute) + ":" + second
        == year + SecondFields(month, day, hour, minute, second);
  }

  lemma {:induction false} SecondsApart(date: string, hour: string, minute: string, second: string, decimals: string,
                                        zone: string)
    ensures date + ("T" + hour + ":" + minute + ":" + second + decimals + zone)
         == date + "T" + hour + ":" + minute + ":" + second + decimals + zone
  {
  }

  lemma {:induction false} MinutesFit(month: string, day: string, hour: string, minute: string)
    requires TwoDigits(month) && TwoDigits(day) && TwoDigits(hour) && TwoDigits(minute)
    ensures Fits(MinuteFields(month, day, hour, minute), MINUTES)
  {
  }

  lemma {:induction false} SecondsFit(month: string, day: string, hour: string, minute: string, second: string)
    requires TwoDigits(month) && TwoDigits(day) && TwoDigits(hour) && TwoDigits(minute) && TwoDigits(second)
    ensures Fits(SecondFields(month, day, hour, minute, second), SECONDS)
  {
  }

  lemma {:induction false} MinutesSplit(fields: string)
    requires Fits(fields, MINUTES)
    ensures TwoDigits(fields[1..3]) && TwoDigits(fields[4..6]) && TwoDigits(fields[7..9]) && TwoDigits(fields[10..12])
    ensures fields == MinuteFields(fields[1..3], fields[4..6], fields[7..9], fields[10..12])
  {
  }

  lemma {:induction false} SecondsSplit(fields: string)
    requires Fits(fields, SECONDS)
    ensures Fits(fields[..12], MINUTES) && TwoDigits(fields[13..15]) && fields == fields[..12] + ":" + fields[13..15]
  {
  }

  lemma {:induction false} GroupsOfFormat(year: string, fields: string, decimals: string, zone: string)
    returns (g: Groups)
    requires YearFits(year) && RestFits(fields, decimals, zone)
    ensures GroupsOk(g) && TextOf(g) == year + fields + decimals + zone
  {
    YearFitsIff(year);
    if |fields| <= 6 {
      g := Groups(year, if |fields| == 0 then YearOnly
                        else if |fields| == 3 then ToMonth(fields[1..3])
                        else ToDay(fields[1..3], fields[4..6], NoClock));
    } else if |fields| == 12 {
      g := GroupsOfMinutes(year, fields, zone);
    } else {
      g := GroupsOfSeconds(year, fields, decimals, zone);
    }
  }

  lemma {:induction false} GroupsOfMinutes(year: string, fields: string, zone: string) returns (g: Groups)
    requires YearText(year) && Fits(fields, MINUTES) && ZoneFits(zone)
    ensures GroupsOk(g) && TextOf(g) == year + fields + "" + zone
  {
    var z := ZoneOf(zone);
    var month, day, hour, minute := fields[1..3], fields[4..6], fields[7..9], fields[10..12];
    MinutesSplit(fields);
    MinutesText(year, month, day, hour, minute, z);
    g := Groups(year, ToDay(month, day, ClockPart(hour, minute, NoSeconds, z)));
  }

  lemma {:induction false} GroupsOfSeconds(year: string, fields: string, decimals: string, zone: string)
    returns (g: Groups)
    requires YearText(year) && Fits(fields, SECONDS) && FractionText(decimals) && ZoneFits(zone)
    ensures GroupsOk(g) && TextOf(g) == year + fields + decimals + zone
  {
    var z := ZoneOf(zone);
    SecondsSplit(fields);
    var front := fields[..12];
    var month, day, hour, minute, second := front[1..3], front[4..6], front[7..9], front[10..12], fields[13..15];
    MinutesSplit(front);
    SecondsText(year, month, day, hour, minute, second, decimals, z);
    g := Groups(year, ToDay(month, day, ClockPart(hour, minute, Seconds(second, decimals), z)));
  }

  // ----- the text that is printed -----

  const PRINTED := "-dd-ddTdd:dd:dd.dddZ"

  /** The year has four digits from 0 to 9999, and otherwise a sign and six digits. */
  lemma {:induction false} YearPrinted(year: int)
    requires -999999 <= year <= 999999
    ensures var s := YearString(year);
            && YearFits(s)
            && (if 0 <= year <= 9999 then |s| == 4 && AllDigits(s) && Read(s) == year
                else |s| == 7 && s[0] == (if year < 0 then '-' else '+')
                     && AllDigits(s[1..]) && Read(s[1..]) == if year < 0 then -year else year)
  {
    YearReads(year);
    YearFitsIff(YearString(year));
    if 0 <= year <= 9999 {
      assert "" + Pad("00000", year, 4) == Pad("00000", year, 4);
      assert "00000" == Zeros(5) && Pow(10, 4) == 10000;
      PadReads("00000", year, 4);
    } else {
      var size := if year < 0 then -year else year;
      assert "00000" == Zeros(5) && Pow(10, 6) == 1000000;
      PadReads("00000", size, 6);
      assert YearString(year)[1..] == Pad("00000", size, 6);
    }
  }

  /** The text after the year: its form, and what its fields read as. */
  predicate Prints(s: string, m: Moment) {
    && Fits(s, PRINTED)
    && AllDigits(s[1..3]) && Read(s[1..3]) == m.month + 1
    && AllDigits(s[4..6]) && Read(s[4..6]) == m.day + 1
    && AllDigits(s[7..9]) && Read(s[7..9]) == m.hour
    && AllDigits(s[10..12]) && Read(s[10..12]) == m.minute
    && AllDigits(s[13..15]) && Read(s[13..15]) == m.second
    && AllDigits(s[16..19]) && Read(s[16..19]) == m.ms
  }

  function PrintedFields(month: string, day: string, hour: string, minute: string, second: string, ms: string): string {
    SecondFields(month, day, hour, minute, second) + ("." + ms + "Z")
  }

  lemma {:induction false} FieldsPrinted(m: Moment, month: string, day: string, hour: string, minute: string,
                                         second: string, ms: string)
    requires TwoDigits(month) && TwoDigits(day) && TwoDigits(hour) && TwoDigits(minute) && TwoDigits(second)
    requires |ms| == 3 && AllDigits(ms)
    requires Read(month) == m.month + 1 && Read(day) == m.day + 1 && Read(hour) == m.hour
    requires Read(minute) == m.minute && Read(second) == m.second && Read(ms) == m.ms
    ensures Prints(PrintedFields(month, day, hour, minute, second, ms), m)
  {
    var s := PrintedFields(month, day, hour, minute, second, ms);
    SecondsFit(month, day, hour, minute, second);
    assert s[..15] == SecondFields(month, day, hour, minute, second) && s[16..19] == ms;
    assert s[1..3] == month && s[4..6] == day && s[7..9] == hour && s[10..12] == minute && s[13..15] == second;
  }

  /** What toISOString prints, character by character: this form, and in it the fields of the time value. */
  lemma {:induction false} IsoStringForm(t: int)
    requires -MAX_TIME <= t <= MAX_TIME
    ensures var m, s := FieldsOf(t), IsoString(t);
            if 0 <= m.year <= 9999 then
              |s| == 24 && AllDigits(s[..4]) && Read(s[..4]) == m.year && Prints(s[4..], m)
            else
              && |s| == 27 && s[0] == (if m.year < 0 then '-' else '+')
              && AllDigits(s[1..7]) && Read(s[1..7]) == (if m.year < 0 then -m.year else m.year)
              && Prints(s[7..], m)
  {
    var m := FieldsOf(t);
    YearBound(t);
    YearPrinted(m.year);
    IsoStringJoined(m);
    MomentPrinted(m);
  }

  function MomentFields(m: Moment): string {
    PrintedFields(TwoDigit(m.month + 1), TwoDigit(m.day + 1), TwoDigit(m.hour), TwoDigit(m.minute), TwoDigit(m.second),
                  Pad("000", m.ms, 3))
  }

  lemma {:induction false} MomentPrinted(m: Moment)
    requires Valid(m)
    ensures Prints(MomentFields(m), m)
  {
    TwoDigitsRead(m.month + 1);
    TwoDigitsRead(m.day + 1);
    TwoDigitsRead(m.hour);
    TwoDigitsRead(m.minute);
    TwoDigitsRead(m.second);
    assert "000" == Zeros(3) && Pow(10, 3) == 1000;
    PadReads("000", m.ms, 3);
    FieldsPrinted(m, TwoDigit(m.month + 1), TwoDigit(m.day + 1), TwoDigit(m.hour), TwoDigit(m.minute),
                  TwoDigit(m.second), Pad("000", m.ms, 3));
  }

  lemma {:induction false} IsoStringJoined(m: Moment)
    ensures TextOf(IsoGroups(m)) == YearString(m.year) + MomentFields(m)
  {
    var month, day, ms := TwoDigit(m.month + 1), TwoDigit(m.day + 1), Pad("000", m.ms, 3);
    SecondsText(YearString(m.year), month, day, TwoDigit(m.hour), TwoDigit(m.minute), TwoDigit(m.second), "." + ms,
                Utc);
    assert ['.'] + ms == "." + ms;
    var fields := SecondFields(month, day, TwoDigit(m.hour), TwoDigit(m.minute), TwoDigit(m.second));
    FourTogether(YearString(m.year), fields, "." + ms, "Z");
  }

  lemma {:induction false} FourTogether(a: string, b: string, c: string, d: string)
    ensures a + b + c + d == a + (b + (c + d))
  {
  }
}
