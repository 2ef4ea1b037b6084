/**
 * The calendar helpers of src/lib/date-utils.ts, at day granularity.  Every
 * `Date` these helpers see is a local midnight (a `startOfWeek`, an `addDays`
 * of one, or a `parseISO` of a `yyyy-MM-dd` string), so a day number stands
 * for it; the current date is a parameter.
 */
module DateUtils {
  import opened Wrappers
  import opened Text
  import opened Calendar
  import opened Clock
  import opened Types
  import opened Constants

  /** The seven consecutive days from `start`. */
  function DaysFrom(start: Day): (days: seq<Day>)
    ensures |days| == 7 && forall i :: 0 <= i < 7 ==> days[i] == start + i
  {
    seq(7, i => start + i)
  }

  /** Seven consecutive days hold every weekday: the position of the wanted one. */
  lemma EveryWeekdayInWeek(start: Day, dow: DayOfWeek) returns (i: nat)
    ensures i < 7 && Weekday(DaysFrom(start)[i]) == DayNumber(dow)
  {
    var w := Weekday(start);
    i := (DayNumber(dow) + 7 - w) % 7;
    WeekdayAfter(start, i);
    CatchUp(w, DayNumber(dow));
  }

  /** Moving on from weekday w by the distance to n lands on n. */
  lemma CatchUp(w: nat, n: nat)
    requires w < 7 && n < 7
    ensures (w + (n + 7 - w) % 7) % 7 == n
  {
    if w <= n {
      assert (n + 7 - w) % 7 == n - w;
    } else {
      assert (n + 7 - w) % 7 == n + 7 - w;
      assert (n + 7) % 7 == n;
    }
  }

  /** i days later the weekday has moved on by i, modulo 7. */
  lemma WeekdayAfter(start: Day, i: nat)
    requires i < 7
    ensures Weekday(start + i) == (Weekday(start) + i) % 7
  {
    var q, w := (start + 1) / 7, (start + 1) % 7;
    assert start + 1 + i == 7 * q + (w + i);
    if w + i < 7 {
      assert (start + 1 + i) % 7 == w + i;
    } else {
      assert start + 1 + i == 7 * (q + 1) + (w + i - 7);
      assert (start + 1 + i) % 7 == w + i - 7;
    }
  }

  /** getDaysInWeek: the seven days of the Monday-start week holding `d`. */
  function GetDaysInWeek(d: Day): (days: seq<Day>)
    ensures |days| == 7 && Weekday(days[0]) == 1
    ensures forall i :: 0 <= i < 7 ==> days[i] == days[0] + i
    ensures days[0] <= d < days[0] + 7
    ensures d in days
  {
    var days := DaysFrom(StartOfWeek(d));
    assert days[d - StartOfWeek(d)] == d;
    days
  }

  /** Column i of the week holds the weekday that `DAYS_OF_WEEK[i]` names. */
  lemma WeekColumns(d: Day, i: nat)
    requires i < 7
    ensures Weekday(GetDaysInWeek(d)[i]) == DayNumber(DaysOfWeek[i])
  {
    DaysOfWeekMondayFirst(i);
  }

  datatype Direction = Next | Prev | Today

  /** navigateWeek: one week forward, one week back, or the current date. */
  function NavigateWeek(d: Day, dir: Direction, today: Day): (r: Day)
    requires dir == Prev ==> 7 <= d
    ensures dir == Today ==> r == today
    ensures dir != Today ==> Weekday(r) == Weekday(d)
    ensures dir == Next ==> GetDaysInWeek(r)[0] == GetDaysInWeek(d)[0] + 7
    ensures dir == Prev ==> GetDaysInWeek(r)[0] + 7 == GetDaysInWeek(d)[0]
  {
    match dir
    case Today => today
    case Next => WeekLater(d); d + 7
    case Prev => WeekLater(d - 7); d - 7
  }

  /** Going forward a week and back again, or back and forward, returns to the same day. */
  lemma NavigateRoundTrip(d: Day, today: Day)
    ensures NavigateWeek(NavigateWeek(d, Next, today), Prev, today) == d
    ensures 7 <= d ==> NavigateWeek(NavigateWeek(d, Prev, today), Next, today) == d
  {
  }

  /** The `yyyy-MM-dd` text of a civil date. */
  function FormatCivil(c: Civil): string
  {
    Fixed(c.year, 4) + ("-" + (Fixed(c.month, 2) + ("-" + Fixed(c.day, 2))))
  }

  /** formatDate: `format(date, 'yyyy-MM-dd')`. */
  function FormatDate(d: Day): (s: string)
    ensures |s| >= 10
  {
    FormatCivil(FromDay(d))
  }

  /** Below year 10000 the text is exactly `YYYY-MM-DD`, each field zero-padded. */
  lemma FormatCivilShape(c: Civil)
    requires ValidCivil(c) && c.year < 10000
    ensures var s := FormatCivil(c);
      && |s| == 10 && s[4] == '-' && s[7] == '-'
      && s[..4] == Fixed(c.year, 4) && s[5..7] == Fixed(c.month, 2) && s[8..] == Fixed(c.day, 2)
      && IsDigits(s[..4]) && IsDigits(s[5..7]) && IsDigits(s[8..])
      && Value(s[..4]) == c.year && Value(s[5..7]) == c.month && Value(s[8..]) == c.day
  {
    assert Pow10(4) == 10000 by { assert Pow10(2) == 100; }
    FixedDigits(c.year, 4);
    FixedDigits(c.month, 2);
    FixedDigits(c.day, 2);
    var s := FormatCivil(c);
    assert s[..4] == Fixed(c.year, 4);
    assert s[5..7] == Fixed(c.month, 2);
    assert s[8..] == Fixed(c.day, 2);
  }

  /** parseISO reads back every date formatDate writes (years 1 to 9999). */
  lemma ParseFormatDate(d: Day)
    requires FromDay(d).year < 10000
    ensures ParseIsoDate(FormatDate(d)) == Some(d)
  {
    FormatCivilShape(FromDay(d));
  }

  /** formatDate(parseISO(s)) == s for every `YYYY-MM-DD` string parseISO accepts. */
  lemma FormatParseDate(s: string)
    requires ParseIsoDate(s).Some?
    ensures FormatDate(ParseIsoDate(s).value) == s
  {
    var c := Civil(Value(s[..4]), Value(s[5..7]), Value(s[8..]));
    assert ValidCivil(c) && ParseIsoDate(s).value == ToDay(c);
    FromToDay(c);
    assert FormatDate(ToDay(c)) == FormatCivil(c);
    FixedOfValue(s[..4]);
    FixedOfValue(s[5..7]);
    FixedOfValue(s[8..]);
    SplitDate(s);
  }

  /** A ten-character text with dashes at 4 and 7 is its three fields joined by dashes. */
  lemma SplitDate(s: string)
    requires |s| == 10 && s[4] == '-' && s[7] == '-'
    ensures s == s[..4] + ("-" + (s[5..7] + ("-" + s[8..])))
  {
  }

  /** Different days are written differently (month and day always take two digits). */
  lemma FormatDateInjective(a: Day, b: Day)
    requires FormatDate(a) == FormatDate(b)
    ensures a == b
  {
    FormatCivilInjective(FromDay(a), FromDay(b));
  }

  lemma FormatCivilInjective(ca: Civil, cb: Civil)
    requires ValidCivil(ca) && ValidCivil(cb)
    requires FormatCivil(ca) == FormatCivil(cb)
    ensures ca == cb
  {
    FormatCivilFields(ca);
    FormatCivilFields(cb);
    FixedInjective(ca.year, cb.year, 4);
    FixedInjective(ca.month, cb.month, 2);
    FixedInjective(ca.day, cb.day, 2);
  }

  /** The fields of a formatted date sit at fixed distances from its end, whatever the year's width. */
  lemma FormatCivilFields(c: Civil)
    requires ValidCivil(c)
    ensures var s := FormatCivil(c);
      && |s| >= 6
      && s[..|s| - 6] == Fixed(c.year, 4)
      && s[|s| - 5..|s| - 3] == Fixed(c.month, 2)
      && s[|s| - 2..] == Fixed(c.day, 2)
  {
    assert Pow10(2) == 100;
    FixedDigits(c.month, 2);
    FixedDigits(c.day, 2);
    var y := Fixed(c.year, 4);
    var rest := "-" + (Fixed(c.month, 2) + ("-" + Fixed(c.day, 2)));
    var s := FormatCivil(c);
    assert s == y + rest && |rest| == 6;
    assert s[..|s| - 6] == y;
    assert s[|s| - 6..] == rest;
    assert rest[1..3] == Fixed(c.month, 2) && rest[4..] == Fixed(c.day, 2);
  }

  /** Two days have the same text exactly when they are the same day. */
  lemma SameDate(a: Day, b: Day)
    ensures FormatDate(a) == FormatDate(b) <==> a == b
  {
    if FormatDate(a) == FormatDate(b) { FormatDateInjective(a, b); }
  }

  /** String order of formatted dates is date order (years 1 to 9999): what the week query relies on. */
  lemma FormatDateOrder(a: Day, b: Day)
    requires FromDay(a).year < 10000 && FromDay(b).year < 10000
    ensures LexLess(FormatDate(a), FormatDate(b)) <==> a < b
  {
    FormatCivilOrder(FromDay(a), FromDay(b));
    CivilOrder(FromDay(a), FromDay(b));
  }

  lemma FormatCivilOrder(ca: Civil, cb: Civil)
    requires ValidCivil(ca) && ca.year < 10000
    requires ValidCivil(cb) && cb.year < 10000
    ensures LexLess(FormatCivil(ca), FormatCivil(cb)) <==> CivilBefore(ca, cb)
  {
    FormatCivilShape(ca);
    FormatCivilShape(cb);
    var ya, ma, da := Fixed(ca.year, 4), Fixed(ca.month, 2), Fixed(ca.day, 2);
    var yb, mb, db := Fixed(cb.year, 4), Fixed(cb.month, 2), Fixed(cb.day, 2);
    LexLessAppend(ya, "-" + (ma + ("-" + da)), yb, "-" + (mb + ("-" + db)));
    LexLessAppend("-", ma + ("-" + da), "-", mb + ("-" + db));
    LexLessAppend(ma, "-" + da, mb, "-" + db);
    LexLessAppend("-", da, "-", db);
    LexLessIrreflexive("-");
    LexLessDigits(ya, yb);
    LexLessDigits(ma, mb);
    LexLessDigits(da, db);
  }

  /** The integer `parseInt` reads from the front of a string: its leading digits, or NaN (None). */
  function ParseInt(s: string): (r: Option<nat>)
    ensures r.Some? ==> 1 <= |s| && IsDigit(s[0])
  {
    var k := DigitPrefixLength(s);
    if k == 0 then None else Some(Value(s[..k]))
  }

  function DigitPrefixLength(s: string): (k: nat)
    ensures k <= |s| && IsDigits(s[..k])
    ensures k < |s| ==> !IsDigit(s[k])
  {
    if |s| == 0 || !IsDigit(s[0]) then 0
    else
      var k := DigitPrefixLength(s[1..]);
      assert s[..k + 1] == [s[0]] + s[1..][..k];
      k + 1
  }

  /** `s.split(' ')[0]`: the text before the first space. */
  function FirstToken(s: string): (t: string)
    ensures t <= s && ' ' !in t
    ensures |t| < |s| ==> s[|t|] == ' '
  {
    if |s| == 0 || s[0] == ' ' then [] else [s[0]] + FirstToken(s[1..])
  }

  /** The months a duration adds, as calculateEndDate reads them off the label's first word. */
  function DurationMonths(dur: DurationOption): (n: nat)
    requires dur != Indefinido
    ensures 1 <= n <= 6
    ensures ParseInt(FirstToken(DurationLabel(dur))) == Some(n)
  {
    var words := DurationLabel(dur);
    var n := (
      match dur
      case UnMes => 1
      case DosMeses => 2
      case TresMeses => 3
      case CuatroMeses => 4
      case CincoMeses => 5
      case SeisMeses => 6);
    assert FirstToken(words) == [DigitChar(n)] by {
      assert words == [DigitChar(n)] + words[1..] && words[1] == ' ';
    }
    assert DigitPrefixLength([DigitChar(n)]) == 1;
    n
  }

  /** calculateEndDate: no end for 'Indefinido', otherwise `addMonths(start, N)` with N read from the label. */
  function CalculateEndDate(start: Day, dur: DurationOption): (r: Option<Day>)
    ensures r.None? <==> dur == Indefinido
    ensures r.Some? ==> start < r.value
    ensures r.Some? ==> MonthIndex(FromDay(r.value)) == MonthIndex(FromDay(start)) + DurationMonths(dur)
  {
    if dur == Indefinido then None
    else
      var n := DurationMonths(dur);
      AddMonthsLater(start, n);
      AddMonthsCivil(start, n);
      Some(AddMonths(start, n))
  }

  /** Every duration the form offers is 'Indefinido' or starts with a month count calculateEndDate can read. */
  lemma DurationOptionsParse()
    ensures forall i :: 0 <= i < |DurationOptions| ==>
      DurationOptions[i] == Indefinido || ParseInt(FirstToken(DurationLabel(DurationOptions[i]))).Some?
  {
    forall i | 0 <= i < |DurationOptions| && DurationOptions[i] != Indefinido
      ensures ParseInt(FirstToken(DurationLabel(DurationOptions[i]))).Some?
    {
      var n := DurationMonths(DurationOptions[i]);
    }
  }

  const MinutesPerDay := 24 * MinutesPerHour

  /** An instant, in minutes from 0001-01-01 00:00 local time. */
  type Instant = nat

  /** The instant `setMinutes(setHours(day, h), m)` with `t = h * 60 + m`; both setters roll over. */
  function InstantOf(d: Day, t: TimeOfDay): Instant
  {
    d * MinutesPerDay + t
  }

  /**
   * combineDateAndTime on a `YYYY-MM-DD` text: None where the source throws
   * because the text names no real date; texts of other ISO forms are outside the model.
   */
  function CombineDateAndTime(dateStr: string, t: TimeOfDay): (r: Option<Instant>)
    ensures r.Some? <==> ParseIsoDate(dateStr).Some?
  {
    match ParseIsoDate(dateStr)
    case None => None
    case Some(d) => Some(InstantOf(d, t))
  }

  /** For a fixed date, combined instants are ordered as the times of day are. */
  lemma CombineOrdered(dateStr: string, t1: TimeOfDay, t2: TimeOfDay)
    requires ParseIsoDate(dateStr).Some?
    ensures CombineDateAndTime(dateStr, t1).value < CombineDateAndTime(dateStr, t2).value <==> t1 < t2
  {
  }

  /** Within a day, an earlier day's instant precedes a later day's. */
  lemma InstantDayOrder(a: Day, b: Day, t1: TimeOfDay, t2: TimeOfDay)
    requires a < b && t1 < MinutesPerDay
    ensures InstantOf(a, t1) < InstantOf(b, t2)
  {
    MulLeft(a + 1, b, MinutesPerDay);
  }

  /** Combining a formatted day with a time is the day's instant. */
  lemma CombineFormatted(d: Day, t: TimeOfDay)
    requires FromDay(d).year < 10000
    ensures CombineDateAndTime(FormatDate(d), t) == Some(InstantOf(d, t))
  {
    ParseFormatDate(d);
  }

  /**
   * The occurrence test shared by isRecurringBookingInWeek and the week query:
   * the day has the booking's weekday and lies on or after its start and, when
   * it has an end, on or before that end.
   */
  predicate OccursOn(startDate: Day, endDate: Option<Day>, dow: DayOfWeek, d: Day)
  {
    Weekday(d) == DayNumber(dow) && startDate <= d && (endDate.None? || d <= endDate.value)
  }

  /** isDateWithinInterval: `date >= start` without an end, otherwise inclusive at both ends. */
  function IsDateWithinInterval(d: Day, start: Day, end: Option<Day>): (r: bool)
  {
    if end.None? then d >= start
    else start <= d <= end.value
  }

  /** An occurrence is a day of the right weekday within the booking's interval. */
  lemma OccursOnWithin(startDate: Day, endDate: Option<Day>, dow: DayOfWeek, d: Day)
    ensures OccursOn(startDate, endDate, dow, d)
            <==> Weekday(d) == DayNumber(dow) && IsDateWithinInterval(d, startDate, endDate)
  {
  }

  /** The end of the interval only matters when there is one: without it every later day is within. */
  lemma WithinUnbounded(d: Day, start: Day, end: Day)
    requires start <= d
    ensures IsDateWithinInterval(d, start, None)
    ensures IsDateWithinInterval(d, start, Some(end)) <==> d <= end
  {
  }

  /** The recurring booking occurs on one of the given days. */
  ghost predicate OccursInWeek(startDate: Day, endDate: Option<Day>, dow: DayOfWeek, weekDays: seq<Day>)
  {
    exists i :: 0 <= i < |weekDays| && OccursOn(startDate, endDate, dow, weekDays[i])
  }

  /** `formatDate(a) === formatDate(b)`: the same day. */
  method SameFormattedDate(a: Day, b: Day) returns (same: bool)
    ensures same <==> a == b
  {
    SameDate(a, b);
    same := FormatDate(a) == FormatDate(b);
  }

  /**
   * isRecurringBookingInWeek: scan the days for one with the booking's weekday
   * that is on or after the start (`>=` or the same formatted date) and, when
   * there is an end, on or before it.
   */
  method IsRecurringBookingInWeek(startDate: Day, endDate: Option<Day>, dow: DayOfWeek, weekDays: seq<Day>)
    returns (found: bool)
    ensures found <==> OccursInWeek(startDate, endDate, dow, weekDays)
  {
    var wanted := DayNumber(dow);
    for i := 0 to |weekDays|
      invariant forall j :: 0 <= j < i ==> !OccursOn(startDate, endDate, dow, weekDays[j])
    {
      var day := weekDays[i];
      if Weekday(day) == wanted {
        var sameAsStart := SameFormattedDate(day, startDate);
        var afterStart := day >= startDate || sameAsStart;
        var beforeEnd := true;
        if endDate.Some? {
          var sameAsEnd := SameFormattedDate(day, endDate.value);
          beforeEnd := day <= endDate.value || sameAsEnd;
        }
        if afterStart && beforeEnd {
          return true;
        }
      }
    }
    return false;
  }

  /** A recurring booking shows in a week only on its own weekday's column. */
  lemma OccursInWeekColumn(startDate: Day, endDate: Option<Day>, dow: DayOfWeek, d: Day)
    requires OccursInWeek(startDate, endDate, dow, GetDaysInWeek(d))
    ensures exists i :: 0 <= i < 7 && DaysOfWeek[i] == dow && OccursOn(startDate, endDate, dow, GetDaysInWeek(d)[i])
  {
    var week := GetDaysInWeek(d);
    var i :| 0 <= i < 7 && OccursOn(startDate, endDate, dow, week[i]);
    WeekColumns(d, i);
    DayNumberBijective();
  }

  /** getDaysInMonth: every day from the Monday of the week of `d` to the last day of `d`'s month. */
  function GetDaysInMonth(d: Day): (days: seq<Day>)
    ensures |days| == EndOfMonth(d) - StartOfWeek(d) + 1
    ensures Weekday(days[0]) == 1 && days[0] <= d < days[0] + 7
    ensures forall i :: 0 <= i < |days| ==> days[i] == days[0] + i
    ensures d in days
    ensures days[|days| - 1] == EndOfMonth(d)
  {
    var start := StartOfWeek(d);
    var end := EndOfMonth(d);
    var days := DayRun(start, end - start + 1);
    assert days[d - start] == d;
    assert days[|days| - 1] == end;
    days
  }

  /** `eachDayOfInterval`: n consecutive days from `start`. */
  function DayRun(start: Day, n: nat): (days: seq<Day>)
    ensures |days| == n && forall i :: 0 <= i < n ==> days[i] == start + i
  {
    seq(n, i => start + i)
  }
}
