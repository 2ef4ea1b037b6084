/**
 * The proleptic Gregorian calendar that date-fns works in, with days counted
 * from 0001-01-01 (a Monday).  Only whole days matter to the booking engine:
 * every date it compares is a `YYYY-MM-DD` string read at local midnight.
 */
module Calendar {
  import opened Wrappers
  import opened Text

  /** A calendar day: the number of days since 0001-01-01. */
  type Day = nat

  /** A civil date `year-month-day`. */
  datatype Civil = Civil(year: nat, month: nat, day: nat)

  predicate IsLeapYear(y: nat)
  {
    y % 4 == 0 && (y % 100 != 0 || y % 400 == 0)
  }

  function DaysInYear(y: nat): nat
  {
    if IsLeapYear(y) then 366 else 365
  }

  function DaysInMonth(y: nat, m: nat): (n: nat)
    requires 1 <= m <= 12
    ensures 28 <= n <= 31
  {
    if m == 2 then (if IsLeapYear(y) then 29 else 28)
    else if m == 4 || m == 6 || m == 9 || m == 11 then 30
    else 31
  }

  predicate ValidCivil(c: Civil)
  {
    1 <= c.year && 1 <= c.month <= 12 && 1 <= c.day <= DaysInMonth(c.year, c.month)
  }

  /** Days in the years 1 .. y-1. */
  function DaysBeforeYear(y: nat): nat
    requires 1 <= y
  {
    var p := y - 1;
    365 * p + p / 4 - p / 100 + p / 400
  }

  /** Days in the months 1 .. m-1 of year y. */
  function DaysBeforeMonth(y: nat, m: nat): nat
    requires 1 <= m <= 12
  {
    var common :=
      if m == 1 then 0 else if m == 2 then 31 else if m == 3 then 59
      else if m == 4 then 90 else if m == 5 then 120 else if m == 6 then 151
      else if m == 7 then 181 else if m == 8 then 212 else if m == 9 then 243
      else if m == 10 then 273 else if m == 11 then 304 else 334;
    if m > 2 && IsLeapYear(y) then common + 1 else common
  }

  lemma DaysBeforeYearStep(y: nat)
    requires 1 <= y
    ensures DaysBeforeYear(y + 1) == DaysBeforeYear(y) + DaysInYear(y)
  {
    QuotientStep4(y);
    QuotientStep100(y);
    QuotientStep400(y);
    DivisorsNest(y);
    var a, b, c := y / 4 - (y - 1) / 4, y / 100 - (y - 1) / 100, y / 400 - (y - 1) / 400;
    assert DaysBeforeYear(y + 1) - DaysBeforeYear(y) == 365 + a - b + c;
  }

  lemma DivisorsNest(y: nat)
    ensures y % 400 == 0 ==> y % 100 == 0
    ensures y % 100 == 0 ==> y % 4 == 0
  {
    if y % 400 == 0 {
      assert y == (y / 400 * 4) * 100;
      HundredsMod(y / 400 * 4);
    }
    if y % 100 == 0 {
      assert y == (y / 100 * 25) * 4;
      FoursMod(y / 100 * 25);
    }
  }

  lemma HundredsMod(q: nat)
    ensures (q * 100) % 100 == 0
  {
  }

  lemma FoursMod(q: nat)
    ensures (q * 4) % 4 == 0
  {
  }

  lemma QuotientStep4(y: nat)
    requires 1 <= y
    ensures y / 4 - (y - 1) / 4 == if y % 4 == 0 then 1 else 0
  {
  }

  lemma QuotientStep100(y: nat)
    requires 1 <= y
    ensures y / 100 - (y - 1) / 100 == if y % 100 == 0 then 1 else 0
  {
  }

  lemma QuotientStep400(y: nat)
    requires 1 <= y
    ensures y / 400 - (y - 1) / 400 == if y % 400 == 0 then 1 else 0
  {
  }

  /** Every day of an earlier year comes before the first day of a later one. */
  lemma {:induction false} DaysBeforeYearGrows(y1: nat, y2: nat)
    requires 1 <= y1 < y2
    ensures DaysBeforeYear(y1) + DaysInYear(y1) <= DaysBeforeYear(y2)
    decreases y2 - y1
  {
    DaysBeforeYearStep(y1);
    if y1 + 1 < y2 {
      DaysBeforeYearGrows(y1 + 1, y2);
    }
  }

  /** The day number of a valid civil date. */
  function ToDay(c: Civil): Day
    requires ValidCivil(c)
  {
    DaysBeforeYear(c.year) + DaysBeforeMonth(c.year, c.month) + c.day - 1
  }

  /** Splits `d` days counted from the start of year `y` into a year and a day of that year. */
  function YearSplit(d: nat, y: nat): (r: (nat, nat))
    requires 1 <= y
    ensures y <= r.0 && r.1 < DaysInYear(r.0)
    ensures DaysBeforeYear(r.0) + r.1 == DaysBeforeYear(y) + d
    decreases d
  {
    if d < DaysInYear(y) then (y, d)
    else
      DaysBeforeYearStep(y);
      YearSplit(d - DaysInYear(y), y + 1)
  }

  /** Splits day `r` of year `y`, counted from the start of month `m`, into a month and a day of that month. */
  function MonthSplit(y: nat, r: nat, m: nat): (res: (nat, nat))
    requires 1 <= m <= 12
    requires DaysBeforeMonth(y, m) + r < DaysInYear(y)
    ensures m <= res.0 <= 12 && res.1 < DaysInMonth(y, res.0)
    ensures DaysBeforeMonth(y, res.0) + res.1 == DaysBeforeMonth(y, m) + r
    decreases 12 - m
  {
    if r < DaysInMonth(y, m) then (m, r)
    else MonthSplit(y, r - DaysInMonth(y, m), m + 1)
  }

  /** The civil date of a day number. */
  function FromDay(d: Day): (c: Civil)
    ensures ValidCivil(c) && ToDay(c) == d
  {
    var (y, r) := YearSplit(d, 1);
    var (m, k) := MonthSplit(y, r, 1);
    Civil(y, m, k + 1)
  }

  /** Chronological order of civil dates: by year, then month, then day. */
  predicate CivilBefore(a: Civil, b: Civil)
  {
    a.year < b.year
    || (a.year == b.year && a.month < b.month)
    || (a.year == b.year && a.month == b.month && a.day < b.day)
  }

  /** A later civil date has a larger day number. */
  lemma ToDayIncreasing(a: Civil, b: Civil)
    requires ValidCivil(a) && ValidCivil(b) && CivilBefore(a, b)
    ensures ToDay(a) < ToDay(b)
  {
    if a.year < b.year {
      DaysBeforeYearGrows(a.year, b.year);
    }
  }

  /** Chronological order and day-number order agree. */
  lemma CivilOrder(a: Civil, b: Civil)
    requires ValidCivil(a) && ValidCivil(b)
    ensures CivilBefore(a, b) <==> ToDay(a) < ToDay(b)
    ensures a == b <==> ToDay(a) == ToDay(b)
  {
    if CivilBefore(a, b) {
      ToDayIncreasing(a, b);
    } else if CivilBefore(b, a) {
      ToDayIncreasing(b, a);
    }
  }

  /** Reading the civil date of a day number and counting it again is the identity, both ways. */
  lemma FromToDay(c: Civil)
    requires ValidCivil(c)
    ensures FromDay(ToDay(c)) == c
  {
    CivilOrder(FromDay(ToDay(c)), c);
  }

  /** Months counted from January of year 1. */
  function MonthIndex(c: Civil): int
  {
    (c.year as int - 1) * 12 + c.month as int - 1
  }

  function Min(a: nat, b: nat): nat { if a <= b then a else b }

  /**
   * date-fns `addMonths` on civil fields: the same day of the month `n` months
   * later, clamped to the last day of that month (Jan 31 + 1 month = Feb 28 or 29).
   */
  function ShiftMonths(c: Civil, n: nat): (e: Civil)
    requires ValidCivil(c)
    ensures ValidCivil(e)
    ensures MonthIndex(e) == MonthIndex(c) + n
    ensures e.day == Min(c.day, DaysInMonth(e.year, e.month))
  {
    var index := (c.year - 1) * 12 + (c.month - 1) + n;
    YearMonthOfIndex(index);
    var y := index / 12 + 1;
    var m := index % 12 + 1;
    Civil(y, m, Min(c.day, DaysInMonth(y, m)))
  }

  /** A month index splits into a year from 1 and a month from 1 to 12 that give the index back. */
  lemma YearMonthOfIndex(index: nat)
    ensures 1 <= index % 12 + 1 <= 12
    ensures (index / 12 + 1 - 1) * 12 + (index % 12 + 1) - 1 == index
  {
  }

  /** date-fns `addMonths(date, n)` on day numbers. */
  function AddMonths(d: Day, n: nat): (r: Day)
  {
    ToDay(ShiftMonths(FromDay(d), n))
  }

  /** Day 0 is 0001-01-01. */
  lemma FirstDay()
    ensures FromDay(0) == Civil(1, 1, 1)
  {
    assert YearSplit(0, 1) == (1, 0);
    assert MonthSplit(1, 0, 1) == (1, 0);
  }

  /** One month after 0001-01-01 is 0001-02-01. */
  lemma ShiftFirstDay()
    ensures ShiftMonths(Civil(1, 1, 1), 1) == Civil(1, 2, 1)
  {
    assert 1 / 12 == 0 && 1 % 12 == 1;
    assert DaysInMonth(1, 2) == 28;
  }

  /** 0001-02-01 is day 31. */
  lemma FirstOfFebruary()
    ensures ToDay(Civil(1, 2, 1)) == 31
  {
    assert DaysBeforeYear(1) == 0;
    assert DaysBeforeMonth(1, 2) == 31;
  }

  /** One month after 0001-01-01 is 0001-02-01, day 31. */
  lemma OneMonthAfterFirstDay()
    ensures AddMonths(0, 1) == 31
  {
    FirstDay();
    ShiftFirstDay();
    FirstOfFebruary();
  }

  /** The month of `AddMonths(d, n)` is `n` months after that of `d`, and its day is the clamped day of `d`. */
  lemma AddMonthsCivil(d: Day, n: nat)
    ensures MonthIndex(FromDay(AddMonths(d, n))) == MonthIndex(FromDay(d)) + n
    ensures FromDay(AddMonths(d, n)).day
            == Min(FromDay(d).day, DaysInMonth(FromDay(AddMonths(d, n)).year, FromDay(AddMonths(d, n)).month))
  {
    FromToDay(ShiftMonths(FromDay(d), n));
  }

  /** Adding months never moves a date backwards, and adding at least one month moves it forwards. */
  lemma AddMonthsLater(d: Day, n: nat)
    ensures d <= AddMonths(d, n)
    ensures 1 <= n ==> d < AddMonths(d, n)
  {
    var c := FromDay(d);
    var e := FromDay(AddMonths(d, n));
    AddMonthsCivil(d, n);
    if n == 0 {
      assert e.year == c.year && e.month == c.month;
      assert e == c;
    } else {
      assert CivilBefore(c, e);
      ToDayIncreasing(c, e);
    }
  }

  /** The first day of the month that `d` lies in. */
  function StartOfMonth(d: Day): (r: Day)
    ensures r <= d
    ensures FromDay(r) == Civil(FromDay(d).year, FromDay(d).month, 1)
  {
    var c := FromDay(d);
    var first := Civil(c.year, c.month, 1);
    FromToDay(first);
    ToDay(first)
  }

  /** date-fns `endOfMonth`, at day granularity: the last day of the month that `d` lies in. */
  function EndOfMonth(d: Day): (r: Day)
    ensures d <= r
    ensures FromDay(r) == Civil(FromDay(d).year, FromDay(d).month, DaysInMonth(FromDay(d).year, FromDay(d).month))
  {
    var c := FromDay(d);
    var last := Civil(c.year, c.month, DaysInMonth(c.year, c.month));
    FromToDay(last);
    CivilOrder(c, last);
    ToDay(last)
  }

  /** date-fns `getDay`: 0 for Sunday, 1 for Monday, ..., 6 for Saturday (day 0 is a Monday). */
  function Weekday(d: Day): (w: nat)
    ensures w < 7
  {
    (d + 1) % 7
  }

  /** date-fns `startOfWeek(d, { weekStartsOn: 1 })`: the Monday on or before `d`. */
  function StartOfWeek(d: Day): (r: Day)
    ensures r <= d < r + 7
    ensures Weekday(r) == 1
  {
    d - d % 7
  }

  /** A week later is the same weekday, and its week starts a week later. */
  lemma WeekLater(d: Day)
    ensures Weekday(d + 7) == Weekday(d)
    ensures StartOfWeek(d + 7) == StartOfWeek(d) + 7
  {
    WeekMod(d);
    WeekMod(d + 1);
  }

  lemma WeekMod(d: nat)
    ensures (d + 7) % 7 == d % 7
  {
  }

  /**
   * date-fns `parseISO` on the one form the application writes: a calendar
   * date in the complete extended form `YYYY-MM-DD` (ISO 8601:2004, section
   * 4.1.2.2).  Such a text naming a date that does not exist, such as
   * `2025-02-30`, is an invalid date.  The other forms `parseISO` reads
   * (reduced precision, basic format, week and ordinal dates, date-times)
   * are not modelled and give None here.
   */
  function ParseIsoDate(s: string): (r: Option<Day>)
    ensures r.Some? ==> |s| == 10 && s[4] == '-' && s[7] == '-'
  {
    if |s| == 10 && s[4] == '-' && s[7] == '-'
       && IsDigits(s[..4]) && IsDigits(s[5..7]) && IsDigits(s[8..])
    then
      var c := Civil(Value(s[..4]), Value(s[5..7]), Value(s[8..]));
      if ValidCivil(c) then Some(ToDay(c)) else None
    else None
  }
}
