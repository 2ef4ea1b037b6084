/**
 * Times of day.  The source keeps them as zero-padded `HH:mm` strings and turns
 * them into instants with `split(':').map(Number)` and the `setHours` and
 * `setMinutes` setters; here a time of day is the number of minutes since
 * midnight.  The text of such a count always has minutes below 60, and for
 * those both orders of the setters (combineDateAndTime sets the hours first,
 * parseTimeString the minutes first) give the midnight plus the count, hours
 * past 23 rolling into the following days.
 */
module Clock {
  import opened Wrappers
  import opened Text

  /** Minutes since midnight. */
  type TimeOfDay = nat

  const MinutesPerHour := 60

  /** The zero-padded `HH:mm` text of a time (two-digit hours below 100). */
  function FormatTime(t: TimeOfDay): string
  {
    Fixed(t / MinutesPerHour, 2) + (":" + Fixed(t % MinutesPerHour, 2))
  }

  /**
   * `HH:mm` read as combineDateAndTime reads it, `hours * 60 + minutes`; text
   * of any other shape is not a time.
   */
  function ParseTime(s: string): (r: Option<TimeOfDay>)
    ensures r.Some? ==> |s| == 5 && s[2] == ':'
  {
    if |s| == 5 && s[2] == ':' && IsDigits(s[..2]) && IsDigits(s[3..])
    then Some(Value(s[..2]) * MinutesPerHour + Value(s[3..]))
    else None
  }

  /** Below 100 hours the text is `HH:mm`: two digits, a colon, two digits. */
  lemma FormatTimeShape(t: TimeOfDay)
    requires t < 100 * MinutesPerHour
    ensures |FormatTime(t)| == 5 && FormatTime(t)[2] == ':'
    ensures FormatTime(t)[..2] == Fixed(t / MinutesPerHour, 2) && FormatTime(t)[3..] == Fixed(t % MinutesPerHour, 2)
    ensures IsDigits(FormatTime(t)[..2]) && IsDigits(FormatTime(t)[3..])
    ensures Value(FormatTime(t)[..2]) == t / MinutesPerHour && Value(FormatTime(t)[3..]) == t % MinutesPerHour
  {
    assert Pow10(2) == 100;
    FixedDigits(t / MinutesPerHour, 2);
    FixedDigits(t % MinutesPerHour, 2);
    var s := FormatTime(t);
    assert s[..2] == Fixed(t / MinutesPerHour, 2);
    assert s[3..] == Fixed(t % MinutesPerHour, 2);
  }

  /** Reading back a formatted time gives the same time. */
  lemma ParseFormatTime(t: TimeOfDay)
    requires t < 100 * MinutesPerHour
    ensures ParseTime(FormatTime(t)) == Some(t)
  {
    FormatTimeShape(t);
  }

  /** Times compare by hour, then by minute. */
  lemma HourMinuteOrder(a: TimeOfDay, b: TimeOfDay)
    ensures a < b <==> a / MinutesPerHour < b / MinutesPerHour
                       || (a / MinutesPerHour == b / MinutesPerHour && a % MinutesPerHour < b % MinutesPerHour)
    ensures a == b <==> a / MinutesPerHour == b / MinutesPerHour && a % MinutesPerHour == b % MinutesPerHour
  {
  }

  /** Zero-padded `HH:mm` strings compare as their times do. */
  lemma FormatTimeOrder(a: TimeOfDay, b: TimeOfDay)
    requires a < 100 * MinutesPerHour && b < 100 * MinutesPerHour
    ensures LexLess(FormatTime(a), FormatTime(b)) <==> a < b
    ensures FormatTime(a) == FormatTime(b) <==> a == b
  {
    FormatTimeShape(a);
    FormatTimeShape(b);
    var ha, ma := Fixed(a / MinutesPerHour, 2), Fixed(a % MinutesPerHour, 2);
    var hb, mb := Fixed(b / MinutesPerHour, 2), Fixed(b % MinutesPerHour, 2);
    LexLessAppend(ha, ":" + ma, hb, ":" + mb);
    LexLessAppend(":", ma, ":", mb);
    LexLessIrreflexive(":");
    LexLessDigits(ha, hb);
    LexLessDigits(ma, mb);
    HourMinuteOrder(a, b);
    if FormatTime(a) == FormatTime(b) {
      assert ha == FormatTime(a)[..2] == hb && ma == FormatTime(a)[3..] == mb;
    }
  }
}
