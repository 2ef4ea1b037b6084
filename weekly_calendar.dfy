/**
 * The placement helpers of the weekly grid (src/components/calendar/WeeklyCalendar.tsx):
 * whether a booking falls on a day, which rows it spans, and which cell draws it.
 */
module WeeklyCalendar {
  import opened Wrappers
  import opened Calendar
  import opened Clock
  import opened Types
  import opened Constants
  import opened DateUtils
  import opened Actions

  /**
   * isEventOnDay: a single booking by its `yyyy-MM-dd` text; a recurring one
   * by weekday and then by the inclusive range up to its end, or up to the
   * 1825-day stand-in when it has none.
   */
  predicate IsEventOnDay(b: Booking, day: Day)
  {
    if b.Single? then FormatDate(b.date) == FormatDate(day)
    else if Weekday(day) != DayNumber(b.dayOfWeek) then false
    else WithinInterval(day, b.startDate, EndOrStandIn(b.startDate, b.endDate))
  }

  /** A single booking is on exactly its own day. */
  lemma SingleOnItsDay(b: Booking, day: Day)
    requires b.Single?
    ensures IsEventOnDay(b, day) <==> b.date == day
  {
    SameDate(b.date, day);
  }

  /**
   * A recurring booking is on a day exactly when the day is an occurrence with
   * the stand-in end; never on a day of another weekday.
   */
  lemma RecurringOnDay(b: Booking, day: Day)
    requires b.Recurring?
    ensures IsEventOnDay(b, day) <==> OccursOn(b.startDate, Some(EndOrStandIn(b.startDate, b.endDate)), b.dayOfWeek, day)
    ensures Weekday(day) != DayNumber(b.dayOfWeek) ==> !IsEventOnDay(b, day)
  {
  }

  /**
   * The week query and the grid disagree about open-ended bookings: past the
   * 1825-day stand-in the week query still fetches the booking for every
   * later week, but the grid shows it on no day of that week.
   */
  lemma OpenEndedBeyondStandIn(b: Booking, weekStart: Day)
    requires b.Recurring? && b.endDate.None?
    requires b.startDate + UnboundedSpanDays < weekStart
    ensures OccursInWeek(b.startDate, b.endDate, b.dayOfWeek, DaysFrom(weekStart))
    ensures forall i :: 0 <= i < 7 ==> !IsEventOnDay(b, DaysFrom(weekStart)[i])
  {
    var i := EveryWeekdayInWeek(weekStart, b.dayOfWeek);
    assert OccursOn(b.startDate, b.endDate, b.dayOfWeek, DaysFrom(weekStart)[i]);
  }

  /** `getHours` of the time parsed onto today: hours past 23 roll into the next day. */
  function Hours(t: TimeOfDay): nat
  {
    (t / MinutesPerHour) % 24
  }

  /** `getMinutes` of the parsed time. */
  function Minutes(t: TimeOfDay): nat
  {
    t % MinutesPerHour
  }

  /** The grid row of a time: two rows per hour from 08:00 (row 1); only a minute of exactly 30 takes the lower half. */
  function GridRow(t: TimeOfDay): int
  {
    (Hours(t) - 8) * 2 + (if Minutes(t) == 30 then 1 else 0) + 1
  }

  datatype Placement = Placement(gridRowStart: int, gridRowEnd: int)

  /**
   * getEventPositionAndSpan: the event runs from the row of its start time to
   * the row of its end time.  What those rows mean is proved separately:
   * GridRowOfSlot places slot i on row i + 1, and SpanCountsHalfHours shows
   * the span is the event's length in half hours.
   */
  function EventPositionAndSpan(b: Booking): (p: Placement)
    ensures p.gridRowStart == GridRow(b.startTime) && p.gridRowEnd == GridRow(b.endTime)
  {
    var rowStart := GridRow(b.startTime);
    var rowEnd := GridRow(b.endTime);
    var durationInSlots := rowEnd - rowStart;
    Placement(rowStart, rowStart + durationInSlots)
  }

  /** Slot i of the grid (08:00 is slot 0) sits in row i + 1. */
  lemma GridRowOfSlot(i: nat)
    requires i < SlotCount
    ensures GridRow(SlotMinutes(i)) == i + 1
  {
    var t := SlotMinutes(i);
    MinutesOfSlot(i);
    assert t / MinutesPerHour == 8 + i / 2;
  }

  /** A booking from slot i to slot j spans j - i rows: its length in half hours, positive when it ends after it starts. */
  lemma SpanCountsHalfHours(b: Booking, i: nat, j: nat)
    requires i < SlotCount && j < SlotCount
    requires b.startTime == SlotMinutes(i) && b.endTime == SlotMinutes(j)
    ensures var p := EventPositionAndSpan(b);
      && p.gridRowEnd - p.gridRowStart == j - i
      && p.gridRowEnd - p.gridRowStart == (b.endTime - b.startTime) / 30
      && (b.startTime < b.endTime ==> p.gridRowEnd > p.gridRowStart)
  {
    GridRowOfSlot(i);
    GridRowOfSlot(j);
  }

  /** A minute value other than 30 is placed as if it were :00. */
  lemma OffSlotMinutesRoundDown(h: nat, m: nat)
    requires h < 24 && m < MinutesPerHour && m != 30
    ensures GridRow(h * MinutesPerHour + m) == GridRow(h * MinutesPerHour)
  {
    assert (h * MinutesPerHour + m) / MinutesPerHour == h;
    assert (h * MinutesPerHour + m) % MinutesPerHour == m;
  }

  /** The cell filter: the booking is on the cell's day and its start time text is the slot's. */
  predicate CellShows(b: Booking, day: Day, slot: TimeSlot)
  {
    IsEventOnDay(b, day) && FormatTime(b.startTime) == slot.time
  }

  /**
   * A booking is drawn in slot j of a day exactly when it is on that day and
   * starts at slot j's time (start times below 100 hours), so in at most one
   * cell per day, and not at all when it starts off the half-hour grid.
   */
  lemma CellShowsAtStartSlot(b: Booking, day: Day, j: nat)
    requires j < SlotCount && b.startTime < 100 * MinutesPerHour
    ensures CellShows(b, day, TimeSlots()[j]) <==> IsEventOnDay(b, day) && b.startTime == SlotMinutes(j)
  {
    SlotAt(j);
    FormatTimeOrder(b.startTime, SlotMinutes(j));
  }

  /** Two cells of one day never both draw the same booking. */
  lemma AtMostOneCell(b: Booking, day: Day, j: nat, k: nat)
    requires j < SlotCount && k < SlotCount && b.startTime < 100 * MinutesPerHour
    requires CellShows(b, day, TimeSlots()[j]) && CellShows(b, day, TimeSlots()[k])
    ensures j == k
  {
    CellShowsAtStartSlot(b, day, j);
    CellShowsAtStartSlot(b, day, k);
  }
}
