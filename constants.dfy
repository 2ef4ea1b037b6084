/** The fixed tables of the calendar (src/lib/constants.ts). */
module Constants {
  import opened Wrappers
  import opened Text
  import opened Clock
  import opened Types

  const Teachers: seq<Teacher> := [Oski, Flor, Joa]

  /** The colours the form offers: the first five of the fifteen. */
  const BookingColors: seq<BookingColor> := [Red, Teal, Blue, Yellow, Purple]

  /** The durations the form offers. */
  const DurationOptions: seq<DurationOption> := [UnMes, TresMeses, SeisMeses, Indefinido]

  /** The column order of the weekly grid: Monday first. */
  const DaysOfWeek: seq<DayOfWeek> := [Lunes, Martes, Miercoles, Jueves, Viernes, Sabado, Domingo]

  /** DAYS_OF_WEEK_ENGLISH_MAP: the `getDay` number of each weekday name, Domingo = 0. */
  function DayNumber(d: DayOfWeek): (n: nat)
    ensures n < 7
  {
    match d
    case Domingo => 0
    case Lunes => 1
    case Martes => 2
    case Miercoles => 3
    case Jueves => 4
    case Viernes => 5
    case Sabado => 6
  }

  /** The weekday name of a `getDay` number. */
  function DayOfNumber(n: nat): DayOfWeek
    requires n < 7
  {
    DaysOfWeek[(n + 6) % 7]
  }

  /** The weekday table is a bijection between the seven names and 0..6. */
  lemma DayNumberBijective()
    ensures forall d :: DayOfNumber(DayNumber(d)) == d
    ensures forall n :: n < 7 ==> DayNumber(DayOfNumber(n)) == n
    ensures forall d, e :: DayNumber(d) == DayNumber(e) ==> d == e
  {
  }

  /** Column i of the grid (Monday first) holds `getDay` number (i + 1) mod 7. */
  lemma DaysOfWeekMondayFirst(i: nat)
    requires i < 7
    ensures DayNumber(DaysOfWeek[i]) == (i + 1) % 7
  {
  }

  /** The first minute of row i of the grid: 08:00 plus i half hours. */
  function SlotMinutes(i: nat): TimeOfDay
  {
    8 * MinutesPerHour + 30 * i
  }

  const SlotCount := 29

  /** TIME_SLOTS: 08:00, 08:30, ..., 21:30, 22:00; the full hours are marked. */
  function TimeSlots(): (slots: seq<TimeSlot>)
    ensures |slots| == SlotCount
  {
    seq(SlotCount, i requires 0 <= i < SlotCount => TimeSlot(FormatTime(SlotMinutes(i)), i % 2 == 0))
  }

  lemma FixedMinutes()
    ensures Fixed(0, 2) == "00" && Fixed(30, 2) == "30"
  {
    assert NatToString(0) == ['0'];
    assert NatToString(3) == ['3'];
    assert NatToString(30) == NatToString(3) + ['0'];
  }

  lemma PaddedHour(hour: nat, m: nat)
    requires hour < 24 && (m == 0 || m == 30)
    ensures FormatTime(hour * MinutesPerHour + m) == Fixed(hour, 2) + (if m == 0 then ":00" else ":30")
  {
    FixedMinutes();
    var t := hour * MinutesPerHour + m;
    assert t / MinutesPerHour == hour && t % MinutesPerHour == m;
  }

  /** Row i of the grid in the words of generateTimeSlots: the padded hour, then `:00` or `:30`. */
  lemma SlotText(i: nat)
    requires i < SlotCount
    ensures TimeSlots()[i] == TimeSlot(Fixed(8 + i / 2, 2) + (if i % 2 == 0 then ":00" else ":30"), i % 2 == 0)
  {
    assert SlotMinutes(i) == (8 + i / 2) * MinutesPerHour + (if i % 2 == 0 then 0 else 30);
    PaddedHour(8 + i / 2, if i % 2 == 0 then 0 else 30);
  }

  /** The two rows of a full hour of the grid. */
  lemma HourRows(hour: nat)
    requires 8 <= hour < 22
    ensures TimeSlots()[2 * (hour - 8)] == TimeSlot(Fixed(hour, 2) + ":00", true)
    ensures TimeSlots()[2 * (hour - 8) + 1] == TimeSlot(Fixed(hour, 2) + ":30", false)
  {
    var k := 2 * (hour - 8);
    assert k / 2 == hour - 8 && (k + 1) / 2 == hour - 8 && k % 2 == 0 && (k + 1) % 2 == 1;
    SlotText(k);
    SlotText(k + 1);
  }

  lemma GrowPrefix(s: seq<TimeSlot>, k: nat)
    requires k + 2 <= SlotCount && s == TimeSlots()[..k]
    ensures s + [TimeSlots()[k], TimeSlots()[k + 1]] == TimeSlots()[..k + 2]
  {
  }

  /** generateTimeSlots: two rows per hour from 08:00 to 21:30, then a closing 22:00 row. */
  method GenerateTimeSlots() returns (slots: seq<TimeSlot>)
    ensures slots == TimeSlots()
  {
    slots := [];
    var hour := 8;
    while hour < 22
      invariant 8 <= hour <= 22
      invariant |slots| == 2 * (hour - 8)
      invariant slots == TimeSlots()[..|slots|]
    {
      HourRows(hour);
      GrowPrefix(slots, |slots|);
      slots := slots + [TimeSlot(Fixed(hour, 2) + ":00", true), TimeSlot(Fixed(hour, 2) + ":30", false)];
      hour := hour + 1;
    }
    LastSlot();
    slots := slots + [TimeSlot("22:00", true)];
    assert slots == TimeSlots()[..SlotCount];
    assert TimeSlots()[..SlotCount] == TimeSlots();
  }

  lemma LastSlot()
    ensures TimeSlots()[SlotCount - 1] == TimeSlot("22:00", true)
  {
    SlotText(SlotCount - 1);
    TwoDigitHours();
    assert "22" + ":00" == "22:00";
  }

  /** The grid runs from 08:00 to 22:00. */
  lemma TimeSlotsBounds()
    ensures TimeSlots()[0].time == "08:00"
    ensures TimeSlots()[SlotCount - 1].time == "22:00"
  {
    PaddedHour(8, 0);
    PaddedHour(22, 0);
    TwoDigitHours();
  }

  lemma TwoDigitHours()
    ensures Fixed(8, 2) == "08" && Fixed(22, 2) == "22"
  {
    assert NatToString(8) == ['8'];
    assert NatToString(2) == ['2'];
    assert NatToString(22) == NatToString(2) + ['2'];
  }

  /** Every slot is a zero-padded `HH:mm` on the half hour, and slot text order is time order. */
  lemma TimeSlotsIncreasing(i: nat, j: nat)
    requires i < j < SlotCount
    ensures LexLess(TimeSlots()[i].time, TimeSlots()[j].time)
    ensures ParseTime(TimeSlots()[i].time) == Some(SlotMinutes(i))
  {
    FormatTimeOrder(SlotMinutes(i), SlotMinutes(j));
    ParseFormatTime(SlotMinutes(i));
  }

  /** Row i of the grid holds the formatted time of its first minute. */
  lemma SlotAt(i: nat)
    requires i < SlotCount
    ensures TimeSlots()[i].time == FormatTime(SlotMinutes(i)) && TimeSlots()[i].isHour == (i % 2 == 0)
  {
  }

  /** A slot is marked as a full hour exactly when its minutes read as zero. */
  lemma IsHourIffWholeHour(i: nat)
    requires i < SlotCount
    ensures |TimeSlots()[i].time| == 5
    ensures TimeSlots()[i].isHour <==> Value(TimeSlots()[i].time[3..]) == 0
  {
    var t := SlotMinutes(i);
    SlotAt(i);
    MinutesOfSlot(i);
    FormatTimeShape(t);
  }

  lemma MinutesOfSlot(i: nat)
    ensures SlotMinutes(i) % MinutesPerHour == if i % 2 == 0 then 0 else 30
  {
  }
}
