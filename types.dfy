/** The data model of the booking calendar (src/lib/types.ts). */
module Types {
  import opened Wrappers
  import opened Calendar
  import opened Clock

  /** The three partners who can log in and create bookings. */
  datatype Teacher = Oski | Flor | Joa

  /** The `type` discriminant of a booking: 'single' or 'recurring'. */
  datatype BookingType = TypeSingle | TypeRecurring

  /** The fifteen colours a booking may carry (a cosmetic field). */
  datatype BookingColor =
    | Red | Teal | Blue | Yellow | Purple
    | Pink | LightSeaGreen | LightSalmon | BlueViolet | LimeGreen
    | DarkOrange | DarkTurquoise | Orchid | SlateBlue | Gold

  /** The seven weekday names, Monday first. */
  datatype DayOfWeek = Lunes | Martes | Miercoles | Jueves | Viernes | Sabado | Domingo

  /** How long a recurring booking runs: one to six months, or without end. */
  datatype DurationOption = UnMes | DosMeses | TresMeses | CuatroMeses | CincoMeses | SeisMeses | Indefinido

  /** A booking identifier; the source's ids are the strings `String(n)` of a counter. */
  type BookingId = nat

  /**
   * A booking is exactly one of two variants.  Dates are day numbers (the store
   * only ever holds `yyyy-MM-dd` strings produced by `formatDate`); an absent
   * `endDate` is the source's `null` for 'Indefinido'.
   */
  datatype Booking =
    | Single(id: BookingId, className: string, teacher: string, createdBy: Teacher,
             startTime: TimeOfDay, endTime: TimeOfDay, color: BookingColor,
             date: Day)
    | Recurring(id: BookingId, className: string, teacher: string, createdBy: Teacher,
                startTime: TimeOfDay, endTime: TimeOfDay, color: BookingColor,
                dayOfWeek: DayOfWeek, startDate: Day, endDate: Option<Day>, duration: DurationOption)
  {
    function Type(): BookingType
    {
      if Single? then TypeSingle else TypeRecurring
    }
  }

  /** A row of the weekly grid. */
  datatype TimeSlot = TimeSlot(time: string, isHour: bool)

  /** The literal text of each duration option. */
  function DurationLabel(d: DurationOption): string
  {
    match d
    case UnMes => "1 Mes"
    case DosMeses => "2 Meses"
    case TresMeses => "3 Meses"
    case CuatroMeses => "4 Meses"
    case CincoMeses => "5 Meses"
    case SeisMeses => "6 Meses"
    case Indefinido => "Indefinido"
  }

  function TeacherName(t: Teacher): string
  {
    match t
    case Oski => "Oski"
    case Flor => "Flor"
    case Joa => "Joa"
  }
}
