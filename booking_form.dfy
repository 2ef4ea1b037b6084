/**
 * The booking form's validation schema and the request it sends to the store
 * (src/components/booking/BookingForm.tsx).  Times travel as `HH:mm` text; a
 * form time is kept as minutes and its text is `FormatTime` of them.
 */
module BookingForm {
  import opened Wrappers
  import opened Text
  import opened Calendar
  import opened Clock
  import opened Types
  import opened Constants
  import opened Actions

  /** The values the form holds when it is submitted. */
  datatype FormValues = FormValues(
    id: Option<BookingId>, kind: BookingType, teacher: string, className: string, color: BookingColor,
    startTime: TimeOfDay, endTime: TimeOfDay,
    date: Option<Day>, dayOfWeek: Option<DayOfWeek>, duration: Option<DurationOption>)

  /** `z.enum(TEACHERS)`: the teacher field names one of the three partners. */
  predicate IsTeacherName(s: string)
  {
    exists i :: 0 <= i < |Teachers| && TeacherName(Teachers[i]) == s
  }

  /** The field rules of the object schema. */
  predicate FieldsValid(v: FormValues)
  {
    && IsTeacherName(v.teacher)
    && |v.className| >= 1
    && v.color in BookingColors
    && |FormatTime(v.startTime)| >= 1 && |FormatTime(v.endTime)| >= 1
    && (v.dayOfWeek.Some? ==> v.dayOfWeek.value in DaysOfWeek)
    && (v.duration.Some? ==> v.duration.value in DurationOptions)
  }

  /** First refinement: a single booking needs a date. */
  predicate HasDateIfSingle(v: FormValues)
  {
    !(v.kind == TypeSingle && v.date.None?)
  }

  /** Second refinement: a recurring booking needs a weekday and a duration. */
  predicate HasDayAndDurationIfRecurring(v: FormValues)
  {
    !(v.kind == TypeRecurring && (v.dayOfWeek.None? || v.duration.None?))
  }

  /** Third refinement: when both times are filled in, the start text is below the end text. */
  predicate StartBeforeEnd(v: FormValues)
  {
    var s, e := FormatTime(v.startTime), FormatTime(v.endTime);
    |s| >= 1 && |e| >= 1 ==> LexLess(s, e)
  }

  /** bookingFormSchema: the object rules and the three refinements. */
  predicate SchemaAccepts(v: FormValues)
  {
    FieldsValid(v) && HasDateIfSingle(v) && HasDayAndDurationIfRecurring(v) && StartBeforeEnd(v)
  }

  /** The form rejects a single booking without a date and a recurring one without weekday or duration. */
  lemma MissingFieldsRejected(v: FormValues)
    ensures v.kind == TypeSingle && v.date.None? ==> !SchemaAccepts(v)
    ensures v.kind == TypeRecurring && (v.dayOfWeek.None? || v.duration.None?) ==> !SchemaAccepts(v)
    ensures SchemaAccepts(v) ==> v.color in BookingColors && |v.className| >= 1
  {
  }

  /**
   * For times with two-digit hours (every time the selects offer) the text
   * comparison is the time comparison: an accepted form starts before it ends,
   * and ordered times never trip the third refinement.
   */
  lemma AcceptedTimesOrdered(v: FormValues)
    requires v.startTime < 100 * MinutesPerHour && v.endTime < 100 * MinutesPerHour
    ensures StartBeforeEnd(v) <==> v.startTime < v.endTime
    ensures SchemaAccepts(v) ==> v.startTime < v.endTime
  {
    FormatTimeShape(v.startTime);
    FormatTimeShape(v.endTime);
    FormatTimeOrder(v.startTime, v.endTime);
  }

  /** submissionData: the shared fields, a `yyyy-MM-dd` date only for single, weekday and duration only for recurring. */
  function SubmissionData(v: FormValues): (input: BookingInput)
    ensures input.kind == v.kind && input.className == v.className && input.teacher == v.teacher
    ensures input.startTime == v.startTime && input.endTime == v.endTime && input.color == v.color
    ensures input.date.Some? <==> v.kind == TypeSingle && v.date.Some?
    ensures input.date.Some? ==> input.date == v.date
    ensures v.kind == TypeSingle ==> input.dayOfWeek.None? && input.duration.None?
    ensures v.kind == TypeRecurring ==> input.dayOfWeek == v.dayOfWeek && input.duration == v.duration
  {
    BookingInput(
      v.kind, v.className, v.teacher, v.startTime, v.endTime, v.color,
      if v.kind == TypeSingle && v.date.Some? then v.date else None,
      if v.kind == TypeRecurring then v.dayOfWeek else None,
      if v.kind == TypeRecurring then v.duration else None)
  }

  /** What onSubmit sends: an update of the form's id, or a creation by the logged-in partner. */
  datatype Submission = UpdateRequest(id: BookingId, input: BookingInput) | CreateRequest(input: BookingInput, createdBy: Teacher)

  /** onSubmit's branch: edit mode with an id updates, anything else creates. */
  function Submit(v: FormValues, currentTeacher: Teacher, isEditing: bool): (s: Submission)
    ensures s.UpdateRequest? <==> isEditing && v.id.Some?
    ensures s.UpdateRequest? ==> s.id == v.id.value
    ensures s.CreateRequest? ==> s.createdBy == currentTeacher
    ensures s.input == SubmissionData(v)
  {
    if isEditing && v.id.Some? then UpdateRequest(v.id.value, SubmissionData(v))
    else CreateRequest(SubmissionData(v), currentTeacher)
  }

  /**
   * The form guards the store: whatever it accepts passes the store's own
   * required-field checks, so an accepted form can fail in the store only on a
   * conflict (or an unknown id).
   */
  lemma AcceptedFormBuildsBooking(v: FormValues, id: BookingId, createdBy: Teacher, startDate: Day)
    requires SchemaAccepts(v)
    ensures Draft(SubmissionData(v), id, createdBy, startDate).Success?
  {
  }

  /** An accepted creation from a valid store either appends the booking or reports the first conflict. */
  lemma AcceptedCreateOutcome(v: FormValues, currentTeacher: Teacher, s: StoreState, today: Day)
    requires SchemaAccepts(v)
    ensures var req := Submit(v, currentTeacher, false);
      var (result, t) := Add(s, req.input, req.createdBy, today);
      (result.Success? && t.bookings == s.bookings + [result.booking] && result.booking.createdBy == currentTeacher)
      || (result.Failure? && result.error.ConflictWith? && t == s)
  {
    AcceptedFormBuildsBooking(v, s.nextId, currentTeacher, today);
  }

  /**
   * The values the form is reset to when it opens on a stored booking: the
   * shared fields and id, then the date of a single booking, or the weekday
   * and duration of a recurring one; the other fields are left empty.
   */
  function EditValues(b: Booking): FormValues
  {
    match b
    case Single(id, className, teacher, _, startTime, endTime, color, date) =>
      FormValues(Some(id), TypeSingle, teacher, className, color, startTime, endTime, Some(date), None, None)
    case Recurring(id, className, teacher, _, startTime, endTime, color, dayOfWeek, _, _, duration) =>
      FormValues(Some(id), TypeRecurring, teacher, className, color, startTime, endTime, None, Some(dayOfWeek), Some(duration))
  }

  /**
   * Opening a well-formed booking in the form and submitting it unchanged
   * sends an update of that booking whose rebuilt booking is the stored one.
   */
  lemma EditRoundTrip(b: Booking, currentTeacher: Teacher, today: Day)
    requires WellFormed(b)
    ensures var req := Submit(EditValues(b), currentTeacher, true);
      && req == UpdateRequest(b.id, req.input)
      && Draft(req.input, b.id, b.createdBy, KeptStartDate(b, today)) == Success(b)
  {
  }

  /**
   * Resubmitting the untouched edit form of a stored booking succeeds and
   * leaves a valid, clash-free store exactly as it was.
   */
  lemma EditResubmitUnchanged(s: StoreState, k: nat, currentTeacher: Teacher, today: Day)
    requires ValidState(s) && ConflictFree(s.bookings, today) && k < |s.bookings|
    ensures var req := Submit(EditValues(s.bookings[k]), currentTeacher, true);
      && req.UpdateRequest?
      && Update(s, req.id, req.input, today) == (Success(s.bookings[k]), s)
  {
    var b := s.bookings[k];
    EditRoundTrip(b, currentTeacher, today);
    var req := Submit(EditValues(b), currentTeacher, true);
    UpdateUnchanged(s, k, req.input, today);
  }

  /** The test of `TIME_SLOTS.filter(ts => ts.time !== text)`. */
  function OtherTime(text: string): TimeSlot -> bool
  {
    (ts: TimeSlot) => ts.time != text
  }

  /** The start-time choices: every slot but 22:00. */
  function StartChoices(): seq<TimeSlot>
  {
    Filter(TimeSlots(), OtherTime("22:00"))
  }

  /** The end-time choices: every slot but 08:00. */
  function EndChoices(): seq<TimeSlot>
  {
    Filter(TimeSlots(), OtherTime("08:00"))
  }

  /** Only the last slot reads 22:00 and only the first reads 08:00. */
  lemma SlotTextAt(i: nat)
    requires i < SlotCount
    ensures TimeSlots()[i].time == "22:00" <==> i == SlotCount - 1
    ensures TimeSlots()[i].time == "08:00" <==> i == 0
  {
    SlotAt(i);
    SlotAt(0);
    SlotAt(SlotCount - 1);
    TimeSlotsBounds();
    FormatTimeOrder(SlotMinutes(i), SlotMinutes(SlotCount - 1));
    FormatTimeOrder(SlotMinutes(i), SlotMinutes(0));
  }

  /** The start select offers the first 28 slots (08:00 to 21:30) and the end select the last 28 (08:30 to 22:00). */
  lemma ChoicesExcludeOneEnd()
    ensures StartChoices() == TimeSlots()[..SlotCount - 1]
    ensures EndChoices() == TimeSlots()[1..]
  {
    StartChoicesDropLast();
    EndChoicesDropFirst();
  }

  /** Only the last slot reads 22:00, so the start filter drops just that one. */
  lemma StartChoicesDropLast()
    ensures StartChoices() == TimeSlots()[..SlotCount - 1]
  {
    var slots := TimeSlots();
    forall i | 0 <= i < |slots| ensures OtherTime("22:00")(slots[i]) <==> i != SlotCount - 1 {
      SlotTextAt(i);
    }
    var init := slots[..SlotCount - 1];
    assert forall i :: 0 <= i < |init| ==> init[i] == slots[i];
    FilterKeepsAll(init, OtherTime("22:00"));
    assert slots[..|slots| - 1] == init;
  }

  /** Only the first slot reads 08:00, so the end filter drops just that one. */
  lemma EndChoicesDropFirst()
    ensures EndChoices() == TimeSlots()[1..]
  {
    var slots := TimeSlots();
    forall i | 0 <= i < |slots| ensures OtherTime("08:00")(slots[i]) <==> i != 0 {
      SlotTextAt(i);
    }
    FilterDropsFirst(slots, OtherTime("08:00"));
  }
}
