/**
 * The booking store of src/lib/actions.ts: a list of bookings and an id
 * counter, the conflict rules consulted before every write, the three write
 * actions and the two read queries.  The current date (`new Date()`) is a
 * parameter `today`; the actions run synchronously.
 */
module Actions {
  import opened Wrappers
  import opened Text
  import opened Calendar
  import opened Clock
  import opened Types
  import opened Constants
  import opened DateUtils

  /** `365*5`: the days that stand in for the end of a booking without one. */
  const UnboundedSpanDays := 365 * 5

  /** `endDate || addDays(startDate, 365*5)`. */
  function EndOrStandIn(startDate: Day, endDate: Option<Day>): (r: Day)
    ensures startDate <= r || endDate.Some?
    ensures endDate.None? ==> r == startDate + UnboundedSpanDays
  {
    if endDate.Some? then endDate.value else startDate + UnboundedSpanDays
  }

  /** `newStart < existingEnd && newEnd > existingStart`: half-open intervals that share a moment. */
  predicate Overlaps(newStart: Instant, newEnd: Instant, existingStart: Instant, existingEnd: Instant)
  {
    newStart < existingEnd && newEnd > existingStart
  }

  /** `isWithinInterval(d, { start, end })`: inclusive at both ends. */
  predicate WithinInterval(d: Day, start: Day, end: Day)
  {
    start <= d <= end
  }

  /**
   * The rule checkConflict applies to one stored booking: the four cases of
   * single and recurring bookings.  The new booking's own instants are taken
   * on its date (single) or its start date (recurring); the recurring pair
   * compares times on today's date.
   */
  predicate PairConflicts(nb: Booking, ex: Booking, today: Day)
  {
    var newAnchor := if nb.Single? then nb.date else nb.startDate;
    var newStart := InstantOf(newAnchor, nb.startTime);
    var newEnd := InstantOf(newAnchor, nb.endTime);
    if nb.Single? && ex.Single? then
      nb.date == ex.date
      && Overlaps(newStart, newEnd, InstantOf(ex.date, ex.startTime), InstantOf(ex.date, ex.endTime))
    else if nb.Single? && ex.Recurring? then
      Weekday(nb.date) == DayNumber(ex.dayOfWeek)
      && WithinInterval(nb.date, ex.startDate, EndOrStandIn(ex.startDate, ex.endDate))
      && Overlaps(newStart, newEnd, InstantOf(nb.date, ex.startTime), InstantOf(nb.date, ex.endTime))
    else if nb.Recurring? && ex.Single? then
      Weekday(ex.date) == DayNumber(nb.dayOfWeek)
      && WithinInterval(ex.date, nb.startDate, EndOrStandIn(nb.startDate, nb.endDate))
      && Overlaps(InstantOf(ex.date, nb.startTime), InstantOf(ex.date, nb.endTime),
                  InstantOf(ex.date, ex.startTime), InstantOf(ex.date, ex.endTime))
    else
      nb.dayOfWeek == ex.dayOfWeek
      && Overlaps(InstantOf(today, nb.startTime), InstantOf(today, nb.endTime),
                  InstantOf(today, ex.startTime), InstantOf(today, ex.endTime))
      && nb.startDate < EndOrStandIn(ex.startDate, ex.endDate)
      && EndOrStandIn(nb.startDate, nb.endDate) > ex.startDate
  }

  /** The times of day overlap, half-open: `a` starts before `b` ends and ends after `b` starts. */
  predicate TimesOverlap(a: Booking, b: Booking)
  {
    a.startTime < b.endTime && b.startTime < a.endTime
  }

  /** Two single bookings conflict exactly when they are on the same date and their times overlap. */
  lemma SingleSingleConflict(nb: Booking, ex: Booking, today: Day)
    requires nb.Single? && ex.Single?
    ensures PairConflicts(nb, ex, today) <==> nb.date == ex.date && TimesOverlap(nb, ex)
  {
  }

  /**
   * A single booking and a recurring one (in either role) conflict exactly when
   * the single date is an occurrence of the recurring booking, with the
   * stand-in end for an open-ended one, and the times overlap.
   */
  lemma SingleRecurringConflict(s: Booking, r: Booking, today: Day)
    requires s.Single? && r.Recurring?
    ensures PairConflicts(s, r, today)
            <==> OccursOn(r.startDate, Some(EndOrStandIn(r.startDate, r.endDate)), r.dayOfWeek, s.date) && TimesOverlap(s, r)
    ensures PairConflicts(r, s, today)
            <==> OccursOn(r.startDate, Some(EndOrStandIn(r.startDate, r.endDate)), r.dayOfWeek, s.date) && TimesOverlap(s, r)
  {
  }

  /**
   * Two recurring bookings conflict exactly when they share the weekday name,
   * their times overlap and their date ranges (stand-in ends for open ones)
   * overlap strictly; the current date plays no part.
   */
  lemma RecurringRecurringConflict(nb: Booking, ex: Booking, today: Day, other: Day)
    requires nb.Recurring? && ex.Recurring?
    ensures PairConflicts(nb, ex, today)
            <==> nb.dayOfWeek == ex.dayOfWeek && TimesOverlap(nb, ex)
                 && nb.startDate < EndOrStandIn(ex.startDate, ex.endDate)
                 && ex.startDate < EndOrStandIn(nb.startDate, nb.endDate)
    ensures PairConflicts(nb, ex, today) <==> PairConflicts(nb, ex, other)
  {
  }

  /** Every conflict needs overlapping times, so back-to-back bookings (one ends as the other starts) never conflict. */
  lemma ConflictNeedsTimeOverlap(nb: Booking, ex: Booking, today: Day)
    ensures PairConflicts(nb, ex, today) ==> TimesOverlap(nb, ex)
    ensures nb.endTime <= ex.startTime ==> !PairConflicts(nb, ex, today)
  {
  }

  /** Recurring bookings on different weekdays never conflict. */
  lemma DifferentWeekdaysNeverConflict(nb: Booking, ex: Booking, today: Day)
    requires nb.Recurring? && ex.Recurring? && nb.dayOfWeek != ex.dayOfWeek
    ensures !PairConflicts(nb, ex, today)
  {
  }

  /** The pair rule does not depend on which booking is the new one. */
  lemma ConflictSymmetric(a: Booking, b: Booking, today: Day)
    ensures PairConflicts(a, b, today) <==> PairConflicts(b, a, today)
  {
  }

  /**
   * The strict range test of the recurring pair: a booking that starts on the
   * very day another one ends does not conflict with it, although that day is
   * an occurrence of both when it has their weekday.
   */
  lemma RecurringSharedEndpointMissed(nb: Booking, ex: Booking, today: Day)
    requires nb.Recurring? && ex.Recurring? && nb.dayOfWeek == ex.dayOfWeek
    requires ex.endDate == Some(nb.startDate) && ex.startDate <= nb.startDate
    requires Weekday(nb.startDate) == DayNumber(nb.dayOfWeek)
    requires nb.endDate.None? || nb.startDate <= nb.endDate.value
    ensures OccursOn(nb.startDate, nb.endDate, nb.dayOfWeek, nb.startDate)
    ensures OccursOn(ex.startDate, ex.endDate, ex.dayOfWeek, nb.startDate)
    ensures !PairConflicts(nb, ex, today)
  {
  }

  /**
   * The recurring pair compares date ranges, not occurrences: two well-formed
   * one-month Monday classes, from 0001-01-01 and from 0001-01-31, conflict
   * because their ranges overlap on January 31 and February 1, though no
   * Monday lies in both.
   */
  lemma RecurringConflictWithoutSharedDate(today: Day)
    ensures var a := Recurring(2, "A", "Flor", Flor, 600, 660, Teal, Lunes, 0, CalculateEndDate(0, UnMes), UnMes);
            var b := Recurring(3, "B", "Joa", Joa, 600, 660, Blue, Lunes, 30, CalculateEndDate(30, UnMes), UnMes);
            && WellFormed(a) && WellFormed(b)
            && PairConflicts(a, b, today)
            && forall d :: !(OccursOn(a.startDate, a.endDate, a.dayOfWeek, d) && OccursOn(b.startDate, b.endDate, b.dayOfWeek, d))
  {
    OneMonthAfterFirstDay();
    var eb := CalculateEndDate(30, UnMes);
    MondayRangesMeetOffMonday(eb.value, today);
  }

  /** The two Monday ranges [0, 31] and [30, later] overlap, but hold no common Monday. */
  lemma MondayRangesMeetOffMonday(eb: Day, today: Day)
    requires 30 < eb
    ensures var a := Recurring(2, "A", "Flor", Flor, 600, 660, Teal, Lunes, 0, Some(31), UnMes);
            var b := Recurring(3, "B", "Joa", Joa, 600, 660, Blue, Lunes, 30, Some(eb), UnMes);
            && PairConflicts(a, b, today)
            && forall d :: !(OccursOn(a.startDate, a.endDate, a.dayOfWeek, d) && OccursOn(b.startDate, b.endDate, b.dayOfWeek, d))
  {
    assert Weekday(30) == 3 && Weekday(31) == 4;
  }

  /** The stored booking is considered (not the one being edited) and meets the pair rule. */
  predicate Clashes(nb: Booking, ex: Booking, skip: Option<BookingId>, today: Day)
  {
    skip != Some(ex.id) && PairConflicts(nb, ex, today)
  }

  /** checkConflict, as a specification: the first stored booking, in list order, that clashes. */
  function FirstConflict(bs: seq<Booking>, nb: Booking, skip: Option<BookingId>, today: Day): (r: Option<Booking>)
    ensures r.None? <==> forall i :: 0 <= i < |bs| ==> !Clashes(nb, bs[i], skip, today)
    ensures r.Some? ==> exists i :: 0 <= i < |bs| && bs[i] == r.value && Clashes(nb, bs[i], skip, today)
                                    && forall j :: 0 <= j < i ==> !Clashes(nb, bs[j], skip, today)
    ensures r.Some? ==> skip != Some(r.value.id)
    decreases |bs|
  {
    if |bs| == 0 then None
    else if Clashes(nb, bs[0], skip, today) then
      Some(bs[0])
    else
      var r := FirstConflict(bs[1..], nb, skip, today);
      assert forall i :: 1 <= i < |bs| ==> bs[i] == bs[1..][i - 1];
      if r.Some? then
        var i :| 0 <= i < |bs[1..]| && bs[1..][i] == r.value && Clashes(nb, bs[1..][i], skip, today)
                 && forall j :: 0 <= j < i ==> !Clashes(nb, bs[1..][j], skip, today);
        assert bs[i + 1] == r.value;
        assert forall j :: 0 <= j < i + 1 ==> !Clashes(nb, bs[j], skip, today) by {
          forall j | 0 <= j < i + 1 ensures !Clashes(nb, bs[j], skip, today) {
            if j > 0 { assert bs[j] == bs[1..][j - 1]; }
          }
        }
        r
      else
        r
  }

  /** Whether the first clash is unique: any clashing booking with no clash before it is the one found. */
  lemma FirstConflictUnique(bs: seq<Booking>, nb: Booking, skip: Option<BookingId>, today: Day, k: nat)
    requires k < |bs| && Clashes(nb, bs[k], skip, today)
    requires forall j :: 0 <= j < k ==> !Clashes(nb, bs[j], skip, today)
    ensures FirstConflict(bs, nb, skip, today) == Some(bs[k])
  {
    var r := FirstConflict(bs, nb, skip, today);
    var i :| 0 <= i < |bs| && bs[i] == r.value && Clashes(nb, bs[i], skip, today)
             && forall j :: 0 <= j < i ==> !Clashes(nb, bs[j], skip, today);
    assert !(i < k) && !(k < i);
  }

  /** The form fields an action receives; the fields of the other kind are simply absent. */
  datatype BookingInput = BookingInput(
    kind: BookingType, className: string, teacher: string,
    startTime: TimeOfDay, endTime: TimeOfDay, color: BookingColor,
    date: Option<Day>, dayOfWeek: Option<DayOfWeek>, duration: Option<DurationOption>)

  /** Why an action failed (the source returns `success: false` with a message). */
  datatype ActionError = DateRequired | DayAndDurationRequired | ConflictWith(other: Booking) | NotFound

  datatype ActionResult = Success(booking: Booking) | Failure(error: ActionError)

  /** A stored recurring booking's end is what calculateEndDate gives for its start and duration. */
  predicate WellFormed(b: Booking)
  {
    b.Recurring? ==> b.endDate == CalculateEndDate(b.startDate, b.duration)
  }

  /**
   * The booking an action builds from the form fields: the per-kind required
   * fields are checked, and a recurring booking gets the given start date and
   * the end calculateEndDate computes from it.
   */
  function Draft(input: BookingInput, id: BookingId, createdBy: Teacher, startDate: Day): (r: ActionResult)
    ensures r.Failure? <==> ((input.kind == TypeSingle && input.date.None?)
                             || (input.kind == TypeRecurring && (input.dayOfWeek.None? || input.duration.None?)))
    ensures r.Failure? ==> r.error == (if input.kind == TypeSingle then DateRequired else DayAndDurationRequired)
    ensures r.Success? ==> var b := r.booking;
      && b.id == id && b.createdBy == createdBy && b.Type() == input.kind
      && b.className == input.className && b.teacher == input.teacher && b.color == input.color
      && b.startTime == input.startTime && b.endTime == input.endTime
      && WellFormed(b)
      && (b.Single? ==> Some(b.date) == input.date)
      && (b.Recurring? ==> b.startDate == startDate && Some(b.dayOfWeek) == input.dayOfWeek && Some(b.duration) == input.duration)
  {
    match input.kind
    case TypeSingle =>
      if input.date.None? then Failure(DateRequired)
      else Success(Single(id, input.className, input.teacher, createdBy,
                          input.startTime, input.endTime, input.color, input.date.value))
    case TypeRecurring =>
      if input.dayOfWeek.None? || input.duration.None? then Failure(DayAndDurationRequired)
      else Success(Recurring(id, input.className, input.teacher, createdBy,
                             input.startTime, input.endTime, input.color, input.dayOfWeek.value,
                             startDate, CalculateEndDate(startDate, input.duration.value), input.duration.value))
  }

  /** The whole state of the store: the list and the next id to hand out. */
  datatype StoreState = StoreState(bookings: seq<Booking>, nextId: nat)

  predicate UniqueIds(bs: seq<Booking>)
  {
    forall i, j :: 0 <= i < j < |bs| ==> bs[i].id != bs[j].id
  }

  /** The store invariant: ids are distinct and below the counter, and recurring ends are computed. */
  predicate ValidState(s: StoreState)
  {
    && (forall i :: 0 <= i < |s.bookings| ==> s.bookings[i].id < s.nextId && WellFormed(s.bookings[i]))
    && UniqueIds(s.bookings)
  }

  /** The two sample bookings the store starts with, dated today. */
  function SeedBookings(today: Day): (bs: seq<Booking>)
    ensures |bs| == 2 && UniqueIds(bs)
  {
    [ Single(1, "Salsa Beginners", "Oski", Oski, 18 * MinutesPerHour, 19 * MinutesPerHour, Red, today),
      Recurring(2, "Ballet avanzado", "Flor", Flor, 20 * MinutesPerHour, 21 * MinutesPerHour + 30, Teal,
                Miercoles, today, CalculateEndDate(today, TresMeses), TresMeses) ]
  }

  /** The initial store satisfies the invariant, with the counter at 3. */
  lemma SeedValid(today: Day)
    ensures ValidState(StoreState(SeedBookings(today), 3))
  {
    var bs := SeedBookings(today);
    assert WellFormed(bs[0]) && WellFormed(bs[1]);
  }

  /**
   * addBookingAction: take the counter as the id and increment it, build the
   * booking (a recurring one starts today), then reject it on the first
   * conflict, giving the id back, or append it.  A missing field fails after
   * the increment, which is not given back.
   */
  function Add(s: StoreState, input: BookingInput, createdBy: Teacher, today: Day): (out: (ActionResult, StoreState))
    ensures var (result, t) := out;
      && (result.Success? ==>
            && t.bookings == s.bookings + [result.booking] && t.nextId == s.nextId + 1
            && Draft(input, s.nextId, createdBy, today) == result
            && FirstConflict(s.bookings, result.booking, None, today).None?)
      && (result.Failure? ==> t.bookings == s.bookings)
      && (result.Failure? && result.error.ConflictWith? ==>
            && t.nextId == s.nextId
            && Draft(input, s.nextId, createdBy, today).Success?
            && FirstConflict(s.bookings, Draft(input, s.nextId, createdBy, today).booking, None, today)
               == Some(result.error.other))
      && (Draft(input, s.nextId, createdBy, today).Failure? ==>
            result == Draft(input, s.nextId, createdBy, today) && t.nextId == s.nextId + 1)
      && (Draft(input, s.nextId, createdBy, today).Success? ==>
            var clash := FirstConflict(s.bookings, Draft(input, s.nextId, createdBy, today).booking, None, today);
            && (clash.None? ==> result.Success?)
            && (clash.Some? ==> result == Failure(ConflictWith(clash.value)) && t == s))
  {
    var draft := Draft(input, s.nextId, createdBy, today);
    if draft.Failure? then (draft, StoreState(s.bookings, s.nextId + 1))
    else
      match FirstConflict(s.bookings, draft.booking, None, today)
      case Some(c) => (Failure(ConflictWith(c)), s)
      case None => (draft, StoreState(s.bookings + [draft.booking], s.nextId + 1))
  }

  /** Adding keeps the store invariant. */
  lemma AddPreservesValid(s: StoreState, input: BookingInput, createdBy: Teacher, today: Day)
    requires ValidState(s)
    ensures ValidState(Add(s, input, createdBy, today).1)
  {
  }

  /** updateBookingAction's `findIndex`: the first position holding the id, if any. */
  function IndexOfId(bs: seq<Booking>, id: BookingId): (k: Option<nat>)
    ensures k.None? <==> forall i :: 0 <= i < |bs| ==> bs[i].id != id
    ensures k.Some? ==> k.value < |bs| && bs[k.value].id == id && forall j :: 0 <= j < k.value ==> bs[j].id != id
    decreases |bs|
  {
    if |bs| == 0 then None
    else if bs[0].id == id then Some(0)
    else
      var k := IndexOfId(bs[1..], id);
      assert forall i :: 1 <= i < |bs| ==> bs[i] == bs[1..][i - 1];
      if k.None? then None else Some(k.value + 1)
  }

  /** The date a recurring update keeps: the stored start date, or today for a booking without one. */
  function KeptStartDate(existing: Booking, today: Day): Day
  {
    if existing.Recurring? then existing.startDate else today
  }

  /**
   * updateBookingAction: find the booking; rebuild it from the form with its
   * own id and creator (a recurring one keeps its start date and gets a new
   * end); check it against every other booking; replace it in place.
   */
  function Update(s: StoreState, id: BookingId, input: BookingInput, today: Day): (out: (ActionResult, StoreState))
    ensures var (result, t) := out;
      && t.nextId == s.nextId
      && (result.Failure? ==> t == s)
      && (IndexOfId(s.bookings, id).None? ==> result == Failure(NotFound))
      && (IndexOfId(s.bookings, id).Some? ==>
            var k := IndexOfId(s.bookings, id).value;
            var draft := Draft(input, id, s.bookings[k].createdBy, KeptStartDate(s.bookings[k], today));
            && (draft.Failure? ==> result == draft)
            && (result.Success? ==>
                  && result == draft && t.bookings == s.bookings[k := result.booking]
                  && result.booking.id == id && result.booking.createdBy == s.bookings[k].createdBy
                  && (s.bookings[k].Recurring? && result.booking.Recurring? ==> result.booking.startDate == s.bookings[k].startDate)
                  && FirstConflict(s.bookings, result.booking, Some(id), today).None?)
            && (result.Failure? && result.error.ConflictWith? ==>
                  && draft.Success?
                  && FirstConflict(s.bookings, draft.booking, Some(id), today) == Some(result.error.other))
            && (draft.Success? && FirstConflict(s.bookings, draft.booking, Some(id), today).None? ==> result.Success?)
            && (draft.Success? && FirstConflict(s.bookings, draft.booking, Some(id), today).Some? ==>
                  result == Failure(ConflictWith(FirstConflict(s.bookings, draft.booking, Some(id), today).value))))
  {
    match IndexOfId(s.bookings, id)
    case None => (Failure(NotFound), s)
    case Some(k) =>
      var existing := s.bookings[k];
      var draft := Draft(input, existing.id, existing.createdBy, KeptStartDate(existing, today));
      if draft.Failure? then (draft, s)
      else
        match FirstConflict(s.bookings, draft.booking, Some(id), today)
        case Some(c) => (Failure(ConflictWith(c)), s)
        case None => (draft, StoreState(s.bookings[k := draft.booking], s.nextId))
  }

  /** Updating keeps the store invariant. */
  lemma UpdatePreservesValid(s: StoreState, id: BookingId, input: BookingInput, today: Day)
    requires ValidState(s)
    ensures ValidState(Update(s, id, input, today).1)
  {
    var (result, t) := Update(s, id, input, today);
    if result.Success? {
      var k := IndexOfId(s.bookings, id).value;
      assert t.bookings == s.bookings[k := result.booking];
    }
  }

  /** `bookings.filter(b => b.id !== id)`. */
  function RemoveId(bs: seq<Booking>, id: BookingId): (r: seq<Booking>)
    ensures |r| <= |bs|
    ensures forall b :: b in r <==> b in bs && b.id != id
    decreases |bs|
  {
    if |bs| == 0 then []
    else if bs[0].id == id then RemoveId(bs[1..], id)
    else [bs[0]] + RemoveId(bs[1..], id)
  }

  /** Deleting shrinks the list exactly when some booking has the id. */
  lemma {:induction false} RemoveIdShrinks(bs: seq<Booking>, id: BookingId)
    ensures |RemoveId(bs, id)| < |bs| <==> exists i :: 0 <= i < |bs| && bs[i].id == id
    decreases |bs|
  {
    if |bs| > 0 {
      RemoveIdShrinks(bs[1..], id);
      assert forall i :: 1 <= i < |bs| ==> bs[i] == bs[1..][i - 1];
      if exists i :: 0 <= i < |bs[1..]| && bs[1..][i].id == id {
        var i :| 0 <= i < |bs[1..]| && bs[1..][i].id == id;
        assert bs[i + 1].id == id;
      }
    }
  }

  /** With distinct ids, deleting a stored id removes exactly its entry and keeps the rest in order. */
  lemma {:induction false} RemoveIdAt(bs: seq<Booking>, k: nat)
    requires UniqueIds(bs) && k < |bs|
    ensures RemoveId(bs, bs[k].id) == bs[..k] + bs[k + 1..]
    decreases |bs|
  {
    var id := bs[k].id;
    if k == 0 {
      RemoveIdAbsent(bs[1..], id);
    } else {
      UniqueTail(bs);
      assert bs[1..][k - 1] == bs[k];
      RemoveIdAt(bs[1..], k - 1);
      assert bs[0].id != id;
      SkipAfterHead(bs, k);
    }
  }

  /** Dropping position k > 0 keeps the head and drops position k - 1 of the tail. */
  lemma SkipAfterHead(bs: seq<Booking>, k: nat)
    requires 0 < k < |bs|
    ensures [bs[0]] + (bs[1..][..k - 1] + bs[1..][k..]) == bs[..k] + bs[k + 1..]
  {
    assert bs[..k] == [bs[0]] + bs[1..][..k - 1];
    assert bs[k + 1..] == bs[1..][k..];
  }

  lemma UniqueTail(bs: seq<Booking>)
    requires UniqueIds(bs) && |bs| > 0
    ensures UniqueIds(bs[1..])
  {
    forall i, j | 0 <= i < j < |bs[1..]| ensures bs[1..][i].id != bs[1..][j].id {
      assert bs[1..][i] == bs[i + 1] && bs[1..][j] == bs[j + 1];
    }
  }

  /** Removing an id no booking has changes nothing. */
  lemma {:induction false} RemoveIdAbsent(bs: seq<Booking>, id: BookingId)
    requires forall i :: 0 <= i < |bs| ==> bs[i].id != id
    ensures RemoveId(bs, id) == bs
    decreases |bs|
  {
    if |bs| > 0 {
      RemoveIdAbsent(bs[1..], id);
      assert [bs[0]] + bs[1..] == bs;
    }
  }

  /** A list of stored bookings with distinct ids is a valid store under the same counter. */
  lemma ValidSublist(s: StoreState, r: seq<Booking>)
    requires ValidState(s) && UniqueIds(r)
    requires forall b :: b in r ==> b in s.bookings
    ensures ValidState(StoreState(r, s.nextId))
  {
    forall i | 0 <= i < |r| ensures r[i].id < s.nextId && WellFormed(r[i]) {
      assert r[i] in s.bookings;
      var j :| 0 <= j < |s.bookings| && s.bookings[j] == r[i];
    }
  }

  /** Dropping one entry of a list with distinct ids leaves the ids distinct. */
  lemma UniqueWithout(bs: seq<Booking>, k: nat)
    requires UniqueIds(bs) && k < |bs|
    ensures UniqueIds(bs[..k] + bs[k + 1..])
  {
    var r := bs[..k] + bs[k + 1..];
    forall i, j | 0 <= i < j < |r| ensures r[i].id != r[j].id {
      var i' := if i < k then i else i + 1;
      var j' := if j < k then j else j + 1;
      assert r[i] == bs[i'] && r[j] == bs[j'];
    }
  }

  /** Deleting keeps the store invariant. */
  lemma {:induction false} RemoveIdPreservesValid(s: StoreState, id: BookingId)
    requires ValidState(s)
    ensures ValidState(StoreState(RemoveId(s.bookings, id), s.nextId))
  {
    var k := IndexOfId(s.bookings, id);
    if k.Some? {
      RemoveIdAt(s.bookings, k.value);
      UniqueWithout(s.bookings, k.value);
    } else {
      RemoveIdAbsent(s.bookings, id);
    }
    ValidSublist(s, RemoveId(s.bookings, id));
  }

  /**
   * The skip id of an update excludes exactly the booking's own entry: with
   * distinct ids, checking against the store while skipping the id is
   * checking against the store without that entry.
   */
  lemma {:induction false} SkipIsRemoval(bs: seq<Booking>, nb: Booking, id: BookingId, today: Day)
    ensures FirstConflict(bs, nb, Some(id), today) == FirstConflict(RemoveId(bs, id), nb, None, today)
    decreases |bs|
  {
    if |bs| > 0 {
      SkipIsRemoval(bs[1..], nb, id, today);
      if bs[0].id != id {
        assert ([bs[0]] + RemoveId(bs[1..], id))[1..] == RemoveId(bs[1..], id);
      }
    }
  }

  /** No two stored bookings clash: what the check before every write keeps out. */
  predicate ConflictFree(bs: seq<Booking>, today: Day)
  {
    forall i, j :: 0 <= i < |bs| && 0 <= j < |bs| && i != j ==> !PairConflicts(bs[i], bs[j], today)
  }

  /** Whether a list is free of clashes does not depend on the current date. */
  lemma ConflictFreeAnyDay(bs: seq<Booking>, today: Day, other: Day)
    ensures ConflictFree(bs, today) <==> ConflictFree(bs, other)
  {
    forall a, b | a in bs && b in bs
      ensures PairConflicts(a, b, today) <==> PairConflicts(a, b, other)
    {
      if a.Recurring? && b.Recurring? {
        RecurringRecurringConflict(a, b, today, other);
      }
    }
  }

  /** A list free of clashes today is free of clashes on every date. */
  lemma ConflictFreeEveryDay(bs: seq<Booking>, today: Day)
    requires ConflictFree(bs, today)
    ensures forall d :: ConflictFree(bs, d)
  {
    forall d ensures ConflictFree(bs, d) {
      ConflictFreeAnyDay(bs, today, d);
    }
  }

  /** The two sample bookings do not clash: one is in the evening from 18:00 to 19:00, the other from 20:00 to 21:30. */
  lemma SeedConflictFree(today: Day, other: Day)
    ensures ConflictFree(SeedBookings(today), other)
  {
    var bs := SeedBookings(today);
    ConflictNeedsTimeOverlap(bs[0], bs[1], other);
    ConflictNeedsTimeOverlap(bs[1], bs[0], other);
  }

  /** Adding keeps the store free of clashes: the new booking clashes with no stored one, in either role. */
  lemma AddKeepsConflictFree(s: StoreState, input: BookingInput, createdBy: Teacher, today: Day)
    requires ConflictFree(s.bookings, today)
    ensures ConflictFree(Add(s, input, createdBy, today).1.bookings, today)
  {
    var (result, t) := Add(s, input, createdBy, today);
    if result.Success? {
      var bs, nb := s.bookings, result.booking;
      forall i, j | 0 <= i < |t.bookings| && 0 <= j < |t.bookings| && i != j
        ensures !PairConflicts(t.bookings[i], t.bookings[j], today)
      {
        if i == |bs| {
          assert !Clashes(nb, bs[j], None, today);
        } else if j == |bs| {
          assert !Clashes(nb, bs[i], None, today);
          ConflictSymmetric(bs[i], nb, today);
        } else {
          assert t.bookings[i] == bs[i] && t.bookings[j] == bs[j];
        }
      }
    }
  }

  /**
   * Updating keeps the store free of clashes: the rebuilt booking clashes with
   * no other entry, since with distinct ids the skipped id is only its own.
   */
  lemma UpdateKeepsConflictFree(s: StoreState, id: BookingId, input: BookingInput, today: Day)
    requires ValidState(s) && ConflictFree(s.bookings, today)
    ensures ConflictFree(Update(s, id, input, today).1.bookings, today)
  {
    var (result, t) := Update(s, id, input, today);
    if result.Success? {
      var bs, nb := s.bookings, result.booking;
      var k := IndexOfId(bs, id).value;
      forall i, j | 0 <= i < |t.bookings| && 0 <= j < |t.bookings| && i != j
        ensures !PairConflicts(t.bookings[i], t.bookings[j], today)
      {
        if i == k {
          assert bs[j].id != id;
          assert !Clashes(nb, bs[j], Some(id), today);
        } else if j == k {
          assert bs[i].id != id;
          assert !Clashes(nb, bs[i], Some(id), today);
          ConflictSymmetric(bs[i], nb, today);
        } else {
          assert t.bookings[i] == bs[i] && t.bookings[j] == bs[j];
        }
      }
    }
  }

  /**
   * What deleting from a valid, clash-free store does: the list shrinks
   * exactly when a booking has the id, and then loses just that position;
   * otherwise it is unchanged; the store stays valid and free of clashes.
   */
  lemma DeleteOutcome(s: StoreState, id: BookingId)
    requires ValidState(s) && ConflictFree(s.bookings, 0)
    ensures var bs := s.bookings;
      var r := RemoveId(bs, id);
      && (|r| < |bs| <==> exists i :: 0 <= i < |bs| && bs[i].id == id)
      && (|r| < |bs| ==> exists k :: 0 <= k < |bs| && bs[k].id == id && r == bs[..k] + bs[k + 1..])
      && (|r| == |bs| ==> r == bs)
      && ValidState(StoreState(r, s.nextId))
      && forall d :: ConflictFree(r, d)
  {
    var bs := s.bookings;
    RemoveIdShrinks(bs, id);
    RemoveIdPreservesValid(s, id);
    RemoveIdKeepsConflictFree(s, id, 0);
    ConflictFreeEveryDay(RemoveId(bs, id), 0);
    var found := IndexOfId(bs, id);
    if found.Some? {
      RemoveIdAt(bs, found.value);
    } else {
      RemoveIdAbsent(bs, id);
    }
  }

  /** Deleting keeps the store free of clashes: what remains is stored entries with distinct ids. */
  lemma RemoveIdKeepsConflictFree(s: StoreState, id: BookingId, today: Day)
    requires ValidState(s) && ConflictFree(s.bookings, today)
    ensures ConflictFree(RemoveId(s.bookings, id), today)
  {
    var bs, r := s.bookings, RemoveId(s.bookings, id);
    RemoveIdPreservesValid(s, id);
    forall i, j | 0 <= i < |r| && 0 <= j < |r| && i != j
      ensures !PairConflicts(r[i], r[j], today)
    {
      assert r[i] in bs && r[j] in bs;
      var i' :| 0 <= i' < |bs| && bs[i'] == r[i];
      var j' :| 0 <= j' < |bs| && bs[j'] == r[j];
      assert r[i].id != r[j].id;
    }
  }

  /**
   * Resubmitting a stored booking unchanged: when the form's fields rebuild the
   * very booking, the update succeeds in a store free of clashes and leaves it
   * as it was, because the booking's own entry is the one the check skips.
   */
  lemma UpdateUnchanged(s: StoreState, k: nat, input: BookingInput, today: Day)
    requires ValidState(s) && ConflictFree(s.bookings, today) && k < |s.bookings|
    requires Draft(input, s.bookings[k].id, s.bookings[k].createdBy, KeptStartDate(s.bookings[k], today)) == Success(s.bookings[k])
    ensures Update(s, s.bookings[k].id, input, today) == (Success(s.bookings[k]), s)
  {
    var bs, b := s.bookings, s.bookings[k];
    var found := IndexOfId(bs, b.id);
    assert found.Some? && bs[found.value].id == bs[k].id;
    assert found == Some(k);
    forall j | 0 <= j < |bs| ensures !Clashes(b, bs[j], Some(b.id), today) {
      if j != k {
        assert !PairConflicts(bs[k], bs[j], today);
      }
    }
    assert bs[k := b] == bs;
  }

  /**
   * `Array.prototype.filter`: the elements the test keeps, in their order.
   * The contract states membership and the length bound; the order is fixed
   * by the definition and exposed by FilterStep (appending at the back) and
   * FilterCons (taking off the front).
   */
  function Filter<T(!new)>(xs: seq<T>, keep: T -> bool): (r: seq<T>)
    ensures |r| <= |xs|
    ensures forall x :: x in r <==> x in xs && keep(x)
    decreases |xs|
  {
    if |xs| == 0 then []
    else
      var last := xs[|xs| - 1];
      assert forall x :: x in xs <==> x in xs[..|xs| - 1] || x == last by {
        assert xs == xs[..|xs| - 1] + [last];
      }
      Filter(xs[..|xs| - 1], keep) + (if keep(last) then [last] else [])
  }

  /** A filter loop's step: the next element is appended exactly when the test keeps it. */
  lemma FilterStep<T(!new)>(xs: seq<T>, k: nat, keep: T -> bool)
    requires k < |xs|
    ensures Filter(xs[..k + 1], keep) == Filter(xs[..k], keep) + (if keep(xs[k]) then [xs[k]] else [])
  {
    assert xs[..k + 1][..k] == xs[..k];
  }

  /** Filtering a list with a head: the head's verdict, then the filtered rest. */
  lemma {:induction false} FilterCons<T(!new)>(x: T, xs: seq<T>, keep: T -> bool)
    ensures Filter([x] + xs, keep) == (if keep(x) then [x] else []) + Filter(xs, keep)
    decreases |xs|
  {
    var ys := [x] + xs;
    if |xs| > 0 {
      var init := xs[..|xs| - 1];
      assert ys[..|ys| - 1] == [x] + init;
      assert ys[|ys| - 1] == xs[|xs| - 1];
      FilterCons(x, init, keep);
    } else {
      assert ys[..|ys| - 1] == [];
    }
  }

  /** A filter whose test keeps every element returns the list unchanged. */
  lemma {:induction false} FilterKeepsAll<T(!new)>(xs: seq<T>, keep: T -> bool)
    requires forall i :: 0 <= i < |xs| ==> keep(xs[i])
    ensures Filter(xs, keep) == xs
    decreases |xs|
  {
    if |xs| > 0 {
      var init, last := xs[..|xs| - 1], xs[|xs| - 1];
      assert forall i :: 0 <= i < |init| ==> init[i] == xs[i];
      FilterKeepsAll(init, keep);
      assert keep(last);
      assert init + [last] == xs;
    }
  }

  /** A filter whose test rejects only the head returns the tail. */
  lemma FilterDropsFirst<T(!new)>(xs: seq<T>, keep: T -> bool)
    requires |xs| >= 1 && !keep(xs[0])
    requires forall i :: 1 <= i < |xs| ==> keep(xs[i])
    ensures Filter(xs, keep) == xs[1..]
  {
    FilterCons(xs[0], xs[1..], keep);
    FilterKeepsAll(xs[1..], keep);
    assert [xs[0]] + xs[1..] == xs;
  }

  /** The test of deleteBookingAction's filter. */
  function OtherId(id: BookingId): Booking -> bool
  {
    (b: Booking) => b.id != id
  }

  /** Removing an id is filtering with that test. */
  lemma {:induction false} RemoveIdIsFilter(bs: seq<Booking>, id: BookingId)
    ensures RemoveId(bs, id) == Filter(bs, OtherId(id))
    decreases |bs|
  {
    if |bs| > 0 {
      RemoveIdIsFilter(bs[1..], id);
      FilterCons(bs[0], bs[1..], OtherId(id));
      assert bs == [bs[0]] + bs[1..];
    }
  }

  /** The single-booking test of the week query: `date >= weekStartStr && date <= weekEndStr` on `yyyy-MM-dd` text. */
  predicate SingleInWeek(date: Day, weekStart: Day, weekEnd: Day)
  {
    !LexLess(FormatDate(date), FormatDate(weekStart)) && !LexLess(FormatDate(weekEnd), FormatDate(date))
  }

  /** The week query's test: a single date between the bounds, or an occurrence among the 7 days from weekStart. */
  ghost predicate InWeek(b: Booking, weekStart: Day, weekEnd: Day)
  {
    if b.Single? then SingleInWeek(b.date, weekStart, weekEnd)
    else OccursInWeek(b.startDate, b.endDate, b.dayOfWeek, DaysFrom(weekStart))
  }

  /** The week query's test as a callback. */
  ghost function WeekTest(weekStart: Day, weekEnd: Day): Booking -> bool
  {
    b => InWeek(b, weekStart, weekEnd)
  }

  /** getBookingsForWeek as a specification: the stored bookings the test keeps, in store order. */
  ghost function WeekBookings(bs: seq<Booking>, weekStart: Day, weekEnd: Day): seq<Booking>
  {
    Filter(bs, WeekTest(weekStart, weekEnd))
  }

  /** The filter loop of getBookingsForWeek over a list, front to back. */
  method FilterWeek(bs: seq<Booking>, weekStart: Day, weekEnd: Day) returns (r: seq<Booking>)
    ensures r == WeekBookings(bs, weekStart, weekEnd)
  {
    r := [];
    for k := 0 to |bs|
      invariant r == WeekBookings(bs[..k], weekStart, weekEnd)
    {
      var b := bs[k];
      var keep := KeepInWeek(b, weekStart, weekEnd);
      FilterStep(bs, k, WeekTest(weekStart, weekEnd));
      if keep {
        r := r + [b];
      }
    }
    assert bs[..|bs|] == bs;
  }

  /**
   * Membership in the week query in terms of days (years 1 to 9999): a single
   * booking between the bounds inclusive, a recurring one with an occurrence
   * among the 7 days from weekStart; an open end is no bound at all.
   */
  lemma WeekMembership(bs: seq<Booking>, weekStart: Day, weekEnd: Day, b: Booking)
    requires b.Single? ==> FromDay(b.date).year < 10000 && FromDay(weekStart).year < 10000 && FromDay(weekEnd).year < 10000
    ensures b in WeekBookings(bs, weekStart, weekEnd) <==>
      b in bs && (if b.Single? then weekStart <= b.date <= weekEnd
                  else OccursInWeek(b.startDate, b.endDate, b.dayOfWeek, DaysFrom(weekStart)))
  {
    if b.Single? {
      SingleInWeekDays(b.date, weekStart, weekEnd);
    }
  }

  /** On `yyyy-MM-dd` text the single-booking test is the inclusive day range (years 1 to 9999). */
  lemma SingleInWeekDays(date: Day, weekStart: Day, weekEnd: Day)
    requires FromDay(date).year < 10000 && FromDay(weekStart).year < 10000 && FromDay(weekEnd).year < 10000
    ensures SingleInWeek(date, weekStart, weekEnd) <==> weekStart <= date <= weekEnd
  {
    FormatDateOrder(date, weekStart);
    FormatDateOrder(weekEnd, date);
  }

  /** The inner loop of the week query: does one of the 7 days from weekStart hold an occurrence? */
  method RecurringInWeek(b: Booking, weekStart: Day) returns (keep: bool)
    requires b.Recurring?
    ensures keep <==> OccursInWeek(b.startDate, b.endDate, b.dayOfWeek, DaysFrom(weekStart))
  {
    var wanted := DayNumber(b.dayOfWeek);
    ghost var days := DaysFrom(weekStart);
    for i := 0 to 7
      invariant forall j :: 0 <= j < i ==> !OccursOn(b.startDate, b.endDate, b.dayOfWeek, days[j])
    {
      var day := weekStart + i;
      assert day == days[i];
      if Weekday(day) == wanted {
        var afterStart := day >= b.startDate || day == b.startDate;
        var beforeEnd := b.endDate.None? || day <= b.endDate.value || day == b.endDate.value;
        if afterStart && beforeEnd {
          return true;
        }
      }
    }
    return false;
  }

  /** The week query's callback: the text test for a single booking, the 7-day scan for a recurring one. */
  method KeepInWeek(b: Booking, weekStart: Day, weekEnd: Day) returns (keep: bool)
    ensures keep == InWeek(b, weekStart, weekEnd)
  {
    if b.Single? {
      keep := SingleInWeek(b.date, weekStart, weekEnd);
    } else {
      keep := RecurringInWeek(b, weekStart);
    }
  }

  /** The first day of the month of `current` as getMonthlyRecurringBookings computes it: the text's first 8 characters and `01`. */
  function MonthStartOf(current: Day): Option<Day>
  {
    ParseIsoDate(FormatDate(current)[..8] + "01")
  }

  /** The first day of the next month: `calculateEndDate(monthStart, '1 Mes')` written and read back. */
  function MonthEndOf(monthStart: Day): Option<Day>
  {
    ParseIsoDate(FormatDate(CalculateEndDate(monthStart, UnMes).value))
  }

  /** The month query's test, both comparisons strict; an unreadable month end compares false. */
  predicate InMonth(b: Booking, monthStart: Day, monthEnd: Option<Day>)
  {
    b.Recurring? && monthEnd.Some?
    && b.startDate < monthEnd.value && EndOrStandIn(b.startDate, b.endDate) > monthStart
  }

  /** The month query's test as a callback. */
  function MonthTest(monthStart: Day, monthEnd: Option<Day>): Booking -> bool
  {
    b => InMonth(b, monthStart, monthEnd)
  }

  /** The stored bookings the month test keeps, in store order. */
  function MonthFilter(bs: seq<Booking>, monthStart: Day, monthEnd: Option<Day>): seq<Booking>
  {
    Filter(bs, MonthTest(monthStart, monthEnd))
  }

  /**
   * getMonthlyRecurringBookings as a specification; None where the source
   * throws (formatDate of the invalid date that an unreadable month start gives).
   */
  function MonthlyRecurring(bs: seq<Booking>, current: Day): Option<seq<Booking>>
  {
    match MonthStartOf(current)
    case None => None
    case Some(ms) => Some(MonthFilter(bs, ms, MonthEndOf(ms)))
  }

  /** Dates up to November 9999, whose month and next month both have four-digit years. */
  predicate BeforeLastMonth(current: Day)
  {
    FromDay(current).year < 9999 || (FromDay(current).year == 9999 && FromDay(current).month < 12)
  }

  /**
   * The two dates getMonthlyRecurringBookings computes before filtering: up to
   * November 9999, the first of the month of `current` and the first of the next month.
   */
  method MonthBounds(current: Day) returns (monthStart: Option<Day>, monthEnd: Option<Day>)
    ensures monthStart == MonthStartOf(current)
    ensures monthStart.Some? ==> monthEnd == MonthEndOf(monthStart.value)
    ensures BeforeLastMonth(current) ==>
      monthStart == Some(StartOfMonth(current)) && monthEnd == Some(AddMonths(StartOfMonth(current), 1))
  {
    monthStart := MonthStartOf(current);
    monthEnd := if monthStart.Some? then MonthEndOf(monthStart.value) else None;
    if BeforeLastMonth(current) {
      MonthWindow(current);
    }
  }

  /** The filter of getMonthlyRecurringBookings over a list, front to back. */
  method KeepInMonth(bs: seq<Booking>, monthStart: Day, monthEnd: Option<Day>) returns (kept: seq<Booking>)
    ensures kept == MonthFilter(bs, monthStart, monthEnd)
  {
    kept := [];
    for k := 0 to |bs|
      invariant kept == MonthFilter(bs[..k], monthStart, monthEnd)
    {
      var b := bs[k];
      FilterStep(bs, k, MonthTest(monthStart, monthEnd));
      if InMonth(b, monthStart, monthEnd) {
        kept := kept + [b];
      }
    }
    assert bs[..|bs|] == bs;
  }

  lemma FixedOne()
    ensures Fixed(1, 2) == "01"
  {
    assert NatToString(1) == ['1'];
  }

  /**
   * The month window is the first of the month of `current` and the first of
   * the next month, for every date up to November 9999.
   */
  lemma MonthWindow(current: Day)
    requires BeforeLastMonth(current)
    ensures MonthStartOf(current) == Some(StartOfMonth(current))
    ensures var next := AddMonths(StartOfMonth(current), 1);
      && MonthEndOf(StartOfMonth(current)) == Some(next)
      && MonthIndex(FromDay(next)) == MonthIndex(FromDay(current)) + 1 && FromDay(next).day == 1
  {
    MonthStartText(current);
    var ms := StartOfMonth(current);
    AddMonthsCivil(ms, 1);
    MonthEndText(ms);
  }

  /** Cutting the text after `yyyy-MM-` and appending `01` names the first of the month (years 1 to 9999). */
  lemma MonthStartText(current: Day)
    requires FromDay(current).year < 10000
    ensures MonthStartOf(current) == Some(StartOfMonth(current))
  {
    FirstOfMonthText(FromDay(current));
    ParseFormatDate(StartOfMonth(current));
  }

  /** The text of a date cut after `yyyy-MM-` and completed with `01` is the text of the first of its month. */
  lemma FirstOfMonthText(c: Civil)
    requires ValidCivil(c) && c.year < 10000
    ensures FormatCivil(c)[..8] + "01" == FormatCivil(Civil(c.year, c.month, 1))
  {
    FormatCivilShape(c);
    FixedOne();
    var s := FormatCivil(c);
    assert s[..8] == s[..4] + "-" + s[5..7] + "-";
  }

  /** One month after a first of the month, written and read back (up to year 9999). */
  lemma MonthEndText(monthStart: Day)
    requires FromDay(AddMonths(monthStart, 1)).year < 10000
    ensures MonthEndOf(monthStart) == Some(AddMonths(monthStart, 1))
  {
    assert CalculateEndDate(monthStart, UnMes).value == AddMonths(monthStart, 1);
    ParseFormatDate(AddMonths(monthStart, 1));
  }

  /**
   * Membership in the month query for dates up to November 9999: the recurring
   * bookings that start before the first of next month and whose end (or
   * stand-in end) is after the first of this month.
   */
  lemma MonthMembership(bs: seq<Booking>, current: Day, b: Booking)
    requires BeforeLastMonth(current)
    ensures MonthlyRecurring(bs, current).Some?
    ensures var first := StartOfMonth(current);
      b in MonthlyRecurring(bs, current).value <==>
        b in bs && b.Recurring? && b.startDate < AddMonths(first, 1) && EndOrStandIn(b.startDate, b.endDate) > first
  {
    MonthWindow(current);
    var first := StartOfMonth(current);
    MonthlyRecurringIn(bs, current, first, AddMonths(first, 1), b);
  }

  /** Once the window is known, membership is the month test on it. */
  lemma MonthlyRecurringIn(bs: seq<Booking>, current: Day, monthStart: Day, monthEnd: Day, b: Booking)
    requires MonthStartOf(current) == Some(monthStart) && MonthEndOf(monthStart) == Some(monthEnd)
    ensures MonthlyRecurring(bs, current).Some?
    ensures b in MonthlyRecurring(bs, current).value <==>
      b in bs && b.Recurring? && b.startDate < monthEnd && EndOrStandIn(b.startDate, b.endDate) > monthStart
  {
  }

  /** An open-ended booking drops out of the month query once the month starts 1825 days or more after it. */
  lemma UnboundedDropsOutOfMonth(b: Booking, monthStart: Day, monthEnd: Option<Day>)
    requires b.Recurring? && b.endDate.None?
    ensures InMonth(b, monthStart, monthEnd) ==> monthStart < b.startDate + UnboundedSpanDays
  {
  }

  /** The in-memory store of actions.ts. */
  class BookingStore {
    var bookings: seq<Booking>
    var nextId: nat

    /** The store invariant, and no two stored bookings clash, whatever the current date. */
    ghost predicate Valid()
      reads this
    {
      ValidState(StoreState(bookings, nextId)) && forall today :: ConflictFree(bookings, today)
    }

    /** The module-level initial value: the two sample bookings and `nextId = 3`. */
    constructor(today: Day)
      ensures bookings == SeedBookings(today) && nextId == 3
      ensures Valid()
    {
      bookings := SeedBookings(today);
      nextId := 3;
      SeedValid(today);
      forall d ensures ConflictFree(SeedBookings(today), d) {
        SeedConflictFree(today, d);
      }
    }

    /** checkConflict: scan the store in order, skipping the edited booking, and stop at the first clash. */
    method CheckConflict(nb: Booking, skip: Option<BookingId>, today: Day) returns (conflict: Option<Booking>)
      ensures conflict == FirstConflict(bookings, nb, skip, today)
    {
      for i := 0 to |bookings|
        invariant FirstConflict(bookings, nb, skip, today) == FirstConflict(bookings[i..], nb, skip, today)
      {
        var existing := bookings[i];
        assert bookings[i..][1..] == bookings[i + 1..];
        if skip.Some? && existing.id == skip.value {
          continue;
        }
        if PairConflicts(nb, existing, today) {
          return Some(existing);
        }
      }
      return None;
    }

    /** addBookingAction. */
    method AddBooking(input: BookingInput, createdBy: Teacher, today: Day) returns (result: ActionResult)
      requires Valid()
      modifies this
      ensures (result, StoreState(bookings, nextId)) == Add(StoreState(old(bookings), old(nextId)), input, createdBy, today)
      ensures Valid()
    {
      AddPreservesValid(StoreState(bookings, nextId), input, createdBy, today);
      AddKeepsConflictFree(StoreState(bookings, nextId), input, createdBy, today);
      ConflictFreeEveryDay(Add(StoreState(bookings, nextId), input, createdBy, today).1.bookings, today);
      var id := nextId;
      nextId := nextId + 1;
      var draft := Draft(input, id, createdBy, today);
      if draft.Failure? {
        return draft;
      }
      var conflict := CheckConflict(draft.booking, None, today);
      if conflict.Some? {
        nextId := nextId - 1;
        return Failure(ConflictWith(conflict.value));
      }
      bookings := bookings + [draft.booking];
      return draft;
    }

    /** updateBookingAction. */
    method UpdateBooking(id: BookingId, input: BookingInput, today: Day) returns (result: ActionResult)
      requires Valid()
      modifies this
      ensures (result, StoreState(bookings, nextId)) == Update(StoreState(old(bookings), old(nextId)), id, input, today)
      ensures Valid()
    {
      UpdatePreservesValid(StoreState(bookings, nextId), id, input, today);
      UpdateKeepsConflictFree(StoreState(bookings, nextId), id, input, today);
      ConflictFreeEveryDay(Update(StoreState(bookings, nextId), id, input, today).1.bookings, today);
      var index := IndexOfId(bookings, id);
      if index.None? {
        return Failure(NotFound);
      }
      var existing := bookings[index.value];
      var draft := Draft(input, existing.id, existing.createdBy, KeptStartDate(existing, today));
      if draft.Failure? {
        return draft;
      }
      var conflict := CheckConflict(draft.booking, Some(id), today);
      if conflict.Some? {
        return Failure(ConflictWith(conflict.value));
      }
      bookings := bookings[index.value := draft.booking];
      return draft;
    }

    /** deleteBookingAction: drop every booking with the id; success when the list got shorter. */
    method DeleteBooking(id: BookingId) returns (success: bool)
      requires Valid()
      modifies this
      ensures bookings == RemoveId(old(bookings), id) && nextId == old(nextId)
      ensures success <==> exists i :: 0 <= i < |old(bookings)| && old(bookings)[i].id == id
      ensures success ==> exists k :: 0 <= k < |old(bookings)| && old(bookings)[k].id == id
                                      && bookings == old(bookings)[..k] + old(bookings)[k + 1..]
      ensures !success ==> bookings == old(bookings)
      ensures Valid()
    {
      DeleteOutcome(StoreState(bookings, nextId), id);
      var initialLength := |bookings|;
      bookings := RemoveId(bookings, id);
      success := |bookings| < initialLength;
    }

    /** getBookingsForWeek: keep, in store order, the bookings the week test accepts. */
    method GetBookingsForWeek(weekStart: Day, weekEnd: Day) returns (r: seq<Booking>)
      ensures r == WeekBookings(bookings, weekStart, weekEnd)
    {
      r := FilterWeek(bookings, weekStart, weekEnd);
    }

    /** getMonthlyRecurringBookings: None where the source throws. */
    method GetMonthlyRecurringBookings(current: Day) returns (r: Option<seq<Booking>>)
      ensures r == MonthlyRecurring(bookings, current)
    {
      var monthStart, monthEnd := MonthBounds(current);
      if monthStart.None? {
        return None;
      }
      var kept := KeepInMonth(bookings, monthStart.value, monthEnd);
      return Some(kept);
    }
  }
}
