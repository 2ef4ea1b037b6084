# Studio calendar booking engine in Dafny

This project models the booking engine of a small dance studio's weekly calendar (Studio-Calendario). The studio has three partners, Oski, Flor and Joa. They book classes that are either *single*, on one date, or *recurring*, on one weekday from a start date for one to six months or with no end.

The model covers:

- the in-memory store of `src/lib/actions.ts`: the booking list, the id counter, the conflict check, the add, update and delete actions, and the week and month queries;
- the date helpers of `src/lib/date-utils.ts`;
- the tables and time slots of `src/lib/constants.ts`;
- the record types of `src/lib/types.ts`;
- the placement helpers of `src/components/calendar/WeeklyCalendar.tsx`;
- the validation schema and submission logic of `src/components/booking/BookingForm.tsx`.

Representation:

- A calendar day is a day number counted from 0001-01-01, which is a Monday, in the proleptic Gregorian calendar (`Calendar`). `FromDay` and `ToDay` convert it to a year, month and day, and both round trips are proved.
- A time of day is a number of minutes since midnight (`Clock`). The source sets hours and minutes on a midnight with `setHours` and `setMinutes`. The `HH:mm` text of a minute count always has minutes below 60. For such texts both setter orders give the midnight plus the count: `combineDateAndTime` sets the hours first and `parseTimeString` the minutes first.
- Where the source compares dates or times *as strings*, the model keeps the string. `DateUtils.FormatDate` builds `yyyy-MM-dd` and `Clock.FormatTime` builds `HH:mm`, and `Text.LexLess` is JavaScript's `<` on strings. Lemmas prove that string order and equality agree with day and time order for four-digit years and two-digit hours.
- The current date, `new Date()`, is a parameter `today`.
- Each action runs as one atomic step.

Modules, one file each:

- `wrappers.dfy`: `Option`.
- `text.dfy`: digits, `padStart` and lexicographic order.
- `calendar.dfy`: civil dates, `addMonths`, the week and month bounds, and `parseISO` of `yyyy-MM-dd`.
- `clock.dfy`: `HH:mm` text.
- `types.dfy` and `constants.dfy`.
- `date_utils.dfy`.
- `actions.dfy`: the store. It has pure specification functions and a `BookingStore` class whose methods are proved against them.
- `weekly_calendar.dfy`.
- `booking_form.dfy`.

Several facts about the code as written are proved, not assumed:

- **Unbounded recurring bookings use a stand-in end.** A recurring booking without an end date is treated as ending 1825 days (`365*5`) after its start in three places: the conflict check, `isEventOnDay` and the month query. The week query and `isDateWithinInterval` treat it as having no end. As a result, past the stand-in the week query still returns such a booking, but no day of the grid shows it (`WeeklyCalendar.OpenEndedBeyondStandIn`).
- **Two recurring bookings on the same weekday are compared by range, not by shared dates.**
  - They conflict when their times overlap and their date ranges overlap strictly. Two well-formed one-month Monday classes can conflict although no Monday lies in both ranges (`Actions.RecurringConflictWithoutSharedDate`).
  - Two classes whose ranges meet on one day, and which both meet on that day, do not conflict (`Actions.RecurringSharedEndpointMissed`).
  - The code is followed here rather than the rule "a conflict needs a shared date of occurrence".
- **The id counter is given back only on a conflict.** `addBookingAction` increments it before validating. A missing date, weekday or duration returns after the increment, and the counter is not given back.

## Model

| member | source | states |
|---|---|---|
| Constants.DayNumberBijective | src/lib/constants.ts:16-24 | The weekday map is a bijection between the seven Spanish names and `getDay` numbers 0..6, with Domingo = 0. |
| Constants.DaysOfWeekMondayFirst | src/lib/constants.ts:15 | Column i of `DAYS_OF_WEEK` has `getDay` number (i + 1) mod 7: Monday first, Sunday last. |
| Constants.GenerateTimeSlots | src/lib/constants.ts:27-35 | The loop builds exactly `TimeSlots()`: two rows per hour from 08:00 to 21:30, then 22:00, 29 rows in all. |
| Constants.SlotText | src/lib/constants.ts:30-31 | Row i is the zero-padded hour 8 + i/2 followed by `:00` or `:30`, and it is marked as a full hour exactly for even i. |
| Constants.TimeSlotsBounds | src/lib/constants.ts:27-35 | The first slot reads 08:00 and the last reads 22:00. |
| Constants.TimeSlotsIncreasing | src/lib/constants.ts:27-37 | Slot texts increase strictly in string order, and each slot's text parses back to its minute. |
| Constants.IsHourIffWholeHour | src/lib/constants.ts:30-33 | Every slot text has five characters, and `isHour` holds exactly when its minutes read zero. |
| Clock.FormatTimeOrder | src/lib/date-utils.ts:29 | For hours below 100, `HH:mm` texts compare as strings exactly as the times compare, and they are equal exactly when the times are. |
| Clock.ParseFormatTime | src/lib/date-utils.ts:33-36 | Splitting an `HH:mm` text at `:` and reading both numbers gives back the minute count. |
| Calendar.ShiftMonths | src/lib/date-utils.ts:41 | On civil dates, `addMonths` gives a valid date n months later, on the same day clamped to the length of the target month. |
| Calendar.AddMonthsCivil | src/lib/date-utils.ts:41 | `addMonths` moves the month index by n and clamps the day to the length of the target month. |
| Calendar.AddMonthsLater | src/lib/date-utils.ts:41 | Adding at least one month gives a strictly later day. |
| Calendar.StartOfWeek | src/lib/date-utils.ts:20 | The start of the week is a Monday, at most six days before the date. |
| Calendar.EndOfMonth | src/lib/date-utils.ts:87 | The end of the month is the last day of the date's month, on or after the date. |
| DateUtils.GetDaysInWeek | src/lib/date-utils.ts:19-22 | Seven consecutive days beginning on a Monday, and the given date is among them. |
| DateUtils.WeekColumns | src/lib/date-utils.ts:19-22 | Day i of the week has the weekday of column i of `DAYS_OF_WEEK`. |
| DateUtils.NavigateWeek | src/lib/date-utils.ts:24-27 | 'today' gives today. 'next' and 'prev' keep the weekday and move the week's Monday by +7 or -7 days. |
| DateUtils.NavigateRoundTrip | src/lib/date-utils.ts:24-27 | 'next' then 'prev', or 'prev' then 'next', returns the same date. |
| DateUtils.ParseFormatDate | src/lib/date-utils.ts:30 | `parseISO(formatDate(d))` is d for years below 10000. |
| DateUtils.FormatParseDate | src/lib/date-utils.ts:30 | Every `YYYY-MM-DD` text that names a real day is the `formatDate` of that day. |
| DateUtils.SameDate | src/lib/date-utils.ts:30 | Two days have the same `yyyy-MM-dd` text exactly when they are the same day, for every year. |
| DateUtils.FormatDateOrder | src/lib/date-utils.ts:30 | For four-digit years, one `yyyy-MM-dd` text is below another in string order exactly when its day is earlier. |
| DateUtils.DurationMonths | src/lib/date-utils.ts:40 | `parseInt` of the first space-separated word of every bounded duration label is its month count, between 1 and 6. |
| DateUtils.DurationOptionsParse | src/lib/date-utils.ts:38-42 | Every option the form offers, other than 'Indefinido', yields a month count. |
| DateUtils.CalculateEndDate | src/lib/date-utils.ts:38-42 | There is no end exactly for 'Indefinido'. Otherwise the end is later than the start and its month index is the start's plus the duration's month count. |
| DateUtils.CombineDateAndTime | src/lib/date-utils.ts:45-55 | For a `YYYY-MM-DD` text, an instant exists exactly when the text names a real day. The source throws on any other such text. |
| DateUtils.CombineOrdered | src/lib/date-utils.ts:45-55 | On one date, two combined instants compare as their times compare. |
| DateUtils.CombineFormatted | src/lib/date-utils.ts:45-55 | Combining a formatted day with a time gives the day's instant plus the minutes. |
| DateUtils.InstantDayOrder | src/lib/date-utils.ts:45-55 | Any time on an earlier day comes before any time on a later day. |
| DateUtils.IsRecurringBookingInWeek | src/lib/date-utils.ts:57-74 | The loop returns true exactly when one of the given days has the booking's weekday and lies on or after its start and, if it has an end, on or before the end. |
| DateUtils.OccursInWeekColumn | src/lib/date-utils.ts:57-74 | A booking found in a week occurs in the grid column named by its weekday. |
| DateUtils.SameFormattedDate | src/lib/date-utils.ts:66-67 | The `formatDate(a) === formatDate(b)` test holds exactly when the two days are equal. |
| DateUtils.OccursOnWithin | src/lib/date-utils.ts:76-79 | An occurrence is a day with the right weekday that `isDateWithinInterval` accepts. |
| DateUtils.WithinUnbounded | src/lib/date-utils.ts:76-79 | Without an end, every day on or after the start is within the interval. With an end, exactly the days up to it are. |
| DateUtils.GetDaysInMonth | src/lib/date-utils.ts:85-89 | Consecutive days from the Monday of the date's week to the last day of its month, including the date. |
| Actions.EndOrStandIn | src/lib/actions.ts:75-76 | A missing end becomes the start plus 1825 days. |
| Actions.SingleSingleConflict | src/lib/actions.ts:59-66 | Two single bookings conflict exactly when they are on the same date and their half-open times overlap. |
| Actions.SingleRecurringConflict | src/lib/actions.ts:67-101 | A single and a recurring booking conflict, in either role, exactly when the date has the recurring weekday, lies in its range up to the end or stand-in, and the times overlap. |
| Actions.RecurringRecurringConflict | src/lib/actions.ts:102-122 | Two recurring bookings conflict exactly when they share the weekday, their times overlap and their ranges overlap strictly. The current date does not matter. |
| Actions.ConflictNeedsTimeOverlap | src/lib/actions.ts:65-111 | Every conflict has overlapping times, so back-to-back bookings never conflict. |
| Actions.DifferentWeekdaysNeverConflict | src/lib/actions.ts:105 | Recurring bookings on different weekdays never conflict. |
| Actions.ConflictSymmetric | src/lib/actions.ts:57-124 | The pair rule gives the same answer with the roles of new and existing swapped. |
| Actions.RecurringSharedEndpointMissed | src/lib/actions.ts:117-120 | Two same-weekday bookings whose ranges meet on one occurrence day do not conflict, because the range test is strict. |
| Actions.RecurringConflictWithoutSharedDate | src/lib/actions.ts:103-122 | Two well-formed one-month Monday classes, from 0001-01-01 and from 0001-01-31, conflict because their ranges overlap, although no Monday lies in both ranges. |
| Actions.FirstConflict | src/lib/actions.ts:42-127 | No result exactly when no considered booking clashes. Otherwise the result is a clashing booking from the list, never the skipped id. |
| Actions.FirstConflictUnique | src/lib/actions.ts:52-126 | The result is the first clashing booking in list order. |
| Actions.SkipIsRemoval | src/lib/actions.ts:53-55 | Skipping an id is the same as checking against the list with that id removed. |
| Actions.Draft | src/lib/actions.ts:144-165 | A single booking needs a date, and a recurring one needs a weekday and a duration. Otherwise the booking carries the given fields, and a recurring one gets the given start date and the `calculateEndDate` end. |
| Actions.SeedBookings | src/lib/actions.ts:11-39 | The two seed bookings have distinct ids. |
| Actions.SeedValid | src/lib/actions.ts:11-39 | The seed list with counter 3 satisfies the store invariant: unique ids below the counter and well-formed end dates. |
| Actions.Add | src/lib/actions.ts:130-176 | A complete draft with no clash succeeds: it is appended with the old counter as its id, and the counter goes up. A complete draft with a clash returns `ConflictWith` the first clashing booking, with the list and the counter unchanged. A missing field returns that error, with the list unchanged but the counter incremented. |
| Actions.AddPreservesValid | src/lib/actions.ts:130-176 | Adding keeps the store invariant. |
| Actions.IndexOfId | src/lib/actions.ts:183-186 | `findIndex` returns the first position with the id, or nothing when no booking has it. |
| Actions.Update | src/lib/actions.ts:178-235 | An unknown id gives 'not found'. Otherwise the booking is rebuilt from the form with its own id and creator, and its start date if recurring. A missing field reports that error. A rebuilt booking that clashes with another is rejected with `ConflictWith` the first such booking. One that clashes with none is accepted and replaces the old one in place. Any failure leaves the store unchanged, and the counter never changes. |
| Actions.UpdateUnchanged | src/lib/actions.ts:178-235 | In a valid, clash-free store, an update whose form rebuilds the stored booking exactly succeeds and leaves the store as it was. |
| Actions.UpdatePreservesValid | src/lib/actions.ts:178-235 | Updating keeps the store invariant. |
| Actions.RemoveId | src/lib/actions.ts:287 | The filtered list holds exactly the bookings with another id. |
| Actions.RemoveIdIsFilter | src/lib/actions.ts:287 | The delete's list is `filter` with the test "has another id", the same filter the two queries use. |
| Actions.RemoveIdShrinks | src/lib/actions.ts:286-292 | The list gets shorter, so delete reports success, exactly when some booking has the id. |
| Actions.RemoveIdAt | src/lib/actions.ts:287 | With unique ids, removing a booking's id removes just that position and keeps the order. |
| Actions.RemoveIdAbsent | src/lib/actions.ts:287-292 | Removing an absent id leaves the list as it was. |
| Actions.RemoveIdPreservesValid | src/lib/actions.ts:285-293 | Deleting keeps the store invariant. |
| Actions.ConflictFreeAnyDay | src/lib/actions.ts:57-124 | Whether a list holds two clashing bookings does not depend on the current date. |
| Actions.ConflictFreeEveryDay | src/lib/actions.ts:57-124 | A list free of clashes on one date is free of clashes on every date. |
| Actions.SeedConflictFree | src/lib/actions.ts:11-39 | The two seed bookings do not clash, whatever the current date. |
| Actions.AddKeepsConflictFree | src/lib/actions.ts:130-176 | Adding to a list with no two clashing bookings keeps it so. |
| Actions.UpdateKeepsConflictFree | src/lib/actions.ts:178-235 | Updating a valid list with no two clashing bookings keeps it so. |
| Actions.RemoveIdKeepsConflictFree | src/lib/actions.ts:285-293 | Deleting from a valid list with no two clashing bookings keeps it so. |
| Actions.DeleteOutcome | src/lib/actions.ts:285-293 | In a valid, clash-free store, deleting shrinks the list exactly when a booking has the id, and then removes just that position in order. Otherwise the list is unchanged. The result is valid and clash-free on every date. |
| Actions.Filter | src/lib/actions.ts:242-262 | `filter` keeps exactly the elements its callback accepts and never makes the list longer. The list order is stated by `FilterStep` and `FilterCons`. |
| Actions.FilterStep | src/lib/actions.ts:242 | One more element is appended to the result exactly when the callback keeps it. |
| Actions.FilterCons | src/lib/actions.ts:242 | Filtering a list with a head gives the head, if the callback keeps it, followed by the filtered rest, so the kept elements stay in list order. |
| Actions.FilterWeek | src/lib/actions.ts:242-262 | The loop returns the week specification: the stored bookings the week test keeps, in list order. |
| Actions.WeekMembership | src/lib/actions.ts:238-263 | A single booking is kept exactly when its date lies in the inclusive window. A recurring one is kept exactly when it occurs on one of the seven days from the week start, with no bound when it has no end. |
| Actions.SingleInWeekDays | src/lib/actions.ts:244 | For four-digit years, the string comparison of dates is the inclusive day range. |
| Actions.RecurringInWeek | src/lib/actions.ts:246-260 | The seven-day loop returns true exactly when the booking occurs in the week. |
| Actions.KeepInWeek | src/lib/actions.ts:242-262 | The filter's callback agrees with the week predicate. |
| Actions.MonthBounds | src/lib/actions.ts:267-268 | For every date before December 9999, the month start is the first day of the date's month and the month end is the first day of the next month. |
| Actions.KeepInMonth | src/lib/actions.ts:270-282 | The loop returns the month specification: the stored bookings the month test keeps, in list order. |
| Actions.MonthlyRecurringIn | src/lib/actions.ts:270-282 | Once the window is known, a booking is returned exactly when it is stored and recurring, starts before the window's end, and its end or stand-in lies after the window's start. |
| Actions.MonthWindow | src/lib/actions.ts:267-268 | The window runs from the first day of the date's month to the first day of the next month. |
| Actions.MonthMembership | src/lib/actions.ts:266-283 | A booking is returned exactly when it is recurring, starts before the next month and its end or stand-in lies after the month's first day. |
| Actions.UnboundedDropsOutOfMonth | src/lib/actions.ts:275-277 | An open-ended booking is returned only for months that begin before its 1825-day stand-in. |
| Actions.BookingStore.constructor | src/lib/actions.ts:11-39 | The store starts with the two seed bookings and counter 3. It is valid, and no two of its bookings clash on any date. |
| Actions.BookingStore.CheckConflict | src/lib/actions.ts:42-127 | The loop with `continue` returns what `FirstConflict` specifies. |
| Actions.BookingStore.AddBooking | src/lib/actions.ts:130-176 | The result and the new list and counter are those of `Add`. The store stays valid and free of clashing pairs. |
| Actions.BookingStore.UpdateBooking | src/lib/actions.ts:178-235 | The result and the new list and counter are those of `Update`. The store stays valid and free of clashing pairs. |
| Actions.BookingStore.DeleteBooking | src/lib/actions.ts:285-293 | The list loses exactly the bookings with the id. Success holds exactly when one had it, and then exactly that one position is removed, keeping the order. A failure leaves the list as it was. The counter is untouched, and the store stays valid and free of clashing pairs. |
| Actions.BookingStore.GetBookingsForWeek | src/lib/actions.ts:238-263 | The filter loop returns `WeekBookings`. |
| Actions.BookingStore.GetMonthlyRecurringBookings | src/lib/actions.ts:266-283 | Returns `MonthlyRecurring`, and nothing where the source throws. |
| WeeklyCalendar.SingleOnItsDay | src/components/calendar/WeeklyCalendar.tsx:91-95 | A single booking is shown on exactly its own day. |
| WeeklyCalendar.RecurringOnDay | src/components/calendar/WeeklyCalendar.tsx:96-103 | A recurring booking is shown on a day exactly when the day is an occurrence up to the end or stand-in, and never on another weekday. |
| WeeklyCalendar.OpenEndedBeyondStandIn | src/components/calendar/WeeklyCalendar.tsx:103 | Past the stand-in, an open-ended booking is fetched for the week but shown on none of its days. |
| WeeklyCalendar.EventPositionAndSpan | src/components/calendar/WeeklyCalendar.tsx:71-89 | The event runs from the grid row of its start time to the grid row of its end time. |
| WeeklyCalendar.GridRowOfSlot | src/components/calendar/WeeklyCalendar.tsx:80-81 | Slot i, starting from 08:00, lies in grid row i + 1. |
| WeeklyCalendar.SpanCountsHalfHours | src/components/calendar/WeeklyCalendar.tsx:71-89 | An event between two slots spans as many rows as it lasts half hours, and at least one row when it ends after it starts. |
| WeeklyCalendar.OffSlotMinutesRoundDown | src/components/calendar/WeeklyCalendar.tsx:75-81 | Any minute value other than 30 is placed as if it were :00. |
| WeeklyCalendar.CellShowsAtStartSlot | src/components/calendar/WeeklyCalendar.tsx:176 | A cell draws a booking exactly when the booking is on that day and starts at the slot's time. |
| WeeklyCalendar.AtMostOneCell | src/components/calendar/WeeklyCalendar.tsx:176 | A booking is drawn in at most one cell per day. |
| BookingForm.MissingFieldsRejected | src/components/booking/BookingForm.tsx:24-46 | The schema rejects a single booking without a date and a recurring one without a weekday or duration. Accepted forms have a name and an offered colour. |
| BookingForm.AcceptedTimesOrdered | src/components/booking/BookingForm.tsx:47-52 | The string test on the times holds exactly when the start is before the end, so an accepted form starts before it ends. |
| BookingForm.SubmissionData | src/components/booking/BookingForm.tsx:109-118 | The shared fields pass through. A date is sent only for a single booking that has one, and a weekday and duration only for a recurring one. |
| BookingForm.Submit | src/components/booking/BookingForm.tsx:120-135 | Edit mode with an id sends an update of that id. Anything else sends a creation by the logged-in partner. |
| BookingForm.AcceptedFormBuildsBooking | src/components/booking/BookingForm.tsx:24-52 | Whatever the schema accepts passes the store's required-field checks. |
| BookingForm.AcceptedCreateOutcome | src/components/booking/BookingForm.tsx:131-138 | Outside edit mode, an accepted form either appends the booking, with the logged-in partner as creator, or is rejected by a conflict with the store unchanged. |
| BookingForm.EditRoundTrip | src/components/booking/BookingForm.tsx:80-98 | Opening a well-formed booking in the form and submitting it unchanged sends an update of its id, and the store rebuilds exactly that booking from it. |
| BookingForm.EditResubmitUnchanged | src/components/booking/BookingForm.tsx:80-135 | Resubmitting the untouched edit form of a stored booking in a valid, clash-free store succeeds and leaves the store as it was. |
| BookingForm.ChoicesExcludeOneEnd | src/components/booking/BookingForm.tsx:277-292 | The start select offers every slot but the last (08:00 to 21:30). The end select offers every slot but the first (08:30 to 22:00). |

## Left out

- Rendering, toasts, loading skeletons, `revalidatePath` and the React state of the components are not modelled. Only the decision logic named above is.
- The clock, `new Date()`, is the parameter `today`. There are no time zones and no daylight-saving shifts: days are civil days and times are minutes.
- The conflict message text is not built. A conflict returns the clashing booking, from which the source formats its message.
- The store holds day numbers, not `yyyy-MM-dd` strings. A malformed date string inside the store, which `combineDateAndTime` would throw on, cannot arise in the model. The throw is modelled only in `DateUtils.CombineDateAndTime`.
- Times are minute counts, not strings. A form time that is empty, which `min(1)` rejects, is not represented. Every represented time has non-empty `HH:mm` text.
- Changing a booking's type during an update, which the form disables, is modelled as building a clean booking of the new kind. The source's object spread would keep the old variant's leftover fields.
- `isWithinInterval` with an end before its start is modelled as the inclusive test, which is false. date-fns v2 throws there, and later versions swap the ends.
- `parseInt` is modelled on a leading run of digits only, which is all the duration labels need.
- Dates before 0001-01-01 are not modelled.
- `parseISO` is modelled on the complete extended form `YYYY-MM-DD` only, the one form the application writes. date-fns also reads reduced precision (`2025-03`), basic format (`20250301`), week dates, ordinal dates and date-times. For those texts `Calendar.ParseIsoDate` gives nothing, while `combineDateAndTime` would not throw.
- Time texts whose minute field is 60 or more are not represented, because every time is a minute count whose text has minutes below 60. On such a text `parseTimeString`, which sets the minutes before the hours, would differ from `combineDateAndTime` and from `Clock.ParseTime`.
- DateUtils.NavigateWeek: requires `7 <= d` for 'prev', because dates before 0001-01-01 are not modelled.
- DateUtils.FormatDateOrder: proved for years below 10000 only. Above that, `yyyy` text has five digits and string order differs from day order.
- Actions.MonthlyRecurring: dates from year 10000 on have five-digit `yyyy` text, so the month start does not parse and the source's `format` of the invalid date throws. The model returns nothing there. In December 9999 the month end does not parse, every comparison with it is false, and the list is empty.
- The month query's `|| new Date()` fallback is dead code: a one-month end date always exists.
- `getWeekDateRange`, `formatDayMonth` and `getMonthName` produce Spanish display text only and are not modelled.
- The asynchronous server-action boundary and concurrent requests are not modelled. Each action is one atomic step.
