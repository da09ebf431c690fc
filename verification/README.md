# Booking front-end: availability and booking logic

A Dafny model of the client-side logic of a space-booking web application
(an Angular front end over a REST API). Four components make up the core:

- **the weekly reservation calendar**
  (`src/app/shared/components/reservation-calendar/reservation-calendar.component.ts`,
  module `Calendar`):
  - builds an hourly grid and a Monday-anchored week of seven days;
  - marks each hour slot of each day as reserved when a reservation covers
    it, comparing `"HH:mm"` strings on a `"YYYY-MM-DD"` date;
  - names the first covering reservation;
  - moves between weeks;
  - formats the week range and the slot tooltips;
- **the spaces list** (`src/app/pages/spaces/list-spaces/spaces.component.ts`,
  module `SpaceList`):
  - local filtering by type and capacity bounds;
  - a server-side availability search when a date and both times are filled in;
  - the sorted list of distinct space types;
  - the time options;
  - create-reservation navigation and confirmed deletion;
- **the reservation form**
  (`src/app/pages/reservations/manage-reservation/manage-reservation.component.ts`,
  module `ReservationEditor`):
  - create and edit modes taken from the route;
  - the day's other reservations and the single occupied range they span;
  - the payload joining the chosen date to each chosen time with `T`;
  - save, with its error handling;
- **the space form** (`src/app/pages/spaces/manage-space/manage-space.component.ts`,
  module `SpaceEditor`): loading a space into the form, field validation,
  building the payload, and save, with server-side field errors.

Each component's state is an immutable record. Each handler is a pure
function from the old state (and the data the handler receives) to a
`Step`, which holds:
- the new state;
- the API requests it issues;
- the toasts it shows;
- the navigation it performs (plus, on the spaces list, the confirmation
  prompt).

An asynchronous subscription is split in two: the handler that sends the
request, and separate handlers for its `next` and `error` callbacks.

Supporting modules state the JavaScript behaviour the components rely on:
- `Text`:
  - number-to-string conversion and `padStart`;
  - lexicographic string `<`;
  - `split('T')` and `substring(0, 5)`;
  - truthiness and `||` on strings and numbers;
- `Clock`: `"HH:mm"` labels and hour grids, including the fact that string
  order on well-formed labels is clock order;
- `CivilDate`:
  - proleptic Gregorian day numbers counted from 1970-01-01;
  - the weekday;
  - `YYYY-MM-DD` formatting and its inverse;
- `Sequences`: `Array.prototype.filter` and the subsequence relation;
- `SortedStrings`: `[...new Set(xs)].sort()` on strings;
- `Ui`: toasts, HTTP error bodies and navigation;
- `Wrappers`: `Option`.

Days are integers counted from 1970-01-01, which was a Thursday, so
`getDay()` is `(n + 4) % 7`. The current day is a parameter, where the
source reads the clock. Instants the reservation form receives are a day
plus a minute of the day.

The model records several behaviours of the source that are easy to miss:
- The occupied range spans the earliest to the latest instant of the
  listed reservations, shown as clock times only. A reservation running
  past midnight therefore produces a range whose end label sorts before
  its start label (`OvernightRangeInverted`).
- Editing a reservation and saving it unchanged stores its end time on the
  start's date, because the form has one date field (`EditRoundTrip`).
- A route id whose text is `"0"` is present but numerically falsy:
  - on the reservation form the reservation is still fetched, and a
    `spaceId` query parameter also switches the page to create mode
    (`ZeroIdStillLoads`);
  - on both forms an edit with a falsy id sends no save request, and the
    space form stays in its loading state (`SpaceEditor.OnSubmit`,
    `ReservationEditor.OnSubmit`).
- A 422 reply without a body makes the reservation form's error handler
  throw before it shows anything: the state is unchanged
  (`ReservationEditor.SaveFailed`).
- On the reservation form, the toast for any other failed status says
  "Something went wrong. Please try again.", while the page error says
  "Something went wrong".

## Model

| member | source | states |
|---|---|---|
| Text.OrElse | src/app/pages/spaces/list-spaces/spaces.component.ts:140 | JavaScript's `or` on an optional string gives the string exactly when it is present and non-empty, otherwise the fallback |
| Text.DecimalStringInverse | src/app/pages/reservations/manage-reservation/manage-reservation.component.ts:221 | `toString()` of an integer is a decimal numeral that reads back as the same integer |
| Text.ParseDigitsInverse | src/app/pages/reservations/manage-reservation/manage-reservation.component.ts:211-212 | the digits of a natural number read back as that number |
| Text.PadStart | src/app/shared/components/reservation-calendar/reservation-calendar.component.ts:54 | `padStart` never truncates: the result is as long as the text or the width, whichever is larger |
| Text.PadStartShape | src/app/shared/components/reservation-calendar/reservation-calendar.component.ts:54 | the padded result ends with the text unchanged and holds only the fill character before it |
| Text.Pad2Digits | src/app/shared/components/reservation-calendar/reservation-calendar.component.ts:165-166 | two-digit padding of 0..99 is the tens digit followed by the units digit |
| Text.StrLessIrreflexive | src/app/shared/components/reservation-calendar/reservation-calendar.component.ts:144 | JavaScript string `<` is irreflexive |
| Text.StrLessTransitive | src/app/shared/components/reservation-calendar/reservation-calendar.component.ts:144 | string `<` is transitive |
| Text.StrLessTotal | src/app/shared/components/reservation-calendar/reservation-calendar.component.ts:144 | two different strings are ordered one way or the other |
| Text.StrLessAsymmetric | src/app/shared/components/reservation-calendar/reservation-calendar.component.ts:144 | string `<` never holds both ways |
| Text.Split | src/app/shared/components/reservation-calendar/reservation-calendar.component.ts:116-119 | `split` yields separator-free pieces that join back to the input, and more than one piece exactly when the separator occurs |
| Text.SplitAtFirst | src/app/shared/components/reservation-calendar/reservation-calendar.component.ts:119 | splitting `x + sep + y` with `x` free of the separator gives `x` as the first piece |
| Text.SplitNoSeparator | src/app/shared/components/reservation-calendar/reservation-calendar.component.ts:130-132 | a text without the separator splits into itself alone |
| Text.Prefix | src/app/shared/components/reservation-calendar/reservation-calendar.component.ts:133 | `substring(0, n)` is a prefix of the text, of length `n` or the whole text when shorter |
| Clock.FormatClockInverse | src/app/pages/reservations/manage-reservation/manage-reservation.component.ts:210-214 | the `"HH:mm"` label of an hour and a minute in 0..99 is well formed and reads back as that hour and minute |
| Clock.ClockOfParts | src/app/pages/reservations/manage-reservation/manage-reservation.component.ts:210-214 | for a time of day the label denotes exactly `60*h + m` minutes |
| Clock.ClockTextOrder | src/app/shared/components/reservation-calendar/reservation-calendar.component.ts:144 | string order on two labels is the order of (hour, minute) fields |
| Clock.ClockOrder | src/app/shared/components/reservation-calendar/reservation-calendar.component.ts:144 | for labels with minutes below 60, string `<` is "earlier on the clock" |
| Clock.HourGridLabels | src/app/shared/components/reservation-calendar/reservation-calendar.component.ts:51-56 | for hours 0..99 the i-th label of the grid is the whole-hour label of `first + i` (hour field `first + i`, minute field 0), and the labels rise strictly |
| Clock.ClockTextUnique | src/app/shared/components/reservation-calendar/reservation-calendar.component.ts:54 | a clock label is determined by its hour and minute fields |
| Clock.HourLabelOnly | src/app/shared/components/reservation-calendar/reservation-calendar.component.ts:54 | the only label with hour field `h` and minute field 0 is `HourLabel(h)` |
| Clock.HourLabelText | src/app/shared/components/reservation-calendar/reservation-calendar.component.ts:54 | the label of a two-digit hour is its tens digit, its units digit, then `:00` |
| Clock.HourLabelOrder | src/app/shared/components/reservation-calendar/reservation-calendar.component.ts:54 | a later hour's label sorts after an earlier one's |
| Clock.ClockTextHasNoT | src/app/pages/reservations/manage-reservation/manage-reservation.component.ts:217-218 | a clock label contains no `T`, so it survives being joined with `T` and split again |
| CivilDate.FromDayNumber | src/app/shared/components/reservation-calendar/reservation-calendar.component.ts:164-166 | each day number has a valid calendar date that maps back to it |
| CivilDate.FromDayNumberInverse | src/app/shared/components/reservation-calendar/reservation-calendar.component.ts:72-73 | converting a valid date to its day number and back gives the same date |
| CivilDate.Weekday | src/app/shared/components/reservation-calendar/reservation-calendar.component.ts:60 | `getDay()` lies in 0..6 |
| CivilDate.WeekdayShift | src/app/shared/components/reservation-calendar/reservation-calendar.component.ts:60 | `getDay()` advances by one per day, modulo 7, and 1970-01-01 is a Thursday |
| CivilDate.FormatDateInverse | src/app/shared/components/reservation-calendar/reservation-calendar.component.ts:163-168 | the `YYYY-MM-DD` text of a day parses back to that day's year, month and day |
| CivilDate.FormatDateInjective | src/app/shared/components/reservation-calendar/reservation-calendar.component.ts:163-168 | different days never get the same date text |
| CivilDate.FormatDateShape | src/app/shared/components/reservation-calendar/reservation-calendar.component.ts:163-168 | for four-digit years the text is ten characters, with dashes at positions 4 and 7 and digits elsewhere |
| CivilDate.FormatDateHasNoT | src/app/pages/reservations/manage-reservation/manage-reservation.component.ts:126 | a date text contains no `T`, so taking the part before `T` leaves it whole |
| Sequences.Filter | src/app/pages/spaces/list-spaces/spaces.component.ts:92-109 | `filter` returns a subsequence of its input whose every element passes |
| Sequences.FilterCounts | src/app/pages/spaces/list-spaces/spaces.component.ts:92-109 | every passing value occurs in the result as often as in the input |
| Sequences.FilterKeepAll | src/app/pages/spaces/list-spaces/spaces.component.ts:108 | a filter that keeps everything returns its input |
| Sequences.FirstIndex | src/app/pages/reservations/manage-reservation/manage-reservation.component.ts:91 | `find` stops at the first element that passes; there is none exactly when no element passes |
| SortedStrings.SortedHasNoDuplicates | src/app/pages/spaces/list-spaces/spaces.component.ts:80 | a strictly sorted list has no repeated entry |
| SortedStrings.Insert | src/app/pages/spaces/list-spaces/spaces.component.ts:80 | inserting into a strictly sorted list keeps it strictly sorted and adds exactly the new value |
| SortedStrings.SortedDistinct | src/app/pages/spaces/list-spaces/spaces.component.ts:80 | `[...new Set(xs)].sort()` is strictly sorted and holds exactly the values of `xs` |
| SortedStrings.SortedUnique | src/app/pages/spaces/list-spaces/spaces.component.ts:80 | two strictly sorted lists with the same members are equal |
| Ui.ErrorMessage | src/app/pages/spaces/list-spaces/spaces.component.ts:140 | `error.error?.message` is present exactly when the reply has a body with a message, and is then that message |
| Calendar.TimePart | src/app/shared/components/reservation-calendar/reservation-calendar.component.ts:128-142 | the time read from a timestamp is at most five characters |
| Calendar.Normalize | src/app/shared/components/reservation-calendar/reservation-calendar.component.ts:112-142 | a record without a start begins at 00:00; one without an end runs to 23:59; one with neither date nor start has no date |
| Calendar.DatePartOf | src/app/shared/components/reservation-calendar/reservation-calendar.component.ts:116-119 | the part before `T` of `date + "T" + time` is the date |
| Calendar.TimePartOf | src/app/shared/components/reservation-calendar/reservation-calendar.component.ts:130-133 | the time of `date + "T" + time` is the first five characters after the `T` |
| Calendar.TimePartBare | src/app/shared/components/reservation-calendar/reservation-calendar.component.ts:130-133 | a bare time is cut to its first five characters |
| Calendar.DatePartBare | src/app/shared/components/reservation-calendar/reservation-calendar.component.ts:116 | a bare date is kept whole |
| Calendar.NormalizeTimestamps | src/app/shared/components/reservation-calendar/reservation-calendar.component.ts:117-142 | a record with full timestamps and no `date` field is placed on the start's date, from the start's to the end's `HH:mm` |
| Calendar.NormalizeSeparateDate | src/app/shared/components/reservation-calendar/reservation-calendar.component.ts:114-116 | a record with a `date` field is placed on the part of it before `T` |
| Calendar.NormalizeDateAndTimestamps | src/app/shared/components/reservation-calendar/reservation-calendar.component.ts:112-134 | a record with a `date` field and full timestamps is placed on the `date` field's date, from the start's to the end's `HH:mm` |
| Calendar.HalfOpen | src/app/shared/components/reservation-calendar/reservation-calendar.component.ts:144 | a reservation covers its own start slot exactly when the start sorts before the end, and never covers its end slot |
| Calendar.CoversIsClockInterval | src/app/shared/components/reservation-calendar/reservation-calendar.component.ts:144 | on well-formed labels the string test is the clock-minute test `start <= t < end` on the right date |
| Calendar.FindIndex | src/app/shared/components/reservation-calendar/reservation-calendar.component.ts:109-161 | `find` yields the first matching record in list order, and none exactly when no record matches |
| Calendar.DaySlots | src/app/shared/components/reservation-calendar/reservation-calendar.component.ts:91-107 | one slot per grid label, in order; a slot is reserved exactly when some record covers it and then carries the first covering record's event name |
| Calendar.SlotAt | src/app/shared/components/reservation-calendar/reservation-calendar.component.ts:97-103 | a slot is reserved iff some record matches; a free slot has no event name |
| Calendar.BuildWeek | src/app/shared/components/reservation-calendar/reservation-calendar.component.ts:66-89 | seven days, the i-th being the day `anchor + i` |
| Calendar.DayOf | src/app/shared/components/reservation-calendar/reservation-calendar.component.ts:71-87 | a day carries its own date text, its weekday's name, the slots of the grid on that date, and `isToday` exactly when it is the current day |
| Calendar.DayName | src/app/shared/components/reservation-calendar/reservation-calendar.component.ts:170-173 | `getDayName` gives one of the seven short day names |
| Calendar.DayNameNext | src/app/shared/components/reservation-calendar/reservation-calendar.component.ts:170-173 | the names run round the week Sun..Sat, one step per day; day 0 (1970-01-01) is "Thu" |
| Calendar.WeekDayNames | src/app/shared/components/reservation-calendar/reservation-calendar.component.ts:66-77 | a week anchored on the current Monday is named Mon, Tue, ... Sun in order |
| Calendar.MondayOnOrBefore | src/app/shared/components/reservation-calendar/reservation-calendar.component.ts:58-64 | the week anchor is a Monday no later than today and less than seven days before it; a Sunday goes back six days |
| Calendar.WeekDatesDistinct | src/app/shared/components/reservation-calendar/reservation-calendar.component.ts:71-79 | the seven days of a week have pairwise different date texts |
| Calendar.ReservationOnOneDay | src/app/shared/components/reservation-calendar/reservation-calendar.component.ts:71-79 | a record matches a given time on at most one day of the week |
| Calendar.ExactlyOneToday | src/app/shared/components/reservation-calendar/reservation-calendar.component.ts:68-77 | a week shows a "today" exactly when it contains the current day, and on one day only |
| Calendar.GenerateTimeSlots | src/app/shared/components/reservation-calendar/reservation-calendar.component.ts:51-56 | one label per hour from `startHour` to `endHour`; for two-digit hours the i-th is the whole-hour label of `startHour + i`, and they rise strictly; nothing else changes |
| Calendar.NineToFiveSlots | src/app/shared/components/reservation-calendar/reservation-calendar.component.spec.ts:23-31 | hours 9 to 17 give nine labels, from "09:00" to "17:00" |
| Calendar.ChangedReservationsShown | src/app/shared/components/reservation-calendar/reservation-calendar.component.ts:44-49 | a new reservations input is shown at once on the same week, except on the first binding |
| Calendar.ShowsCurrentWeek | src/app/shared/components/reservation-calendar/reservation-calendar.component.ts:37-42 | after init or "today" the anchor is a Monday and exactly one day, the current weekday's, is marked today |
| Calendar.WeekNavigationInverse | src/app/shared/components/reservation-calendar/reservation-calendar.component.ts:180-188 | next and previous shift the anchor by seven days and undo each other |
| Calendar.RebuildIgnoresOldSchedule | src/app/shared/components/reservation-calendar/reservation-calendar.component.ts:66-67 | the rebuilt week depends only on the inputs, grid and anchor, never on the previous schedule |
| Calendar.SameMonthWeek | src/app/shared/components/reservation-calendar/reservation-calendar.component.ts:203-208 | within one month, the last day of the week is the first day plus six, in the same year |
| Calendar.SameMonthDates | src/app/shared/components/reservation-calendar/reservation-calendar.component.ts:203-208 | two dates six days apart in the same month are in the same year, the later day numbered six more |
| Calendar.MonthNamesDistinct | src/app/shared/components/reservation-calendar/reservation-calendar.component.ts:175-178 | different months have different short names |
| Calendar.WeekRangeWithinMonth | src/app/shared/components/reservation-calendar/reservation-calendar.component.ts:207-208 | a week inside one month reads `Mon d - d+6, yyyy` |
| Calendar.WeekRangeAcrossMonths | src/app/shared/components/reservation-calendar/reservation-calendar.component.ts:209-211 | a week that crosses months names both months, with the end's year |
| Calendar.TooltipOfDaySlot | src/app/shared/components/reservation-calendar/reservation-calendar.component.ts:214-219 | the tooltip is "Available" exactly when no record covers the slot, and otherwise names the first covering event when it has a non-empty name |
| SpaceList.FindSpace | src/app/pages/reservations/manage-reservation/manage-reservation.component.ts:91 | `find` by id gives the first space with that id, and none exactly when no space has it |
| SpaceList.ApplyLocalFilters | src/app/pages/spaces/list-spaces/spaces.component.ts:91-110 | the shown spaces are a subsequence of the loaded ones, each of the chosen type and within the capacity bounds |
| SpaceList.LocalFiltersKeepEveryMatch | src/app/pages/spaces/list-spaces/spaces.component.ts:91-110 | no space that passes is dropped |
| SpaceList.NoCriteriaShowsAll | src/app/pages/spaces/list-spaces/spaces.component.ts:94-108 | with no type and no bounds every loaded space is shown |
| SpaceList.FixtureFiltered | src/app/pages/spaces/list-spaces/spaces.component.ts:92-109 | the test fixture is filtered one space at a time |
| SpaceList.FixtureFilters | src/app/pages/spaces/list-spaces/spaces.component.spec.ts:198-233 | the outcomes the unit tests expect for the type, min, max and combined filters |
| SpaceList.Types | src/app/pages/spaces/list-spaces/spaces.component.ts:79 | the type of each space, position by position |
| SpaceList.ExtractUniqueTypes | src/app/pages/spaces/list-spaces/spaces.component.ts:78-81 | the type list is strictly sorted and holds exactly the types that occur |
| SpaceList.UniqueTypesCanonical | src/app/pages/spaces/list-spaces/spaces.component.ts:78-81 | it is the only strictly sorted list with those members |
| SpaceList.UniqueTypesIgnoreOrder | src/app/pages/spaces/list-spaces/spaces.component.ts:78-81 | reordering or repeating spaces leaves the type list unchanged |
| SpaceList.FixtureTypes | src/app/pages/spaces/list-spaces/spaces.component.spec.ts:151-159 | the fixture yields exactly its three types, sorted |
| SpaceList.GenerateAllTimeOptions | src/app/pages/spaces/list-spaces/spaces.component.ts:56-61 | appends the 24 whole-hour labels of the day, the i-th new one for hour i, to the existing options, changing nothing else |
| SpaceList.TimeOptionsAfterInit | src/app/pages/spaces/list-spaces/spaces.component.spec.ts:345-355 | after init the options are the 24 whole-hour labels, with "00:00", "09:00" and "23:00" at positions 0, 9 and 23, in strictly increasing order |
| SpaceList.LoadSpaces | src/app/pages/spaces/list-spaces/spaces.component.ts:63-65 | loading starts and one fetch with the given window is sent |
| SpaceList.SpacesLoaded | src/app/pages/spaces/list-spaces/spaces.component.ts:66-71 | the data is stored; every space that passes the current filters is shown, as often as it was loaded, and nothing else; the types are exactly those occurring, strictly sorted; loading ends |
| SpaceList.FixtureLoadShowsAll | src/app/pages/spaces/list-spaces/spaces.component.spec.ts:125-133 | loading the three fixture spaces on a fresh page shows all three and ends loading |
| SpaceList.SpacesLoadFailed | src/app/pages/spaces/list-spaces/spaces.component.ts:72-74 | only loading changes, to off |
| SpaceList.NgOnInit | src/app/pages/spaces/list-spaces/spaces.component.ts:50-54 | the role is recorded, 24 options are built and an unfiltered fetch is sent; the space lists start empty, with no prompt, toast or navigation |
| SpaceList.ApplyFilters | src/app/pages/spaces/list-spaces/spaces.component.ts:83-89 | a full date and time window is sent to the server; otherwise the spaces are filtered locally without a request |
| SpaceList.ApplyFiltersLocalIdempotent | src/app/pages/spaces/list-spaces/spaces.component.ts:86-88 | filtering locally twice is filtering once |
| SpaceList.ClearFilters | src/app/pages/spaces/list-spaces/spaces.component.ts:112-122 | every criterion is reset and an unfiltered fetch is sent; nothing else on the page changes apart from loading, and there is no prompt, toast or navigation |
| SpaceList.ClearThenLoadShowsAll | src/app/pages/spaces/list-spaces/spaces.component.ts:112-122 | after clearing, whatever arrives is shown in full |
| SpaceList.CreateReservation | src/app/pages/spaces/list-spaces/spaces.component.ts:124-126 | navigates to the reservation form with the space id as query parameter; the page is unchanged and nothing else happens |
| SpaceList.DeleteSpace | src/app/pages/spaces/list-spaces/spaces.component.ts:128-133 | always prompts; the delete request is sent if and only if the user confirms |
| SpaceList.SpaceDeleted | src/app/pages/spaces/list-spaces/spaces.component.ts:134-137 | a success toast names the space and the list is reloaded; there is no prompt or navigation |
| SpaceList.SpaceDeleteFailed | src/app/pages/spaces/list-spaces/spaces.component.ts:138-143 | an error toast titled "Delete Failed" carries the server message when non-empty, otherwise the fixed text; the page is unchanged, with no request, prompt or navigation |
| ReservationEditor.GenerateAllTimeOptions | src/app/pages/reservations/manage-reservation/manage-reservation.component.ts:79-86 | appends the whole-hour labels 07:00..22:00, the i-th new one for hour 7 + i, and offers all options as start and end times; no other field changes |
| ReservationEditor.FormatTime | src/app/pages/reservations/manage-reservation/manage-reservation.component.ts:210-214 | the label of an instant is well formed and denotes exactly its minute of the day |
| ReservationEditor.ForDate | src/app/pages/reservations/manage-reservation/manage-reservation.component.ts:157-167 | the listed reservations are a subsequence of those fetched, each starting on the chosen date and, in edit mode, other than the one being edited |
| ReservationEditor.ForDateComplete | src/app/pages/reservations/manage-reservation/manage-reservation.component.ts:157-167 | every qualifying reservation is listed, and all listed ones start on the same day |
| ReservationEditor.Endpoints | src/app/pages/reservations/manage-reservation/manage-reservation.component.ts:188-191 | exactly the start and end instants of the reservations, two per reservation |
| ReservationEditor.Earliest | src/app/pages/reservations/manage-reservation/manage-reservation.component.ts:194 | `Math.min` picks one of the instants, no later than any other |
| ReservationEditor.Latest | src/app/pages/reservations/manage-reservation/manage-reservation.component.ts:195 | `Math.max` picks one of the instants, no earlier than any other |
| ReservationEditor.OccupiedRange | src/app/pages/reservations/manage-reservation/manage-reservation.component.ts:188-204 | the range starts at the label of an endpoint no later than any start or end, and ends at the label of one no earlier than any |
| ReservationEditor.OccupiedRangeSameDay | src/app/pages/reservations/manage-reservation/manage-reservation.component.ts:188-204 | when all reservations lie within one day, the range is ordered and covers every reservation in string order |
| ReservationEditor.OvernightRangeInverted | src/app/pages/reservations/manage-reservation/manage-reservation.component.ts:194-204 | a 22:00 to 01:00 overnight reservation produces a range whose end sorts before its start |
| ReservationEditor.CalculateOccupiedTimeRanges | src/app/pages/reservations/manage-reservation/manage-reservation.component.ts:179-208 | no range without reservations, otherwise the single spanning range, and every option stays available |
| ReservationEditor.LoadReservationsByDate | src/app/pages/reservations/manage-reservation/manage-reservation.component.ts:151-154 | a request is sent exactly when the form has a truthy space id and a date |
| ReservationEditor.OnDateChange | src/app/pages/reservations/manage-reservation/manage-reservation.component.ts:145-149 | the handler's guard adds nothing: it acts exactly as loadReservationsByDate |
| ReservationEditor.ReservationsByDateLoaded | src/app/pages/reservations/manage-reservation/manage-reservation.component.ts:155-169 | the listed reservations are the date-filtered ones; with none there is no range, otherwise exactly the one spanning range over them; no other field changes |
| ReservationEditor.ReservationsByDateFailed | src/app/pages/reservations/manage-reservation/manage-reservation.component.ts:170-175 | no reservations, no range, every option offered; no other field changes |
| ReservationEditor.LoadSpace | src/app/pages/reservations/manage-reservation/manage-reservation.component.ts:88-89 | fetches the spaces for the given id and changes no state |
| ReservationEditor.SpaceLoaded | src/app/pages/reservations/manage-reservation/manage-reservation.component.ts:90-95 | the first space with the id is shown, loading ends and the space's reservations are requested; no other field changes, and there is no toast or navigation |
| ReservationEditor.SpaceLoadFailed | src/app/pages/reservations/manage-reservation/manage-reservation.component.ts:96-98 | only loading changes, to off |
| ReservationEditor.AllReservationsLoaded | src/app/pages/reservations/manage-reservation/manage-reservation.component.ts:105-109 | the calendar receives the reservations and nothing else changes |
| ReservationEditor.AllReservationsFailed | src/app/pages/reservations/manage-reservation/manage-reservation.component.ts:110-114 | the calendar receives no reservations and nothing else changes |
| ReservationEditor.LoadReservation | src/app/pages/reservations/manage-reservation/manage-reservation.component.ts:118-119 | fetches the reservation and changes no state |
| ReservationEditor.FormOf | src/app/pages/reservations/manage-reservation/manage-reservation.component.ts:121-130 | the form's date is a date text denoting the start day, and its times denote the start and end minutes |
| ReservationEditor.FillForm | src/app/pages/reservations/manage-reservation/manage-reservation.component.ts:124-136 | the form is replaced, the space is requested and, when the space id is truthy, that day's reservations too |
| ReservationEditor.ReservationLoaded | src/app/pages/reservations/manage-reservation/manage-reservation.component.ts:120-137 | the form is filled from the reservation, then the space and that date's reservations are requested |
| ReservationEditor.ReservationLoadFailed | src/app/pages/reservations/manage-reservation/manage-reservation.component.ts:138-141 | the page error is set and loading ends, nothing else changes |
| ReservationEditor.NgOnInit | src/app/pages/reservations/manage-reservation/manage-reservation.component.ts:53-77 | a truthy route id opens edit mode and fetches it; a space query alone opens create mode and fetches the space; with neither, loading ends |
| ReservationEditor.ZeroIdStillLoads | src/app/pages/reservations/manage-reservation/manage-reservation.component.ts:58-75 | a route id of 0 still fetches the reservation, yet a space query switches to create mode |
| ReservationEditor.InitialTimeOptions | src/app/pages/reservations/manage-reservation/manage-reservation.component.ts:79-86 | the pickers offer the 16 whole-hour labels 07:00..22:00 in increasing order |
| ReservationEditor.MakePayload | src/app/pages/reservations/manage-reservation/manage-reservation.component.ts:217-225 | the space id is sent as a numeral that reads back as the id, and each timestamp is `date + "T" + time`, splitting back into those two parts |
| ReservationEditor.JoinedReadsBack | src/app/pages/reservations/manage-reservation/manage-reservation.component.ts:217-218 | a date and a time without 'T', joined by 'T', split back into the two and read by the calendar as that date and the cut time |
| ReservationEditor.PayloadReadsBack | src/app/pages/reservations/manage-reservation/manage-reservation.component.ts:217-225 | the calendar places a saved payload on the chosen date, from the chosen start to the chosen end |
| ReservationEditor.ClockPrefix | src/app/shared/components/reservation-calendar/reservation-calendar.component.ts:133 | a clock label is its own five-character prefix |
| ReservationEditor.EditRoundTrip | src/app/pages/reservations/manage-reservation/manage-reservation.component.ts:121-130 | a reservation loaded and saved unchanged keeps its start day and both minutes, with the end re-dated to the start's day |
| ReservationEditor.SavedReservationOccupies | src/app/pages/reservations/manage-reservation/manage-reservation.component.ts:217-225 | in the calendar a saved reservation covers a slot exactly when the slot is at or after the start and before the end |
| ReservationEditor.OnSubmit | src/app/pages/reservations/manage-reservation/manage-reservation.component.ts:216-232 | create mode always sends the payload; edit mode sends it under the reservation id only when that id is truthy |
| ReservationEditor.Saved | src/app/pages/reservations/manage-reservation/manage-reservation.component.ts:236-239 | a success toast for creation or update, then the reservations list |
| ReservationEditor.SaveFailed | src/app/pages/reservations/manage-reservation/manage-reservation.component.ts:240-249 | a 422 with a body shows its message, or "Invalid reservation"; a 422 without a body throws and changes nothing; any other status shows the fixed texts |
| ReservationEditor.Cancel | src/app/pages/reservations/manage-reservation/manage-reservation.component.ts:274-280 | back to the spaces from create mode, to the reservations otherwise |
| ReservationEditor.ToggleCalendar | src/app/pages/reservations/manage-reservation/manage-reservation.component.ts:282-284 | flips the calendar's visibility and nothing else |
| SpaceEditor.NgOnInit | src/app/pages/spaces/manage-space/manage-space.component.ts:47-61 | a route id opens edit mode and fetches the spaces; without one the page is in create mode with nothing to load |
| SpaceEditor.LoadSpace | src/app/pages/spaces/manage-space/manage-space.component.ts:63-65 | marks the space as loading and fetches the spaces |
| SpaceEditor.FormFromSpace | src/app/pages/spaces/manage-space/manage-space.component.ts:69-75 | the form copies name and type; a missing description becomes ""; a zero capacity or price becomes empty |
| SpaceEditor.SpacesLoaded | src/app/pages/spaces/manage-space/manage-space.component.ts:66-81 | a found space fills the form; a missing one gives a "Space not found" toast and a return to the spaces |
| SpaceEditor.SpacesLoadFailed | src/app/pages/spaces/manage-space/manage-space.component.ts:82-86 | a "Failed to load space" toast and a return to the spaces |
| SpaceEditor.Validate | src/app/pages/spaces/manage-space/manage-space.component.ts:92-103 | an error is keyed on exactly the fields that fail — missing name, missing type, capacity absent or below 1 — with the fixed messages |
| SpaceEditor.ValidExactly | src/app/pages/spaces/manage-space/manage-space.component.ts:106 | there are no errors exactly when every field rule holds |
| SpaceEditor.MakePayload | src/app/pages/spaces/manage-space/manage-space.component.ts:114-126 | the description is sent exactly when non-empty, and the price exactly when positive |
| SpaceEditor.OnSubmit | src/app/pages/spaces/manage-space/manage-space.component.ts:90-133 | invalid forms get their errors and a toast with no request; valid ones start loading and are created, or updated under a truthy id; a valid submit changes only the errors, cleared, and loading, set |
| SpaceEditor.EditUnchangedResubmits | src/app/pages/spaces/manage-space/manage-space.component.ts:63-133 | a loaded space saved unchanged is rejected exactly when its stored values break a rule, and otherwise resubmits its own fields |
| SpaceEditor.Saved | src/app/pages/spaces/manage-space/manage-space.component.ts:137-140 | a success toast naming the space, then the spaces list |
| SpaceEditor.Failed | src/app/pages/spaces/manage-space/manage-space.component.ts:141-150 | loading ends; server field errors replace the form errors when present; the toast carries the server message when non-empty, otherwise the fallback; no other field changes |
| SpaceEditor.CreateFailed | src/app/pages/spaces/manage-space/manage-space.component.ts:141-150 | loading ends; server field errors replace the form errors, else those are kept; space, mode and id are kept; a "Creation Failed" toast carries the server message when non-empty, otherwise the creation fallback; no other field changes |
| SpaceEditor.UpdateFailed | src/app/pages/spaces/manage-space/manage-space.component.ts:162-171 | loading ends; server field errors replace the form errors, else those are kept; space, mode and id are kept; an "Update Failed" toast carries the server message when non-empty, otherwise the update fallback; no other field changes |
| SpaceEditor.Cancel | src/app/pages/spaces/manage-space/manage-space.component.ts:175-177 | returns to the spaces list and changes nothing |

## Left out

- Dates and time zones. The calendar's local `Date` arithmetic and the form's
  mix of `toISOString()` (UTC) and `getHours()` (local time) are modelled as
  one zone with no offset, and seconds and milliseconds are ignored. Parsing a
  server timestamp with `new Date(text)` is outside the model: the
  reservation form receives reservations already as day and minute.
- `CivilDate.FormatDateShape`: restricted to four-digit years. The
  calendar's `formatDate` writes the year unpadded (`${year}`), so years
  below 1000 give a shorter text, which the shape does not describe.
- `ReservationEditor.FormOf` and `ReservationEditor.ForDate`: the date text
  of `toISOString().split('T')[0]` is modelled by the same `FormatDate`. The
  two texts agree only for years 1000..9999. `toISOString()` zero-pads years
  0..999 to four digits, and writes years outside 0..9999 as a signed
  six-digit year; neither form is modelled.
- The current day: reading the clock (`new Date()`) is replaced by a `today`
  parameter.
- `+param` on a non-numeric route parameter gives `NaN`, which is not
  modelled. Route parameters arrive as the integers they denote.
- Prices are JavaScript floating-point numbers, modelled as `real`.
- Every other JavaScript number is modelled as an unbounded integer. This
  covers ids, capacities, the capacity filter bounds and hours. A fractional
  capacity such as 0.5 from the number input cannot be represented, so the
  model never shows it failing the "at least 1" rule. Magnitudes of 1e21
  and above are also out of scope: `toString()` prints those in exponential
  notation, and `Text.DecimalString` does not model that.
- Strings are sequences of characters. UTF-16 code units are not
  distinguished from code points.
- Concurrency: RxJS subscription timing and the interleaving of concurrent
  replies are not modelled. Each reply is a separate handler applied to the
  state it finds.
- The user's answer to `confirm()` is a parameter of
  `SpaceList.DeleteSpace`, and `authService.isAdmin()` is a parameter of
  `SpaceList.NgOnInit`.
- These are not part of this model:
  - the API, auth and toast services;
  - the router;
  - the templates;
  - `console.log` output.
- The text-only getters are left out: `pageTitle`, `pageSubtitle`,
  `pageIcon`, `submitButtonText`, `loadingText` and
  `submitButtonLoadingText`. So are the space-type dropdown list, the
  table column definitions, and the calendar's `selectedDate` and
  `spaceId` inputs. None of these takes part in the availability or
  booking logic.
- Server field errors (`error.error.errors`) are modelled as a map from
  field name to message text.
- `Calendar.TimePart`: states only the length bound. Its exact value is
  given by `Calendar.TimePartOf` and `Calendar.TimePartBare`.
- `Calendar.Normalize`: states the defaults and the length bounds. The
  dates and times it extracts are given for three record shapes by
  `Calendar.NormalizeTimestamps`, `Calendar.NormalizeSeparateDate` and
  `Calendar.NormalizeDateAndTimestamps`:
  - full timestamps without a `date` field;
  - a `date` field with bare times;
  - a `date` field with full timestamps.
  Records with only some of the fields, or with a date part that is itself
  empty, are covered only by the defaults.
