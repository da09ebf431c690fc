/** The weekly occupancy calendar (ReservationCalendarComponent): an hourly
    slot grid, the normalisation of loosely shaped reservation records, the
    half-open slot test with first-match lookup, and a Monday-anchored week
    that can be moved by whole weeks. "Today" is a day number passed in by
    the caller instead of being read from a clock. */
module Calendar {
  import opened Wrappers
  import opened Text
  import opened Clock
  import opened CivilDate
  import opened Sequences

  // ---------------------------------------------------------------------
  // Reservation records and their normal form
  // ---------------------------------------------------------------------

  /** A reservation as the server hands it to the calendar: the day may be a
      separate `date` field or embedded in `start_time`, each time may be a
      full timestamp ("2024-01-15T10:00:00") or a bare time ("10:00:00"),
      and any field may be missing. */
  datatype RawReservation = RawReservation(
    date: Option<string>,
    startTime: Option<string>,
    endTime: Option<string>,
    eventName: Option<string>)

  /** A record reduced to its day and its "HH:mm" interval. */
  datatype Span = Span(date: string, start: string, end: string)

  /** A record without a start begins at midnight; one without an end runs
      to the last minute of the day. */
  const DefaultStart := "00:00"
  const DefaultEnd := "23:59"

  /** `s.split('T')[0]`: the text before the first 'T'. */
  function DatePart(s: string): string {
    Split(s, 'T')[0]
  }

  /** `(s.includes('T') ? s.split('T')[1] : s).substring(0, 5)`. */
  function TimePart(s: string): (r: string)
    ensures |r| <= 5
  {
    Prefix(if 'T' in s then Split(s, 'T')[1] else s, 5)
  }

  /** The day and interval the calendar reads from a record. */
  function Normalize(r: RawReservation): (c: Span)
    ensures !Truthy(r.startTime) ==> c.start == DefaultStart
    ensures !Truthy(r.endTime) ==> c.end == DefaultEnd
    ensures |c.start| <= 5 && |c.end| <= 5
    ensures !Truthy(r.date) && !Truthy(r.startTime) ==> c.date == ""
  {
    var date :=
      if Truthy(r.date) then
        (if DatePart(r.date.value) != "" then DatePart(r.date.value) else r.date.value)
      else if Truthy(r.startTime) then DatePart(r.startTime.value)
      else "";
    var start := if Truthy(r.startTime) then TimePart(r.startTime.value) else DefaultStart;
    var end := if Truthy(r.endTime) then TimePart(r.endTime.value) else DefaultEnd;
    Span(date, start, end)
  }

  lemma DatePartOf(x: string, y: string)
    requires 'T' !in x
    ensures DatePart(x + "T" + y) == x
  {
    SplitAtFirst(x, 'T', y);
  }

  lemma TimePartOf(x: string, y: string)
    requires 'T' !in x && 'T' !in y
    ensures TimePart(x + "T" + y) == Prefix(y, 5)
  {
    SplitAtFirst(x, 'T', y);
    SplitNoSeparator(y, 'T');
    assert 'T' in x + "T" + y by {
      assert (x + "T" + y)[|x|] == 'T';
    }
  }

  lemma TimePartBare(s: string)
    requires 'T' !in s
    ensures TimePart(s) == Prefix(s, 5)
  {
  }

  lemma DatePartBare(s: string)
    requires 'T' !in s
    ensures DatePart(s) == s
  {
    SplitNoSeparator(s, 'T');
  }

  /** A record with no `date` field and full timestamps takes its day from
      the part of `start_time` before 'T' and its times from the parts after
      'T', cut to five characters. */
  lemma NormalizeTimestamps(d1: string, t1: string, d2: string, t2: string, name: Option<string>)
    requires 'T' !in d1 && 'T' !in t1 && 'T' !in d2 && 'T' !in t2
    ensures Normalize(RawReservation(None, Some(d1 + "T" + t1), Some(d2 + "T" + t2), name))
         == Span(d1, Prefix(t1, 5), Prefix(t2, 5))
  {
    DatePartOf(d1, t1);
    TimePartOf(d1, t1);
    TimePartOf(d2, t2);
    assert |d1 + "T" + t1| > 0 && |d2 + "T" + t2| > 0;
  }

  /** A record with a `date` field takes its day from that field (the part
      before 'T' when it holds a timestamp) and bare times are only cut to
      five characters. On a record already in normal form this is the
      identity. */
  lemma NormalizeSeparateDate(d: string, rest: Option<string>, t1: string, t2: string, name: Option<string>)
    requires d != "" && 'T' !in d && 'T' !in t1 && 'T' !in t2
    requires t1 != "" && t2 != ""
    ensures var dateField := if rest.Some? then d + "T" + rest.value else d;
      Normalize(RawReservation(Some(dateField), Some(t1), Some(t2), name)) == Span(d, Prefix(t1, 5), Prefix(t2, 5))
  {
    if rest.Some? {
      DatePartOf(d, rest.value);
      assert |d + "T" + rest.value| > 0;
    } else {
      DatePartBare(d);
    }
  }

  /** A record with both a `date` field and full timestamps takes its day
      from the `date` field, ignoring the timestamps' own dates, and its
      times from the parts after 'T', cut to five characters. */
  lemma NormalizeDateAndTimestamps(d: string, rest: Option<string>, d1: string, t1: string, d2: string, t2: string,
                                   name: Option<string>)
    requires d != "" && 'T' !in d && 'T' !in d1 && 'T' !in t1 && 'T' !in d2 && 'T' !in t2
    ensures var dateField := if rest.Some? then d + "T" + rest.value else d;
      Normalize(RawReservation(Some(dateField), Some(d1 + "T" + t1), Some(d2 + "T" + t2), name))
        == Span(d, Prefix(t1, 5), Prefix(t2, 5))
  {
    if rest.Some? {
      DatePartOf(d, rest.value);
      assert |d + "T" + rest.value| > 0;
    } else {
      DatePartBare(d);
    }
    TimePartOf(d1, t1);
    TimePartOf(d2, t2);
    assert |d1 + "T" + t1| > 0 && |d2 + "T" + t2| > 0;
  }

  // ---------------------------------------------------------------------
  // Slot lookup
  // ---------------------------------------------------------------------

  /** `time >= start && time < end` on strings, on the right day. */
  predicate Covers(c: Span, date: string, time: string) {
    c.date == date && !StrLess(time, c.start) && StrLess(time, c.end)
  }

  predicate Matches(r: RawReservation, date: string, time: string) {
    Covers(Normalize(r), date, time)
  }

  /** The interval is half-open: its start slot is inside exactly when the
      interval is non-empty, and its end slot is never inside. */
  lemma HalfOpen(c: Span, date: string)
    ensures Covers(c, date, c.start) <==> c.date == date && StrLess(c.start, c.end)
    ensures !Covers(c, date, c.end)
  {
    StrLessIrreflexive(c.start);
    StrLessIrreflexive(c.end);
  }

  /** On well-formed "HH:mm" labels the string test is the clock test
      start <= time < end. */
  lemma CoversIsClockInterval(c: Span, date: string, time: string)
    requires IsClockText(c.start) && IsClockText(c.end) && IsClockText(time)
    requires MinuteOf(c.start) < 60 && MinuteOf(c.end) < 60 && MinuteOf(time) < 60
    ensures Covers(c, date, time)
        <==> c.date == date && MinutesOf(c.start) <= MinutesOf(time) < MinutesOf(c.end)
  {
    ClockOrder(time, c.start);
    ClockOrder(time, c.end);
  }

  /** Index of the first record, in list order, whose interval holds the
      slot on that day (`Array.prototype.find`). */
  function FindIndex(rs: seq<RawReservation>, date: string, time: string): (r: Option<nat>)
    ensures r.Some? ==> r.value < |rs| && Matches(rs[r.value], date, time)
    ensures r.Some? ==> forall k :: 0 <= k < r.value ==> !Matches(rs[k], date, time)
    ensures r.None? <==> forall k :: 0 <= k < |rs| ==> !Matches(rs[k], date, time)
  {
    FirstIndex(rs, r => Matches(r, date, time))
  }

  /** findReservation: the first matching record, or none. */
  function FindReservation(rs: seq<RawReservation>, date: string, time: string): Option<RawReservation> {
    match FindIndex(rs, date, time)
    case None => None
    case Some(i) => Some(rs[i])
  }

  // ---------------------------------------------------------------------
  // Days and weeks
  // ---------------------------------------------------------------------

  datatype TimeSlot = TimeSlot(time: string, reserved: bool, eventName: Option<string>)

  datatype DaySchedule = DaySchedule(
    date: int,
    dateString: string,
    dayName: string,
    isToday: bool,
    slots: seq<TimeSlot>)

  /** generateDaySlots: one slot per grid label, in grid order, reserved
      exactly when some record covers it, and then named after the first
      covering record in list order. */
  function DaySlots(rs: seq<RawReservation>, grid: seq<string>, date: string): (slots: seq<TimeSlot>)
    ensures |slots| == |grid|
    ensures forall i :: 0 <= i < |grid| ==> slots[i].time == grid[i]
    ensures forall i :: 0 <= i < |grid| ==>
      (slots[i].reserved <==> exists j :: 0 <= j < |rs| && Matches(rs[j], date, grid[i]))
    ensures forall i :: 0 <= i < |grid| && !slots[i].reserved ==> slots[i].eventName == None
    ensures forall i :: 0 <= i < |grid| && slots[i].reserved ==>
      FindIndex(rs, date, grid[i]).Some? && slots[i].eventName == rs[FindIndex(rs, date, grid[i]).value].eventName
  {
    seq(|grid|, i requires 0 <= i < |grid| => SlotAt(rs, date, grid[i]))
  }

  function SlotAt(rs: seq<RawReservation>, date: string, time: string): (slot: TimeSlot)
    ensures slot.time == time
    ensures slot.reserved <==> exists j :: 0 <= j < |rs| && Matches(rs[j], date, time)
    ensures !slot.reserved ==> slot.eventName == None
    ensures slot.reserved ==> FindIndex(rs, date, time).Some? && slot.eventName == rs[FindIndex(rs, date, time).value].eventName
  {
    var found := FindReservation(rs, date, time);
    TimeSlot(time, found.Some?, if found.Some? then found.value.eventName else None)
  }

  const DayNames := ["Sun", "Mon", "Tue", "Wed", "Thu", "Fri", "Sat"]
  const MonthNames := ["Jan", "Feb", "Mar", "Apr", "May", "Jun", "Jul", "Aug", "Sep", "Oct", "Nov", "Dec"]

  /** getDayName: the short English name of the day's weekday. */
  function DayName(n: int): (name: string)
    ensures name in DayNames
  {
    DayNames[Weekday(n)]
  }

  /** Day names cycle Sun, Mon, ... Sat: the day after `n` has the next name
      round the week, and 1970-01-01 (day 0) is a Thursday. */
  lemma DayNameNext(n: int)
    ensures DayName(n + 1) == DayNames[(Weekday(n) + 1) % 7]
    ensures DayName(n + 7) == DayName(n)
    ensures DayName(0) == "Thu"
  {
    WeekdayShift(n, 1);
    WeekdayShift(n, 7);
  }

  /** getMonthName */
  function MonthName(n: int): string {
    MonthNames[FromDayNumber(n).month - 1]
  }

  /** generateWeekSchedule: seven consecutive days from `weekStart`, the
      i-th being day `weekStart + i`. */
  function BuildWeek(rs: seq<RawReservation>, grid: seq<string>, weekStart: int, today: int): (week: seq<DaySchedule>)
    ensures |week| == 7
    ensures forall i :: 0 <= i < 7 ==> week[i] == DayOf(rs, grid, weekStart + i, today)
  {
    seq(7, i => DayOf(rs, grid, weekStart + i, today))
  }

  /** One day of the week: its date text, its slots over that text, and
      the today mark exactly on the current day. */
  function DayOf(rs: seq<RawReservation>, grid: seq<string>, n: int, today: int): (d: DaySchedule)
    ensures d.date == n && d.dateString == FormatDate(d.date)
    ensures d.slots == DaySlots(rs, grid, d.dateString)
    ensures d.isToday <==> n == today
    ensures d.dayName == DayName(n)
  {
    var dateString := FormatDate(n);
    DaySchedule(n, dateString, DayName(n), n == today, DaySlots(rs, grid, dateString))
  }

  /** setCurrentWeek: the Monday on or before `today` (a Sunday goes back six days). */
  function MondayOnOrBefore(today: int): (monday: int)
    ensures Weekday(monday) == 1
    ensures monday <= today < monday + 7
    ensures today - monday == (Weekday(today) + 6) % 7
  {
    var dow := Weekday(today);
    today - dow + (if dow == 0 then -6 else 1)
  }

  /** A week anchored on the current Monday is labelled Mon, Tue, ... Sun. */
  lemma WeekDayNames(rs: seq<RawReservation>, grid: seq<string>, today: int)
    ensures var w := BuildWeek(rs, grid, MondayOnOrBefore(today), today);
      && (forall i :: 0 <= i < 7 ==> w[i].dayName == DayNames[(i + 1) % 7])
      && w[0].dayName == "Mon" && w[6].dayName == "Sun"
  {
    var m := MondayOnOrBefore(today);
    var w := BuildWeek(rs, grid, m, today);
    forall i | 0 <= i < 7
      ensures w[i].dayName == DayNames[(i + 1) % 7]
    {
      WeekdayShift(m, i);
    }
  }

  /** A week's days carry pairwise distinct date strings. */
  lemma WeekDatesDistinct(rs: seq<RawReservation>, grid: seq<string>, weekStart: int, today: int)
    ensures forall i, j :: 0 <= i < j < 7 ==>
      BuildWeek(rs, grid, weekStart, today)[i].dateString != BuildWeek(rs, grid, weekStart, today)[j].dateString
  {
    DistinctDays(BuildWeek(rs, grid, weekStart, today), weekStart);
  }

  lemma DistinctDays(w: seq<DaySchedule>, weekStart: int)
    requires |w| == 7
    requires forall k :: 0 <= k < 7 ==> w[k].date == weekStart + k
    requires forall k :: 0 <= k < 7 ==> w[k].dateString == FormatDate(w[k].date)
    ensures forall i, j :: 0 <= i < j < 7 ==> w[i].dateString != w[j].dateString
  {
    forall i, j | 0 <= i < j < 7
      ensures w[i].dateString != w[j].dateString
    {
      TextsDiffer(w[i].dateString, w[j].dateString, w[i].date, w[j].date);
    }
  }

  lemma TextsDiffer(x: string, y: string, a: int, b: int)
    requires a != b && x == FormatDate(a) && y == FormatDate(b)
    ensures x != y
  {
    if x == y {
      FormatDateInjective(a, b);
    }
  }

  /** So a record occupies a given slot on at most one day of the week. */
  lemma ReservationOnOneDay(rs: seq<RawReservation>, grid: seq<string>, weekStart: int, today: int,
                            r: RawReservation, time: string, i: int, j: int)
    requires 0 <= i < 7 && 0 <= j < 7
    requires Matches(r, BuildWeek(rs, grid, weekStart, today)[i].dateString, time)
    requires Matches(r, BuildWeek(rs, grid, weekStart, today)[j].dateString, time)
    ensures i == j
  {
    WeekDatesDistinct(rs, grid, weekStart, today);
  }

  /** A week shows a "today" exactly when it contains today, and then on
      exactly one day. */
  lemma ExactlyOneToday(rs: seq<RawReservation>, grid: seq<string>, weekStart: int, today: int)
    ensures (exists i :: 0 <= i < 7 && BuildWeek(rs, grid, weekStart, today)[i].isToday)
        <==> weekStart <= today < weekStart + 7
    ensures forall i, j ::
      (0 <= i < 7 && 0 <= j < 7
       && BuildWeek(rs, grid, weekStart, today)[i].isToday
       && BuildWeek(rs, grid, weekStart, today)[j].isToday)
      ==> i == j
  {
    var w := BuildWeek(rs, grid, weekStart, today);
    if weekStart <= today < weekStart + 7 {
      assert w[today - weekStart].isToday;
    }
  }

  // ---------------------------------------------------------------------
  // The component
  // ---------------------------------------------------------------------

  /** The component's state: its inputs (`reservations`, `startHour`,
      `endHour`) and what it derives from them. */
  datatype CalendarView = CalendarView(
    reservations: seq<RawReservation>,
    startHour: int,
    endHour: int,
    weekStart: int,
    weekSchedule: seq<DaySchedule>,
    timeSlots: seq<string>)

  /** Input defaults: 7 AM to 10 PM. */
  const DefaultStartHour := 7
  const DefaultEndHour := 22

  /** generateTimeSlots: one "HH:00" label per hour from `startHour` to
      `endHour` inclusive; for two-digit hours the labels rise strictly and
      each denotes its hour. Nothing else in the view changes. */
  function GenerateTimeSlots(v: CalendarView): (v': CalendarView)
    ensures v'.(timeSlots := v.timeSlots) == v
    ensures |v'.timeSlots| == if v.startHour <= v.endHour then v.endHour - v.startHour + 1 else 0
    ensures 0 <= v.startHour && v.endHour <= 99 ==>
      forall i :: 0 <= i < |v'.timeSlots| ==> DenotesHour(v'.timeSlots[i], v.startHour + i)
    ensures 0 <= v.startHour && v.endHour <= 99 ==>
      forall i, j :: 0 <= i < j < |v'.timeSlots| ==> StrLess(v'.timeSlots[i], v'.timeSlots[j])
  {
    var grid := HourGrid(v.startHour, v.endHour);
    assert 0 <= v.startHour && v.endHour <= 99 ==>
      (forall i :: 0 <= i < |grid| ==> DenotesHour(grid[i], v.startHour + i))
      && (forall i, j :: 0 <= i < j < |grid| ==> StrLess(grid[i], grid[j])) by {
      if 0 <= v.startHour && v.endHour <= 99 {
        HourGridLabels(v.startHour, v.endHour);
      }
    }
    v.(timeSlots := grid)
  }

  /** Hours 9 to 17 give the nine labels "09:00" to "17:00". */
  lemma NineToFiveSlots(v: CalendarView)
    requires v.startHour == 9 && v.endHour == 17
    ensures var ts := GenerateTimeSlots(v).timeSlots;
      |ts| == 9 && ts[0] == "09:00" && ts[8] == "17:00"
  {
    var ts := GenerateTimeSlots(v).timeSlots;
    HourLabelOnly(ts[0], 9);
    HourLabelOnly(ts[8], 17);
    HourLabelText(9);
    HourLabelText(17);
  }

  /** setCurrentWeek */
  function SetCurrentWeek(v: CalendarView, today: int): CalendarView {
    v.(weekStart := MondayOnOrBefore(today))
  }

  /** generateWeekSchedule */
  function GenerateWeekSchedule(v: CalendarView, today: int): CalendarView {
    v.(weekSchedule := BuildWeek(v.reservations, v.timeSlots, v.weekStart, today))
  }

  /** ngOnInit: build the grid, anchor on this week, build the week. */
  function Init(v: CalendarView, today: int): CalendarView {
    GenerateWeekSchedule(SetCurrentWeek(GenerateTimeSlots(v), today), today)
  }

  /** ngOnChanges for the `reservations` input: the new list is stored and
      the week is rebuilt unless this is the first binding. */
  function ReservationsChanged(v: CalendarView, rs: seq<RawReservation>, firstChange: bool, today: int): CalendarView {
    var v' := v.(reservations := rs);
    if firstChange then v' else GenerateWeekSchedule(v', today)
  }

  /** previousWeek */
  function PreviousWeek(v: CalendarView, today: int): CalendarView {
    GenerateWeekSchedule(v.(weekStart := v.weekStart - 7), today)
  }

  /** nextWeek */
  function NextWeek(v: CalendarView, today: int): CalendarView {
    GenerateWeekSchedule(v.(weekStart := v.weekStart + 7), today)
  }

  /** goToToday */
  function GoToToday(v: CalendarView, today: int): CalendarView {
    GenerateWeekSchedule(SetCurrentWeek(v, today), today)
  }

  /** A new reservations list is shown at once, over the same week and
      grid, except on the first binding, which ngOnInit builds instead. */
  lemma ChangedReservationsShown(v: CalendarView, rs: seq<RawReservation>, today: int)
    ensures var w := ReservationsChanged(v, rs, false, today);
      && w.reservations == rs && w.weekStart == v.weekStart
      && w.weekSchedule == BuildWeek(rs, v.timeSlots, v.weekStart, today)
    ensures ReservationsChanged(v, rs, true, today) == v.(reservations := rs)
  {
  }

  /** After initialisation, or after jumping back to today, the view shows
      the Monday-anchored week containing today, with today marked on
      exactly one day: the one at its weekday's position from Monday. */
  lemma ShowsCurrentWeek(v: CalendarView, today: int)
    ensures var w := Init(v, today);
      && Weekday(w.weekStart) == 1
      && |w.weekSchedule| == 7
      && w.weekSchedule[(Weekday(today) + 6) % 7].isToday
      && (forall i :: 0 <= i < 7 && w.weekSchedule[i].isToday ==> i == (Weekday(today) + 6) % 7)
      && w.timeSlots == HourGrid(v.startHour, v.endHour)
    ensures var g := GoToToday(v, today);
      && Weekday(g.weekStart) == 1
      && g.weekSchedule[(Weekday(today) + 6) % 7].isToday
      && (forall i :: 0 <= i < 7 && g.weekSchedule[i].isToday ==> i == (Weekday(today) + 6) % 7)
  {
  }

  /** Moving a week forward and back (or back and forward) returns to the
      same anchor and the same schedule; either move keeps the anchor on a
      Monday and shifts it by exactly seven days. */
  lemma WeekNavigationInverse(v: CalendarView, today: int)
    ensures NextWeek(v, today).weekStart == v.weekStart + 7
    ensures PreviousWeek(v, today).weekStart == v.weekStart - 7
    ensures PreviousWeek(NextWeek(v, today), today) == GenerateWeekSchedule(v, today)
    ensures NextWeek(PreviousWeek(v, today), today) == GenerateWeekSchedule(v, today)
    ensures Weekday(NextWeek(v, today).weekStart) == Weekday(v.weekStart)
    ensures Weekday(PreviousWeek(v, today).weekStart) == Weekday(v.weekStart)
  {
    var n := NextWeek(v, today);
    var p := PreviousWeek(v, today);
    assert n.(weekStart := n.weekStart - 7).(weekSchedule := v.weekSchedule) == v;
    RebuildIgnoresOldSchedule(n.(weekStart := n.weekStart - 7), v, today);
    assert p.(weekStart := p.weekStart + 7).(weekSchedule := v.weekSchedule) == v;
    RebuildIgnoresOldSchedule(p.(weekStart := p.weekStart + 7), v, today);
    assert (v.weekStart + 7 + 4) % 7 == (v.weekStart + 4) % 7;
    assert (v.weekStart - 7 + 4) % 7 == (v.weekStart + 4) % 7;
  }

  /** Rebuilding the week depends on nothing but the inputs, the grid and
      the anchor. */
  lemma RebuildIgnoresOldSchedule(a: CalendarView, b: CalendarView, today: int)
    requires a.(weekSchedule := b.weekSchedule) == b
    ensures GenerateWeekSchedule(a, today) == GenerateWeekSchedule(b, today)
  {
  }

  /** getWeekRange: "Dec 2 - 8, 2024" or "Dec 30 - Jan 5, 2025"; empty
      before a week has been built. */
  function WeekRange(v: CalendarView): string {
    if |v.weekSchedule| < 7 then ""
    else
      var start := v.weekSchedule[0].date;
      var end := v.weekSchedule[6].date;
      var startMonth := MonthName(start);
      var endMonth := MonthName(end);
      var startDay := DecimalString(FromDayNumber(start).day);
      var endDay := DecimalString(FromDayNumber(end).day);
      var year := DecimalString(FromDayNumber(end).year);
      if startMonth == endMonth then startMonth + " " + startDay + " - " + endDay + ", " + year
      else startMonth + " " + startDay + " - " + endMonth + " " + endDay + ", " + year
  }

  /** Inside one month the last day of a week is the first day plus six. */
  lemma SameMonthWeek(n: int)
    requires FromDayNumber(n).month == FromDayNumber(n + 6).month
    ensures FromDayNumber(n + 6).year == FromDayNumber(n).year
    ensures FromDayNumber(n + 6).day == FromDayNumber(n).day + 6
  {
    SameMonthDates(FromDayNumber(n), FromDayNumber(n + 6));
  }

  /** Two valid dates six days apart in the same month lie in the same year. */
  lemma SameMonthDates(a: Date, b: Date)
    requires Valid(a) && Valid(b) && a.month == b.month
    requires DayNumber(b) == DayNumber(a) + 6
    ensures b.year == a.year && b.day == a.day + 6
  {
    DayNumberInYear(a);
    DayNumberInYear(b);
    if a.year < b.year {
      YearStartMonotone(a.year, b.year);
      YearStartStep(a.year);
      DaysBeforeMonthStep(a.year, a.month);
      DaysBeforeMonthStep(b.year, b.month);
      assert false;
    } else if b.year < a.year {
      YearStartMonotone(b.year, a.year);
      assert false;
    }
  }

  lemma MonthNamesDistinct(m1: int, m2: int)
    requires 1 <= m1 <= 12 && 1 <= m2 <= 12
    requires MonthNames[m1 - 1] == MonthNames[m2 - 1]
    ensures m1 == m2
  {
  }

  /** For a built week that stays inside one month the range reads
      "<month> <first day> - <first day + 6>, <year>". */
  lemma WeekRangeWithinMonth(v: CalendarView)
    requires |v.weekSchedule| == 7
    requires v.weekSchedule[6].date == v.weekSchedule[0].date + 6
    requires FromDayNumber(v.weekSchedule[0].date).month == FromDayNumber(v.weekSchedule[6].date).month
    ensures var first := FromDayNumber(v.weekSchedule[0].date);
      WeekRange(v) == MonthName(v.weekSchedule[0].date) + " " + DecimalString(first.day)
        + " - " + DecimalString(first.day + 6) + ", " + DecimalString(first.year)
  {
    SameMonthWeek(v.weekSchedule[0].date);
  }

  /** A week that crosses into another month names both months. */
  lemma WeekRangeAcrossMonths(v: CalendarView)
    requires |v.weekSchedule| == 7
    requires FromDayNumber(v.weekSchedule[0].date).month != FromDayNumber(v.weekSchedule[6].date).month
    ensures var start := v.weekSchedule[0].date;
      var end := v.weekSchedule[6].date;
      WeekRange(v) == MonthName(start) + " " + DecimalString(FromDayNumber(start).day)
        + " - " + MonthName(end) + " " + DecimalString(FromDayNumber(end).day)
        + ", " + DecimalString(FromDayNumber(end).year)
  {
    var a := FromDayNumber(v.weekSchedule[0].date);
    var b := FromDayNumber(v.weekSchedule[6].date);
    if MonthName(v.weekSchedule[0].date) == MonthName(v.weekSchedule[6].date) {
      MonthNamesDistinct(a.month, b.month);
    }
  }

  /** getSlotTooltip */
  function SlotTooltip(slot: TimeSlot): string {
    if slot.reserved && Truthy(slot.eventName) then "Reserved: " + slot.eventName.value
    else if slot.reserved then "Reserved"
    else "Available"
  }

  /** What the tooltip of a day's slot says about the records: "Available"
      exactly when no record covers the slot, otherwise "Reserved", followed
      by the first covering record's event name when it has one. */
  lemma TooltipOfDaySlot(rs: seq<RawReservation>, grid: seq<string>, date: string, i: int)
    requires 0 <= i < |grid|
    ensures var tip := SlotTooltip(DaySlots(rs, grid, date)[i]);
      && (tip == "Available" <==> forall j :: 0 <= j < |rs| ==> !Matches(rs[j], date, grid[i]))
      && ((FindIndex(rs, date, grid[i]).Some? && Truthy(rs[FindIndex(rs, date, grid[i]).value].eventName))
          ==> tip == "Reserved: " + rs[FindIndex(rs, date, grid[i]).value].eventName.value)
      && ((FindIndex(rs, date, grid[i]).Some? && !Truthy(rs[FindIndex(rs, date, grid[i]).value].eventName))
          ==> tip == "Reserved")
  {
    var s := DaySlots(rs, grid, date)[i];
    var f := FindIndex(rs, date, grid[i]);
    if f.Some? {
      assert s.reserved;
      assert "Reserved: " + s.eventName.GetOr("") != "Available" by {
        assert ("Reserved: " + s.eventName.GetOr(""))[0] == 'R';
      }
    }
  }
}
