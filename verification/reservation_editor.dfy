/** The reservation form page (ManageReservationComponent), in create mode
    (opened for a space) and edit mode (opened for a reservation). It
    offers the whole hours 07:00 to 22:00, shows one "occupied" range
    spanning the other reservations of the chosen day, builds the payload
    sent to the API, and turns API errors into messages. Parsed instants
    are given to the model: the day number and minute of `new Date(...)`
    in a zone with no offset. */
module ReservationEditor {
  import opened Wrappers
  import opened Text
  import opened Clock
  import opened CivilDate
  import opened Sequences
  import opened Ui
  import SpaceList
  import Calendar

  type MinuteOfDay = m: int | 0 <= m < 1440

  /** An instant: the day and the minute of that day. */
  datatype Stamp = Stamp(day: int, minute: MinuteOfDay)

  /** `getTime()`, counted in minutes. */
  function Instant(s: Stamp): int {
    s.day * 1440 + s.minute
  }

  /** A reservation as the API returns it to this page. */
  datatype Booking = Booking(id: int, spaceId: int, eventName: string, start: Stamp, end: Stamp)

  datatype TimeRange = TimeRange(start: string, end: string)

  /** The form fields bound to the inputs. */
  datatype Form = Form(spaceId: int, date: string, startTime: string, endTime: string, purpose: string)

  /** The body sent to create or update a reservation. */
  datatype Payload = Payload(spaceId: string, eventName: string, startTime: string, endTime: string)

  datatype Editor = Editor(
    mode: Mode,
    spaceId: Option<int>,
    space: Option<SpaceList.Space>,
    reservationId: Option<int>,
    loading: bool,
    error: Option<string>,
    reservations: seq<Booking>,
    allReservationsForSpace: seq<Calendar.RawReservation>,
    loadingReservations: bool,
    showCalendar: bool,
    occupiedTimeRanges: seq<TimeRange>,
    allTimeOptions: seq<string>,
    availableStartTimes: seq<string>,
    availableEndTimes: seq<string>,
    reservation: Form)

  /** The state before ngOnInit. */
  const Initial := Editor(Create, None, None, None, true, None, [], [], false, false, [], [], [], [],
                          Form(0, "", "", "", ""))

  /** Calls into the API service. `FetchSpaces` carries the id of the space
      its response handler looks for. */
  datatype Request =
    | FetchReservation(id: int)
    | FetchSpaces(forSpace: int)
    | FetchAllReservationsBySpace(spaceId: int)
    | FetchReservationsBySpace(spaceId: int, date: string)
    | SaveNew(payload: Payload)
    | SaveExisting(id: int, payload: Payload)

  datatype Step = Step(editor: Editor, requests: seq<Request>, toasts: seq<Toast>, navigation: seq<Navigation>)

  function Quiet(e: Editor): Step {
    Step(e, [], [], [])
  }

  // ---------------------------------------------------------------------
  // Time options
  // ---------------------------------------------------------------------

  const FirstHour := 7
  const LastHour := 22

  /** Appends the hours 07:00 to 22:00 to the options and offers all of
      them in both pickers. */
  function GenerateAllTimeOptions(e: Editor): (r: Editor)
    ensures |r.allTimeOptions| == |e.allTimeOptions| + 16
    ensures r.allTimeOptions[..|e.allTimeOptions|] == e.allTimeOptions
    ensures forall i :: |e.allTimeOptions| <= i < |r.allTimeOptions| ==>
      DenotesHour(r.allTimeOptions[i], FirstHour + i - |e.allTimeOptions|)
    ensures r.availableStartTimes == r.allTimeOptions && r.availableEndTimes == r.allTimeOptions
    ensures r.(allTimeOptions := e.allTimeOptions, availableStartTimes := e.availableStartTimes,
               availableEndTimes := e.availableEndTimes) == e
  {
    HourGridLabels(FirstHour, LastHour);
    var opts := e.allTimeOptions + HourGrid(FirstHour, LastHour);
    e.(allTimeOptions := opts, availableStartTimes := opts, availableEndTimes := opts)
  }

  /** `${getHours() padded}:${getMinutes() padded}`: the clock label of an
      instant, which reads back as that minute of the day. */
  function FormatTime(s: Stamp): (t: string)
    ensures IsClockText(t) && MinuteOf(t) < 60
    ensures MinutesOf(t) == s.minute
  {
    var h, m := s.minute / 60, s.minute % 60;
    ClockOfParts(h, m);
    FormatClock(h, m)
  }

  // ---------------------------------------------------------------------
  // Reservations of the chosen day
  // ---------------------------------------------------------------------

  /** A fetched reservation is listed when it starts on the chosen date and,
      in edit mode, is not the one being edited. */
  predicate Listed(b: Booking, date: string, mode: Mode, reservationId: Option<int>) {
    FormatDate(b.start.day) == date && (mode == Edit ==> Some(b.id) != reservationId)
  }

  function ForDate(bs: seq<Booking>, date: string, mode: Mode, reservationId: Option<int>): (r: seq<Booking>)
    ensures IsSubsequence(r, bs)
    ensures forall i :: 0 <= i < |r| ==> Listed(r[i], date, mode, reservationId)
  {
    Filter(bs, b => Listed(b, date, mode, reservationId))
  }

  /** Every fetched reservation that qualifies is listed, and all listed
      reservations start on one and the same day. */
  lemma ForDateComplete(bs: seq<Booking>, date: string, mode: Mode, reservationId: Option<int>)
    ensures forall b :: Listed(b, date, mode, reservationId) ==>
      multiset(ForDate(bs, date, mode, reservationId))[b] == multiset(bs)[b]
    ensures var r := ForDate(bs, date, mode, reservationId);
      forall i, j :: 0 <= i < |r| && 0 <= j < |r| ==> r[i].start.day == r[j].start.day
  {
    FilterCounts(bs, b => Listed(b, date, mode, reservationId));
    var r := ForDate(bs, date, mode, reservationId);
    forall i, j | 0 <= i < |r| && 0 <= j < |r|
      ensures r[i].start.day == r[j].start.day
    {
      FormatDateInjective(r[i].start.day, r[j].start.day);
    }
  }

  /** Every start and end instant of the reservations. */
  function Endpoints(bs: seq<Booking>): (r: seq<Stamp>)
    ensures |r| == 2 * |bs|
    ensures forall i :: 0 <= i < |bs| ==> bs[i].start in r && bs[i].end in r
    ensures forall s :: s in r ==> exists i :: 0 <= i < |bs| && (s == bs[i].start || s == bs[i].end)
  {
    if |bs| == 0 then []
    else
      var rest := Endpoints(bs[1..]);
      assert forall i :: 0 < i < |bs| ==> bs[i] == bs[1..][i - 1];
      [bs[0].start, bs[0].end] + rest
  }

  /** `Math.min` over the instants. */
  function Earliest(ss: seq<Stamp>): (m: Stamp)
    requires |ss| > 0
    ensures m in ss
    ensures forall s :: s in ss ==> Instant(m) <= Instant(s)
  {
    if |ss| == 1 then ss[0]
    else
      var m := Earliest(ss[1..]);
      assert forall s :: s in ss ==> s == ss[0] || s in ss[1..];
      if Instant(ss[0]) <= Instant(m) then ss[0] else m
  }

  /** `Math.max` over the instants. */
  function Latest(ss: seq<Stamp>): (m: Stamp)
    requires |ss| > 0
    ensures m in ss
    ensures forall s :: s in ss ==> Instant(s) <= Instant(m)
  {
    if |ss| == 1 then ss[0]
    else
      var m := Latest(ss[1..]);
      assert forall s :: s in ss ==> s == ss[0] || s in ss[1..];
      if Instant(m) <= Instant(ss[0]) then ss[0] else m
  }

  /** The single occupied range: from the clock time of the earliest
      endpoint to the clock time of the latest one. Both labels are times of
      actual reservation endpoints. */
  function OccupiedRange(bs: seq<Booking>): (r: TimeRange)
    requires |bs| > 0
    ensures IsClockText(r.start) && IsClockText(r.end)
    ensures exists i :: 0 <= i < |bs| && (r.start == FormatTime(bs[i].start) || r.start == FormatTime(bs[i].end))
    ensures exists i :: 0 <= i < |bs| && (r.end == FormatTime(bs[i].start) || r.end == FormatTime(bs[i].end))
    ensures exists lo :: lo in Endpoints(bs) && r.start == FormatTime(lo) && NoLaterThanAny(lo, bs)
    ensures exists hi :: hi in Endpoints(bs) && r.end == FormatTime(hi) && NoEarlierThanAny(hi, bs)
  {
    var ends := Endpoints(bs);
    var lo, hi := Earliest(ends), Latest(ends);
    assert NoLaterThanAny(lo, bs);
    assert NoEarlierThanAny(hi, bs);
    TimeRange(FormatTime(lo), FormatTime(hi))
  }

  /** `s` is no later than any start or end of the reservations. */
  predicate NoLaterThanAny(s: Stamp, bs: seq<Booking>) {
    forall i :: 0 <= i < |bs| ==> Instant(s) <= Instant(bs[i].start) && Instant(s) <= Instant(bs[i].end)
  }

  /** `s` is no earlier than any start or end of the reservations. */
  predicate NoEarlierThanAny(s: Stamp, bs: seq<Booking>) {
    forall i :: 0 <= i < |bs| ==> Instant(bs[i].start) <= Instant(s) && Instant(bs[i].end) <= Instant(s)
  }

  /** When every reservation starts and ends on the same day the range is
      in clock order and covers each reservation's times, compared as the
      page compares them, as strings. */
  lemma OccupiedRangeSameDay(bs: seq<Booking>, day: int)
    requires |bs| > 0
    requires forall i :: 0 <= i < |bs| ==> bs[i].start.day == day && bs[i].end.day == day
    ensures var r := OccupiedRange(bs);
      && !StrLess(r.end, r.start)
      && forall i :: 0 <= i < |bs| ==>
        && !StrLess(FormatTime(bs[i].start), r.start)
        && !StrLess(r.end, FormatTime(bs[i].end))
  {
    var ends := Endpoints(bs);
    var lo := Earliest(ends);
    var hi := Latest(ends);
    var r := OccupiedRange(bs);
    assert lo.day == day && hi.day == day;
    assert Instant(lo) <= Instant(hi);
    ClockOrder(r.end, r.start);
    forall i | 0 <= i < |bs|
      ensures !StrLess(FormatTime(bs[i].start), r.start) && !StrLess(r.end, FormatTime(bs[i].end))
    {
      assert Instant(lo) <= Instant(bs[i].start) && Instant(bs[i].end) <= Instant(hi);
      ClockOrder(FormatTime(bs[i].start), r.start);
      ClockOrder(r.end, FormatTime(bs[i].end));
    }
  }

  /** A reservation running past midnight yields a range whose end label
      comes before its start label: 22:00 to 01:00 the next day is shown as
      the range "22:00".."01:00". */
  lemma OvernightRangeInverted(day: int)
    ensures var r := OccupiedRange([Booking(1, 1, "", Stamp(day, 22 * 60), Stamp(day + 1, 60))]);
      StrLess(r.end, r.start)
  {
    var b := Booking(1, 1, "", Stamp(day, 22 * 60), Stamp(day + 1, 60));
    var ends := Endpoints([b]);
    assert ends == [b.start, b.end];
    assert Earliest(ends[1..]) == b.end;
    assert Latest(ends[1..]) == b.end;
    var r := OccupiedRange([b]);
    assert r == TimeRange(FormatTime(b.start), FormatTime(b.end));
    ClockOrder(r.end, r.start);
  }

  /** calculateOccupiedTimeRanges: no range without reservations, otherwise
      exactly one; the pickers always offer every option. */
  function CalculateOccupiedTimeRanges(e: Editor): (r: Editor)
    ensures |e.reservations| == 0 ==> r.occupiedTimeRanges == []
    ensures |e.reservations| > 0 ==> r.occupiedTimeRanges == [OccupiedRange(e.reservations)]
    ensures r.availableStartTimes == e.allTimeOptions && r.availableEndTimes == e.allTimeOptions
    ensures r.(occupiedTimeRanges := e.occupiedTimeRanges,
               availableStartTimes := e.availableStartTimes,
               availableEndTimes := e.availableEndTimes) == e
  {
    var ranges := if |e.reservations| == 0 then [] else [OccupiedRange(e.reservations)];
    e.(occupiedTimeRanges := ranges,
       availableStartTimes := e.allTimeOptions,
       availableEndTimes := e.allTimeOptions)
  }

  /** loadReservationsByDate: asks for the space's reservations on the
      chosen date when both a space and a date are set. */
  function LoadReservationsByDate(e: Editor): (r: Step)
    ensures r.editor == e && r.toasts == [] && r.navigation == []
    ensures e.reservation.spaceId != 0 && e.reservation.date != "" <==> r.requests != []
    ensures r.requests != [] ==>
      r.requests == [FetchReservationsBySpace(e.reservation.spaceId, e.reservation.date)]
  {
    if e.reservation.spaceId == 0 || e.reservation.date == "" then Quiet(e)
    else Step(e, [FetchReservationsBySpace(e.reservation.spaceId, e.reservation.date)], [], [])
  }

  /** onDateChange: its guard is the one loadReservationsByDate applies
      again, so it is exactly that handler. */
  function OnDateChange(e: Editor): (r: Step)
    ensures r == LoadReservationsByDate(e)
  {
    if e.reservation.date != "" && e.reservation.spaceId != 0 then LoadReservationsByDate(e) else Quiet(e)
  }

  /** The day's reservations arrived: the listed ones are kept and the
      occupied range recomputed. */
  function ReservationsByDateLoaded(e: Editor, bs: seq<Booking>): (r: Editor)
    ensures r.reservations == ForDate(bs, e.reservation.date, e.mode, e.reservationId)
    ensures (r.occupiedTimeRanges == []) <==> (r.reservations == [])
    ensures r.reservations != [] ==> r.occupiedTimeRanges == [OccupiedRange(r.reservations)]
    ensures r.availableStartTimes == e.allTimeOptions && r.availableEndTimes == e.allTimeOptions
    ensures r.reservation == e.reservation && r.allTimeOptions == e.allTimeOptions
    ensures r.(reservations := e.reservations, occupiedTimeRanges := e.occupiedTimeRanges,
               availableStartTimes := e.availableStartTimes, availableEndTimes := e.availableEndTimes) == e
  {
    CalculateOccupiedTimeRanges(e.(reservations := ForDate(bs, e.reservation.date, e.mode, e.reservationId)))
  }

  /** The request failed: no reservations, no range, every option offered. */
  function ReservationsByDateFailed(e: Editor): (r: Editor)
    ensures r.reservations == [] && r.occupiedTimeRanges == []
    ensures r.availableStartTimes == e.allTimeOptions && r.availableEndTimes == e.allTimeOptions
    ensures r.reservation == e.reservation && r.allTimeOptions == e.allTimeOptions
    ensures r.(reservations := e.reservations, occupiedTimeRanges := e.occupiedTimeRanges,
               availableStartTimes := e.availableStartTimes, availableEndTimes := e.availableEndTimes) == e
  {
    e.(reservations := [], occupiedTimeRanges := [],
       availableStartTimes := e.allTimeOptions, availableEndTimes := e.allTimeOptions)
  }

  // ---------------------------------------------------------------------
  // Loading the space and the reservation
  // ---------------------------------------------------------------------

  function LoadSpace(e: Editor, id: int): (r: Step)
    ensures r == Step(e, [FetchSpaces(id)], [], [])
  {
    Step(e, [FetchSpaces(id)], [], [])
  }

  /** The spaces arrived: the one with the id is shown (none if it is
      missing), loading ends, and all of the space's reservations are
      requested for the calendar. */
  function SpaceLoaded(e: Editor, id: int, spaces: seq<SpaceList.Space>): (r: Step)
    ensures r.editor.space == SpaceList.FindSpace(spaces, id)
    ensures !r.editor.loading && r.editor.loadingReservations
    ensures r.requests == [FetchAllReservationsBySpace(id)]
    ensures r.editor.reservation == e.reservation
    ensures r.editor.(space := e.space, loading := e.loading, loadingReservations := e.loadingReservations) == e
    ensures r.toasts == [] && r.navigation == []
  {
    Step(e.(space := SpaceList.FindSpace(spaces, id), loading := false, loadingReservations := true),
         [FetchAllReservationsBySpace(id)], [], [])
  }

  function SpaceLoadFailed(e: Editor): (r: Editor)
    ensures !r.loading && r.(loading := e.loading) == e
  {
    e.(loading := false)
  }

  function AllReservationsLoaded(e: Editor, rs: seq<Calendar.RawReservation>): (r: Editor)
    ensures r.allReservationsForSpace == rs && !r.loadingReservations
    ensures r.(allReservationsForSpace := e.allReservationsForSpace, loadingReservations := e.loadingReservations) == e
  {
    e.(allReservationsForSpace := rs, loadingReservations := false)
  }

  function AllReservationsFailed(e: Editor): (r: Editor)
    ensures r.allReservationsForSpace == [] && !r.loadingReservations
    ensures r.(allReservationsForSpace := e.allReservationsForSpace, loadingReservations := e.loadingReservations) == e
  {
    e.(allReservationsForSpace := [], loadingReservations := false)
  }

  function LoadReservation(e: Editor, id: int): (r: Step)
    ensures r == Step(e, [FetchReservation(id)], [], [])
  {
    Step(e, [FetchReservation(id)], [], [])
  }

  /** The form as filled from a stored reservation. */
  function FormOf(b: Booking): (f: Form)
    ensures f.spaceId == b.spaceId && f.purpose == b.eventName
    ensures IsDateText(f.date) && ParseDate(f.date) == FromDayNumber(b.start.day) && 'T' !in f.date
    ensures IsClockText(f.startTime) && MinutesOf(f.startTime) == b.start.minute
    ensures IsClockText(f.endTime) && MinutesOf(f.endTime) == b.end.minute
  {
    FormatDateInverse(b.start.day);
    FormatDateHasNoT(b.start.day);
    Form(b.spaceId, FormatDate(b.start.day), FormatTime(b.start), FormatTime(b.end), b.eventName)
  }

  /** Fills the form, then requests the space and, when the form names a
      space and a date, the other reservations of that date. */
  function FillForm(e: Editor, f: Form): (r: Step)
    requires f.date != ""
    ensures r.editor == e.(reservation := f)
    ensures f.spaceId != 0 ==> r.requests == [FetchSpaces(f.spaceId), FetchReservationsBySpace(f.spaceId, f.date)]
    ensures f.spaceId == 0 ==> r.requests == [FetchSpaces(f.spaceId)]
  {
    var e1 := e.(reservation := f);
    Step(e1, LoadSpace(e1, f.spaceId).requests + LoadReservationsByDate(e1).requests, [], [])
  }

  /** The reservation arrived: the form is filled from it, its space is
      requested, and so are the other reservations of its date when it has
      a non-zero space id. */
  function ReservationLoaded(e: Editor, b: Booking): (r: Step)
    ensures r.editor == e.(reservation := FormOf(b))
    ensures b.spaceId != 0 ==> r.requests == [FetchSpaces(b.spaceId), FetchReservationsBySpace(b.spaceId, r.editor.reservation.date)]
    ensures b.spaceId == 0 ==> r.requests == [FetchSpaces(b.spaceId)]
  {
    var f := FormOf(b);
    FillForm(e, f)
  }

  const LoadReservationError := "Error loading reservation"

  function ReservationLoadFailed(e: Editor): (r: Editor)
    ensures r.error == Some(LoadReservationError) && !r.loading
    ensures r.(error := e.error, loading := e.loading) == e
  {
    e.(error := Some(LoadReservationError), loading := false)
  }

  // ---------------------------------------------------------------------
  // Initialisation
  // ---------------------------------------------------------------------

  /** ngOnInit. `idParam` is the `:id` route parameter and `spaceIdParam`
      the `spaceId` query parameter, each present when its text is
      non-empty, as the number that text denotes. The route parameter is
      read first, so the query parameter only opens create mode when no
      truthy reservation id was set. */
  function NgOnInit(idParam: Option<int>, spaceIdParam: Option<int>): (r: Step)
    ensures r.editor.allTimeOptions == HourGrid(FirstHour, LastHour)
    ensures r.editor.availableStartTimes == HourGrid(FirstHour, LastHour)
    ensures r.editor.availableEndTimes == HourGrid(FirstHour, LastHour)
    ensures TruthyInt(idParam) ==>
      && r.editor.mode == Edit && r.editor.reservationId == idParam && r.editor.loading
      && r.requests == [FetchReservation(idParam.value)]
    ensures idParam.None? && spaceIdParam.Some? ==>
      && r.editor.mode == Create && r.editor.spaceId == spaceIdParam
      && r.editor.reservation.spaceId == spaceIdParam.value && r.editor.loading
      && r.requests == [FetchSpaces(spaceIdParam.value)]
    ensures idParam.None? && spaceIdParam.None? ==>
      && r.editor.mode == Create && !r.editor.loading && r.requests == []
    ensures r.toasts == [] && r.navigation == []
  {
    var e0 := GenerateAllTimeOptions(Initial);
    var s1 := if idParam.Some? then LoadReservation(e0.(mode := Edit, reservationId := idParam), idParam.value)
              else Quiet(e0);
    var e1 := s1.editor;
    if spaceIdParam.Some? && !TruthyInt(e1.reservationId) then
      var e2 := e1.(mode := Create, spaceId := spaceIdParam,
                    reservation := e1.reservation.(spaceId := spaceIdParam.value));
      Step(e2, s1.requests + LoadSpace(e2, spaceIdParam.value).requests, [], [])
    else if !TruthyInt(e1.reservationId) && spaceIdParam.None? then
      Step(e1.(loading := false), s1.requests, [], [])
    else s1
  }

  /** A route id whose text is "0" is present but numerically falsy: the
      reservation is still fetched, yet a `spaceId` query parameter then
      switches the page to create mode as well, and without one the page
      stays in edit mode but stops showing the loading state. */
  lemma ZeroIdStillLoads(spaceIdParam: Option<int>)
    ensures var r := NgOnInit(Some(0), spaceIdParam);
      && r.requests[0] == FetchReservation(0)
      && (spaceIdParam.Some? ==>
           r.editor.mode == Create && r.requests == [FetchReservation(0), FetchSpaces(spaceIdParam.value)])
      && (spaceIdParam.None? ==> r.editor.mode == Edit && !r.editor.loading && |r.requests| == 1)
  {
  }

  /** The pickers offer 07:00, 08:00, ... 22:00, in increasing order. */
  lemma InitialTimeOptions(idParam: Option<int>, spaceIdParam: Option<int>)
    ensures var opts := NgOnInit(idParam, spaceIdParam).editor.availableStartTimes;
      && |opts| == 16
      && opts[0] == "07:00" && opts[15] == "22:00"
      && (forall i :: 0 <= i < 16 ==> DenotesHour(opts[i], FirstHour + i))
      && forall i, j :: 0 <= i < j < 16 ==> StrLess(opts[i], opts[j])
  {
    HourGridLabels(FirstHour, LastHour);
    var opts := NgOnInit(idParam, spaceIdParam).editor.availableStartTimes;
    HourLabelOnly(opts[0], 7);
    HourLabelOnly(opts[15], 22);
    HourLabelText(7);
    HourLabelText(22);
  }

  // ---------------------------------------------------------------------
  // Submitting
  // ---------------------------------------------------------------------

  /** The payload: the space id as text, the purpose as event name, and the
      chosen date joined by 'T' to each chosen time. */
  function MakePayload(f: Form): (p: Payload)
    ensures IsDecimal(p.spaceId) && ParseDecimal(p.spaceId) == f.spaceId
    ensures p.eventName == f.purpose
    ensures p.startTime == f.date + "T" + f.startTime && p.endTime == f.date + "T" + f.endTime
    ensures 'T' !in f.date && 'T' !in f.startTime ==> Split(p.startTime, 'T') == [f.date, f.startTime]
    ensures 'T' !in f.date && 'T' !in f.endTime ==> Split(p.endTime, 'T') == [f.date, f.endTime]
    ensures 'T' !in f.date && 'T' !in f.startTime ==>
      Calendar.DatePart(p.startTime) == f.date && Calendar.TimePart(p.startTime) == Prefix(f.startTime, 5)
    ensures 'T' !in f.date && 'T' !in f.endTime ==>
      Calendar.DatePart(p.endTime) == f.date && Calendar.TimePart(p.endTime) == Prefix(f.endTime, 5)
  {
    DecimalStringInverse(f.spaceId);
    JoinedReadsBack(f.date, f.startTime);
    JoinedReadsBack(f.date, f.endTime);
    Payload(DecimalString(f.spaceId), f.purpose, f.date + "T" + f.startTime, f.date + "T" + f.endTime)
  }

  /** `${date}T${time}` with neither part holding a 'T' splits back into
      the two parts, and the calendar reads the date and the cut time. */
  lemma JoinedReadsBack(date: string, time: string)
    ensures 'T' !in date && 'T' !in time ==>
      && Split(date + "T" + time, 'T') == [date, time]
      && Calendar.DatePart(date + "T" + time) == date
      && Calendar.TimePart(date + "T" + time) == Prefix(time, 5)
  {
    if 'T' !in date && 'T' !in time {
      SplitAtFirst(date, 'T', time);
      SplitNoSeparator(time, 'T');
      Calendar.DatePartOf(date, time);
      Calendar.TimePartOf(date, time);
    }
  }

  /** The record the calendar receives for a saved payload. */
  function AsCalendarRecord(p: Payload): Calendar.RawReservation {
    Calendar.RawReservation(None, Some(p.startTime), Some(p.endTime), Some(p.eventName))
  }

  /** What the form saves is what the calendar reads back: the chosen date
      and the chosen times cut to "HH:mm". */
  lemma PayloadReadsBack(f: Form)
    requires 'T' !in f.date && 'T' !in f.startTime && 'T' !in f.endTime
    ensures Calendar.Normalize(AsCalendarRecord(MakePayload(f)))
         == Calendar.Span(f.date, Prefix(f.startTime, 5), Prefix(f.endTime, 5))
  {
    Calendar.NormalizeTimestamps(f.date, f.startTime, f.date, f.endTime, Some(f.purpose));
  }

  /** A clock label is its own first five characters. */
  lemma ClockPrefix(t: string)
    requires IsClockText(t)
    ensures Prefix(t, 5) == t && 'T' !in t
  {
    assert t[..5] == t;
    ClockTextHasNoT(t);
  }

  /** Editing a reservation and saving it unchanged stores the start's date
      and the start and end clock times the calendar reads back. The end is
      sent on the start's date, so a reservation that ran past midnight is
      saved ending on the day it starts. */
  lemma EditRoundTrip(e: Editor, b: Booking)
    ensures var f := ReservationLoaded(e, b).editor.reservation;
      var c := Calendar.Normalize(AsCalendarRecord(MakePayload(f)));
      && IsDateText(c.date) && ParseDate(c.date) == FromDayNumber(b.start.day)
      && IsClockText(c.start) && MinutesOf(c.start) == b.start.minute
      && IsClockText(c.end) && MinutesOf(c.end) == b.end.minute
      && Calendar.DatePart(MakePayload(f).endTime) == c.date
  {
    var f := FormOf(b);
    ClockPrefix(f.startTime);
    ClockPrefix(f.endTime);
    PayloadReadsBack(f);
  }

  /** A saved reservation occupies, in the calendar, exactly the grid hours
      from its start up to but excluding its end, on its date. */
  lemma SavedReservationOccupies(f: Form, slot: string)
    requires IsClockText(f.startTime) && IsClockText(f.endTime) && IsClockText(slot)
    requires MinuteOf(f.startTime) < 60 && MinuteOf(f.endTime) < 60 && MinuteOf(slot) < 60
    requires 'T' !in f.date
    ensures Calendar.Matches(AsCalendarRecord(MakePayload(f)), f.date, slot)
        <==> MinutesOf(f.startTime) <= MinutesOf(slot) < MinutesOf(f.endTime)
  {
    ClockPrefix(f.startTime);
    ClockPrefix(f.endTime);
    PayloadReadsBack(f);
    var c := Calendar.Normalize(AsCalendarRecord(MakePayload(f)));
    assert c == Calendar.Span(f.date, f.startTime, f.endTime);
    ClockOrder(slot, f.startTime);
    ClockOrder(slot, f.endTime);
  }

  /** onSubmit: create mode always sends the payload; edit mode sends it
      only for a truthy reservation id and otherwise does nothing. */
  function OnSubmit(e: Editor): (r: Step)
    ensures r.editor == e && r.toasts == [] && r.navigation == []
    ensures e.mode == Create ==> r.requests == [SaveNew(MakePayload(e.reservation))]
    ensures e.mode == Edit && TruthyInt(e.reservationId) ==>
      r.requests == [SaveExisting(e.reservationId.value, MakePayload(e.reservation))]
    ensures e.mode == Edit && !TruthyInt(e.reservationId) ==> r.requests == []
  {
    var p := MakePayload(e.reservation);
    if e.mode == Create then Step(e, [SaveNew(p)], [], [])
    else if !TruthyInt(e.reservationId) then Quiet(e)
    else Step(e, [SaveExisting(e.reservationId.value, p)], [], [])
  }

  const CreatedMessage := "Reservation created successfully!"
  const UpdatedMessage := "Reservation updated successfully!"
  const InvalidReservation := "Invalid reservation"
  const GenericErrorToast := "Something went wrong. Please try again."
  const GenericError := "Something went wrong"

  /** A save succeeded: a success toast, then the reservations list. */
  function Saved(e: Editor, created: bool): (r: Step)
    ensures r.editor == e && r.requests == []
    ensures r.toasts == [Toast(Success, if created then CreatedMessage else UpdatedMessage, DefaultSuccessTitle)]
    ensures r.navigation == [NavigateTo("/reservations")]
  {
    Step(e, [], [Toast(Success, if created then CreatedMessage else UpdatedMessage, DefaultSuccessTitle)],
         [NavigateTo("/reservations")])
  }

  /** A save failed (both the create and the update handler). A 422 shows
      the server's message, or "Invalid reservation", both as a toast and as
      the page error. Any other status shows a fixed toast and a shorter
      fixed page error. A 422 without a body makes the handler throw while
      reading the message, before it changes anything. */
  function SaveFailed(e: Editor, err: HttpError): (r: Step)
    ensures r.requests == [] && r.navigation == []
    ensures err.status == 422 && err.body.Some? ==>
      && r.toasts == [Toast(Error, OrElse(err.body.value.message, InvalidReservation), DefaultErrorTitle)]
      && r.editor == e.(error := Some(r.toasts[0].message))
    ensures err.status == 422 && err.body.None? ==> r == Quiet(e)
    ensures err.status != 422 ==>
      && r.toasts == [Toast(Error, GenericErrorToast, DefaultErrorTitle)]
      && r.editor == e.(error := Some(GenericError))
  {
    if err.status == 422 then
      match err.body
      case None => Quiet(e)
      case Some(body) =>
        var message := OrElse(body.message, InvalidReservation);
        Step(e.(error := Some(message)), [], [Toast(Error, message, DefaultErrorTitle)], [])
    else
      Step(e.(error := Some(GenericError)), [], [Toast(Error, GenericErrorToast, DefaultErrorTitle)], [])
  }

  // ---------------------------------------------------------------------
  // Other controls
  // ---------------------------------------------------------------------

  /** cancel: back to the spaces in create mode, to the reservations in
      edit mode. */
  function Cancel(e: Editor): (r: Step)
    ensures r.editor == e && r.requests == []
    ensures r.navigation == [NavigateTo(if e.mode == Create then "/spaces" else "/reservations")]
  {
    Step(e, [], [], [NavigateTo(if e.mode == Create then "/spaces" else "/reservations")])
  }

  function ToggleCalendar(e: Editor): (r: Editor)
    ensures r.showCalendar != e.showCalendar
    ensures r.(showCalendar := e.showCalendar) == e
  {
    e.(showCalendar := !e.showCalendar)
  }
}
