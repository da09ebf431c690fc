/** The spaces list page: the loaded spaces, the local filters by type and
    capacity, the server-side availability search by date and time, the
    sorted list of space types, and deletion. Each handler is a pure
    transition that returns the new page state and the effects it starts. */
module SpaceList {
  import opened Wrappers
  import opened Text
  import opened Clock
  import opened Sequences
  import opened SortedStrings
  import opened Ui

  /** A space as the API returns it. */
  datatype Space = Space(
    id: int,
    name: string,
    spaceType: string,
    capacity: int,
    description: Option<string>,
    pricePerHour: Option<real>)

  /** The filter form: an empty string or an absent number means "no criterion". */
  datatype Filters = Filters(
    spaceType: string,
    minCapacity: Option<int>,
    maxCapacity: Option<int>,
    date: string,
    startTime: string,
    endTime: string)

  const NoFilters := Filters("", None, None, "", "", "")

  datatype Page = Page(
    spaces: seq<Space>,
    filteredSpaces: seq<Space>,
    loading: bool,
    isAdmin: bool,
    filters: Filters,
    uniqueTypes: seq<string>,
    allTimeOptions: seq<string>)

  /** The state before ngOnInit. */
  const Initial := Page([], [], true, false, NoFilters, [], [])

  /** Calls into the API service. */
  datatype Request =
    | FetchSpaces(date: Option<string>, startTime: Option<string>, endTime: Option<string>)
    | RemoveSpace(id: int)

  /** A handler's outcome: the new state, the requests it sends, the
      confirmation prompts it shows, the toasts and the navigation. */
  datatype Step = Step(
    page: Page,
    requests: seq<Request>,
    prompts: seq<string>,
    toasts: seq<Toast>,
    navigation: seq<Navigation>)

  function Quiet(p: Page): Step {
    Step(p, [], [], [], [])
  }

  /** No space before position `k` has the id. */
  predicate FirstWithId(spaces: seq<Space>, id: int, k: int)
    requires 0 <= k <= |spaces|
  {
    forall j :: 0 <= j < k ==> spaces[j].id != id
  }

  /** `spaces.find(s => s.id === id)`: the first space with that id, if any. */
  function FindSpace(spaces: seq<Space>, id: int): (r: Option<Space>)
    ensures r.None? <==> forall i :: 0 <= i < |spaces| ==> spaces[i].id != id
    ensures r.Some? ==> r.value.id == id
    ensures r.Some? ==> exists k :: 0 <= k < |spaces| && spaces[k] == r.value && FirstWithId(spaces, id, k)
  {
    if |spaces| == 0 then None
    else if spaces[0].id == id then Some(spaces[0])
    else
      var r := FindSpace(spaces[1..], id);
      assert forall i :: 0 < i < |spaces| ==> spaces[i] == spaces[1..][i - 1];
      if r.Some? then
        var k :| 0 <= k < |spaces[1..]| && spaces[1..][k] == r.value && FirstWithId(spaces[1..], id, k);
        assert spaces[k + 1] == r.value && FirstWithId(spaces, id, k + 1);
        r
      else r
  }

  // ---------------------------------------------------------------------
  // Local filtering
  // ---------------------------------------------------------------------

  /** The three local criteria: same type when a type is chosen, capacity at
      least the minimum and at most the maximum when those are set. */
  predicate Passes(f: Filters, s: Space) {
    && (f.spaceType == "" || s.spaceType == f.spaceType)
    && (f.minCapacity.None? || s.capacity >= f.minCapacity.value)
    && (f.maxCapacity.None? || s.capacity <= f.maxCapacity.value)
  }

  /** The spaces that pass the local criteria, in the order loaded. */
  function ApplyLocalFilters(spaces: seq<Space>, f: Filters): (r: seq<Space>)
    ensures IsSubsequence(r, spaces)
    ensures forall i :: 0 <= i < |r| ==> Passes(f, r[i])
  {
    Filter(spaces, s => Passes(f, s))
  }

  /** No passing space is dropped: each occurs in the result as often as it
      was loaded. */
  lemma LocalFiltersKeepEveryMatch(spaces: seq<Space>, f: Filters)
    ensures forall s :: Passes(f, s) ==> multiset(ApplyLocalFilters(spaces, f))[s] == multiset(spaces)[s]
  {
    FilterCounts(spaces, s => Passes(f, s));
  }

  /** With no type and no capacity bounds every loaded space is shown. */
  lemma NoCriteriaShowsAll(spaces: seq<Space>, f: Filters)
    requires f.spaceType == "" && f.minCapacity.None? && f.maxCapacity.None?
    ensures ApplyLocalFilters(spaces, f) == spaces
  {
    FilterKeepAll(spaces, s => Passes(f, s));
  }

  /** The three spaces the page's unit tests load. */
  const Fixture := [
    Space(1, "Conference Room A", "meeting_room", 10, Some("Main conference room"), Some(50.0)),
    Space(2, "Auditorium", "auditorium", 100, Some("Large auditorium"), Some(200.0)),
    Space(3, "Open Space", "open_space", 20, Some("Collaborative area"), None)]

  /** Local filtering of the fixture, one space at a time. */
  lemma FixtureFiltered(f: Filters)
    ensures ApplyLocalFilters(Fixture, f) ==
      (if Passes(f, Fixture[0]) then [Fixture[0]] else [])
      + (if Passes(f, Fixture[1]) then [Fixture[1]] else [])
      + (if Passes(f, Fixture[2]) then [Fixture[2]] else [])
  {
    FilterThree(Fixture[0], Fixture[1], Fixture[2], s => Passes(f, s));
  }

  /** The filter outcomes the unit tests expect on that fixture. */
  lemma FixtureFilters()
    ensures ApplyLocalFilters(Fixture, NoFilters.(spaceType := "auditorium")) == [Fixture[1]]
    ensures ApplyLocalFilters(Fixture, NoFilters.(minCapacity := Some(50))) == [Fixture[1]]
    ensures ApplyLocalFilters(Fixture, NoFilters.(maxCapacity := Some(20))) == [Fixture[0], Fixture[2]]
    ensures ApplyLocalFilters(Fixture, NoFilters.(minCapacity := Some(10), maxCapacity := Some(50))) == [Fixture[0], Fixture[2]]
  {
    FixtureFiltered(NoFilters.(spaceType := "auditorium"));
    FixtureFiltered(NoFilters.(minCapacity := Some(50)));
    FixtureFiltered(NoFilters.(maxCapacity := Some(20)));
    FixtureFiltered(NoFilters.(minCapacity := Some(10), maxCapacity := Some(50)));
  }

  // ---------------------------------------------------------------------
  // Space types
  // ---------------------------------------------------------------------

  function Types(spaces: seq<Space>): (ts: seq<string>)
    ensures |ts| == |spaces|
    ensures forall i :: 0 <= i < |spaces| ==> ts[i] == spaces[i].spaceType
  {
    seq(|spaces|, i requires 0 <= i < |spaces| => spaces[i].spaceType)
  }

  /** Each type that occurs among the spaces, once, in ascending string order. */
  function ExtractUniqueTypes(spaces: seq<Space>): (r: seq<string>)
    ensures StrictlySorted(r)
    ensures forall t :: t in r <==> exists i :: 0 <= i < |spaces| && spaces[i].spaceType == t
  {
    var ts := Types(spaces);
    var r := SortedDistinct(ts);
    assert forall t :: t in ts <==> exists i :: 0 <= i < |spaces| && spaces[i].spaceType == t by {
      forall t | t in ts
        ensures exists i :: 0 <= i < |spaces| && spaces[i].spaceType == t
      {
        var i :| 0 <= i < |ts| && ts[i] == t;
        assert spaces[i].spaceType == t;
      }
    }
    r
  }

  /** The type list depends only on which types occur: any strictly sorted
      list of exactly those types is the one the page shows. */
  lemma UniqueTypesCanonical(spaces: seq<Space>, other: seq<string>)
    requires StrictlySorted(other)
    requires forall t :: t in other <==> exists i :: 0 <= i < |spaces| && spaces[i].spaceType == t
    ensures ExtractUniqueTypes(spaces) == other
  {
    SortedUnique(ExtractUniqueTypes(spaces), other);
  }

  /** Reordering or repeating spaces does not change the type list. */
  lemma UniqueTypesIgnoreOrder(a: seq<Space>, b: seq<Space>)
    requires forall s :: s in a <==> s in b
    ensures ExtractUniqueTypes(a) == ExtractUniqueTypes(b)
  {
    var ra := ExtractUniqueTypes(a);
    forall t
      ensures t in ra <==> exists i :: 0 <= i < |b| && b[i].spaceType == t
    {
      if t in ra {
        var i :| 0 <= i < |a| && a[i].spaceType == t;
        assert a[i] in b;
      }
      if exists i :: 0 <= i < |b| && b[i].spaceType == t {
        var i :| 0 <= i < |b| && b[i].spaceType == t;
        assert b[i] in a;
      }
    }
    UniqueTypesCanonical(b, ra);
  }

  /** The fixture's types come out as the three distinct names in order. */
  lemma FixtureTypes()
    ensures ExtractUniqueTypes(Fixture) == ["auditorium", "meeting_room", "open_space"]
  {
    var want := ["auditorium", "meeting_room", "open_space"];
    assert StrLess(want[0], want[1]) && StrLess(want[1], want[2]) && StrLess(want[0], want[2]);
    assert Fixture[0].spaceType == want[1] && Fixture[1].spaceType == want[0] && Fixture[2].spaceType == want[2];
    UniqueTypesCanonical(Fixture, want);
  }

  // ---------------------------------------------------------------------
  // Time options
  // ---------------------------------------------------------------------

  /** Appends the 24 whole-hour labels of the day to the time options. */
  function GenerateAllTimeOptions(p: Page): (r: Page)
    ensures |r.allTimeOptions| == |p.allTimeOptions| + 24
    ensures r.allTimeOptions[..|p.allTimeOptions|] == p.allTimeOptions
    ensures forall i :: |p.allTimeOptions| <= i < |r.allTimeOptions| ==>
      DenotesHour(r.allTimeOptions[i], i - |p.allTimeOptions|)
    ensures r == p.(allTimeOptions := r.allTimeOptions)
  {
    HourGridLabels(0, 23);
    p.(allTimeOptions := p.allTimeOptions + HourGrid(0, 23))
  }

  /** After initialisation the options run "00:00", "01:00", ... "23:00", in
      ascending order. */
  lemma TimeOptionsAfterInit(isAdmin: bool)
    ensures var opts := NgOnInit(isAdmin).page.allTimeOptions;
      && |opts| == 24
      && opts[0] == "00:00" && opts[9] == "09:00" && opts[23] == "23:00"
      && (forall i :: 0 <= i < 24 ==> DenotesHour(opts[i], i))
      && forall i, j :: 0 <= i < j < 24 ==> StrLess(opts[i], opts[j])
  {
    HourGridLabels(0, 23);
    var opts := NgOnInit(isAdmin).page.allTimeOptions;
    HourLabelOnly(opts[0], 0);
    HourLabelOnly(opts[9], 9);
    HourLabelOnly(opts[23], 23);
    HourLabelText(0);
    HourLabelText(9);
    HourLabelText(23);
  }

  // ---------------------------------------------------------------------
  // Loading
  // ---------------------------------------------------------------------

  /** loadSpaces: marks the page as loading and asks for the spaces,
      restricted to those free in the window when one is given. */
  function LoadSpaces(p: Page, date: Option<string>, startTime: Option<string>, endTime: Option<string>): (r: Step)
    ensures r.page == p.(loading := true)
    ensures r.requests == [FetchSpaces(date, startTime, endTime)]
    ensures r.prompts == [] && r.toasts == [] && r.navigation == []
  {
    Step(p.(loading := true), [FetchSpaces(date, startTime, endTime)], [], [], [])
  }

  /** The spaces arrived: they are stored, filtered with the current
      filters, their types listed, and loading ends. */
  function SpacesLoaded(p: Page, data: seq<Space>): (r: Page)
    ensures r.spaces == data && !r.loading
    ensures forall i :: 0 <= i < |r.filteredSpaces| ==> Passes(p.filters, r.filteredSpaces[i])
    ensures IsSubsequence(r.filteredSpaces, data)
    ensures forall s :: Passes(p.filters, s) ==> multiset(r.filteredSpaces)[s] == multiset(data)[s]
    ensures r.filteredSpaces == ApplyLocalFilters(data, p.filters)
    ensures StrictlySorted(r.uniqueTypes)
    ensures forall t :: t in r.uniqueTypes <==> exists i :: 0 <= i < |data| && data[i].spaceType == t
    ensures r.uniqueTypes == ExtractUniqueTypes(data)
    ensures r.filters == p.filters && r.isAdmin == p.isAdmin && r.allTimeOptions == p.allTimeOptions
  {
    LocalFiltersKeepEveryMatch(data, p.filters);
    p.(spaces := data,
       filteredSpaces := ApplyLocalFilters(data, p.filters),
       uniqueTypes := ExtractUniqueTypes(data),
       loading := false)
  }

  /** The request failed: loading ends and everything else is kept. */
  function SpacesLoadFailed(p: Page): (r: Page)
    ensures !r.loading
    ensures r.(loading := p.loading) == p
  {
    p.(loading := false)
  }

  /** ngOnInit: records whether the user is an administrator, builds the
      time options and loads every space. */
  function NgOnInit(isAdmin: bool): (r: Step)
    ensures r.page.isAdmin == isAdmin && r.page.loading
    ensures r.page.filters == NoFilters
    ensures |r.page.allTimeOptions| == 24
    ensures r.page.spaces == [] && r.page.filteredSpaces == [] && r.page.uniqueTypes == []
    ensures r.requests == [FetchSpaces(None, None, None)]
    ensures r.prompts == [] && r.toasts == [] && r.navigation == []
  {
    LoadSpaces(GenerateAllTimeOptions(Initial.(isAdmin := isAdmin)), None, None, None)
  }

  // ---------------------------------------------------------------------
  // Filters
  // ---------------------------------------------------------------------

  /** True when date, start and end are all filled in, so availability has
      to be asked of the server. */
  predicate AvailabilitySearch(f: Filters) {
    f.date != "" && f.startTime != "" && f.endTime != ""
  }

  /** applyFilters: a full date/time window goes to the server; otherwise
      the loaded spaces are filtered locally, without any request. */
  function ApplyFilters(p: Page): (r: Step)
    ensures AvailabilitySearch(p.filters) ==>
      && r.requests == [FetchSpaces(Some(p.filters.date), Some(p.filters.startTime), Some(p.filters.endTime))]
      && r.page == p.(loading := true)
    ensures !AvailabilitySearch(p.filters) ==>
      && r.requests == []
      && r.page.filteredSpaces == ApplyLocalFilters(p.spaces, p.filters)
      && r.page.(filteredSpaces := p.filteredSpaces) == p
    ensures r.toasts == [] && r.navigation == [] && r.prompts == []
  {
    if AvailabilitySearch(p.filters) then
      LoadSpaces(p, Some(p.filters.date), Some(p.filters.startTime), Some(p.filters.endTime))
    else
      Quiet(p.(filteredSpaces := ApplyLocalFilters(p.spaces, p.filters)))
  }

  /** Filtering locally a second time changes nothing. */
  lemma ApplyFiltersLocalIdempotent(p: Page)
    requires !AvailabilitySearch(p.filters)
    ensures ApplyFilters(ApplyFilters(p).page) == ApplyFilters(p)
  {
  }

  /** clearFilters: every criterion is reset and all spaces are reloaded
      without a window. */
  function ClearFilters(p: Page): (r: Step)
    ensures r.page.filters == NoFilters && r.page.loading
    ensures r.requests == [FetchSpaces(None, None, None)]
    ensures r.page.spaces == p.spaces
    ensures r.page == p.(filters := NoFilters, loading := true)
    ensures r.prompts == [] && r.toasts == [] && r.navigation == []
  {
    LoadSpaces(p.(filters := NoFilters), None, None, None)
  }

  /** After clearing the filters, whatever the server returns is shown in
      full. */
  lemma ClearThenLoadShowsAll(p: Page, data: seq<Space>)
    ensures SpacesLoaded(ClearFilters(p).page, data).filteredSpaces == data
  {
    NoCriteriaShowsAll(data, NoFilters);
  }

  /** Loading the three fixture spaces on a fresh page shows all three, with
      loading ended. */
  lemma FixtureLoadShowsAll(isAdmin: bool)
    ensures var q := SpacesLoaded(NgOnInit(isAdmin).page, Fixture);
      && !q.loading && q.spaces == Fixture && |q.filteredSpaces| == 3
  {
    NoCriteriaShowsAll(Fixture, NoFilters);
  }

  // ---------------------------------------------------------------------
  // Navigation and deletion
  // ---------------------------------------------------------------------

  /** createReservation: opens the reservation form for this space. */
  function CreateReservation(p: Page, spaceId: int): (r: Step)
    ensures r.page == p && r.requests == [] && r.toasts == [] && r.prompts == []
    ensures r.navigation == [Navigation("/reservations/create", Some(spaceId))]
  {
    Step(p, [], [], [], [Navigation("/reservations/create", Some(spaceId))])
  }

  function DeletePrompt(spaceName: string): string {
    "Are you sure you want to delete the space \"" + spaceName + "\"? This action cannot be undone."
  }

  function DeletedMessage(spaceName: string): string {
    "Space \"" + spaceName + "\" has been deleted successfully"
  }

  const DeleteFailedMessage := "Failed to delete space. Please try again."
  const DeleteFailedTitle := "Delete Failed"

  /** deleteSpace: asks for confirmation; only a confirmed deletion sends
      the request, and the page itself is untouched until the answer. */
  function DeleteSpace(p: Page, spaceId: int, spaceName: string, confirmed: bool): (r: Step)
    ensures r.page == p && r.toasts == [] && r.navigation == []
    ensures r.prompts == [DeletePrompt(spaceName)]
    ensures r.requests == (if confirmed then [RemoveSpace(spaceId)] else [])
  {
    Step(p, if confirmed then [RemoveSpace(spaceId)] else [], [DeletePrompt(spaceName)], [], [])
  }

  /** The deletion succeeded: a success toast naming the space, then a full
      reload. */
  function SpaceDeleted(p: Page, spaceName: string): (r: Step)
    ensures r.toasts == [Toast(Success, DeletedMessage(spaceName), DefaultSuccessTitle)]
    ensures r.requests == [FetchSpaces(None, None, None)]
    ensures r.page == p.(loading := true)
    ensures r.prompts == [] && r.navigation == []
  {
    LoadSpaces(p, None, None, None).(toasts := [Toast(Success, DeletedMessage(spaceName), DefaultSuccessTitle)])
  }

  /** The deletion failed: an error toast with the server's message, or the
      generic one; the page is unchanged and nothing is reloaded. */
  function SpaceDeleteFailed(p: Page, e: HttpError): (r: Step)
    ensures r.page == p && r.requests == [] && r.prompts == [] && r.navigation == []
    ensures |r.toasts| == 1 && r.toasts[0].severity == Error && r.toasts[0].title == DeleteFailedTitle
    ensures Truthy(ErrorMessage(e)) ==> r.toasts[0].message == ErrorMessage(e).value
    ensures !Truthy(ErrorMessage(e)) ==> r.toasts[0].message == DeleteFailedMessage
  {
    Step(p, [], [], [Toast(Error, OrElse(ErrorMessage(e), DeleteFailedMessage), DeleteFailedTitle)], [])
  }
}
