/** The space form page (ManageSpaceComponent): create a space, or load an
    existing one into the form and update it. Submitting validates the
    form, builds a payload without empty optional fields, and maps the
    server's answer to toasts, field errors and navigation. */
module SpaceEditor {
  import opened Wrappers
  import opened Text
  import opened Ui
  import SpaceList

  /** The form fields bound to the inputs. */
  datatype SpaceForm = SpaceForm(
    name: string,
    description: string,
    spaceType: string,
    capacity: Option<int>,
    pricePerHour: Option<real>)

  const EmptyForm := SpaceForm("", "", "", None, None)

  /** The body sent to create or update a space; an absent optional field
      is left out of the JSON. */
  datatype SpacePayload = SpacePayload(
    name: string,
    spaceType: string,
    capacity: int,
    description: Option<string>,
    pricePerHour: Option<real>)

  datatype Editor = Editor(
    mode: Mode,
    spaceId: Option<int>,
    space: SpaceForm,
    errors: map<string, string>,
    loading: bool,
    loadingSpace: bool)

  /** The state before ngOnInit. */
  const Initial := Editor(Create, None, EmptyForm, map[], false, true)

  /** Calls into the API service. `FetchSpaces` carries the id of the space
      its response handler looks for. */
  datatype Request =
    | FetchSpaces(forSpace: int)
    | SaveNew(payload: SpacePayload)
    | SaveExisting(id: int, payload: SpacePayload)

  datatype Step = Step(editor: Editor, requests: seq<Request>, toasts: seq<Toast>, navigation: seq<Navigation>)

  function Quiet(e: Editor): Step {
    Step(e, [], [], [])
  }

  // ---------------------------------------------------------------------
  // Loading
  // ---------------------------------------------------------------------

  /** ngOnInit: a truthy-text `:id` route parameter (given here as the
      number it denotes) opens edit mode and loads that space; without one
      the page is in create mode and has nothing to load. */
  function NgOnInit(idParam: Option<int>): (r: Step)
    ensures idParam.Some? ==>
      && r.editor.mode == Edit && r.editor.spaceId == idParam && r.editor.loadingSpace
      && r.requests == [FetchSpaces(idParam.value)]
    ensures idParam.None? ==>
      && r.editor.mode == Create && !r.editor.loadingSpace && r.requests == []
    ensures r.editor.space == EmptyForm && !r.editor.loading
    ensures r.toasts == [] && r.navigation == []
  {
    match idParam
    case Some(id) => LoadSpace(Initial.(mode := Edit, spaceId := idParam), id)
    case None => Quiet(Initial.(mode := Create, loadingSpace := false))
  }

  function LoadSpace(e: Editor, id: int): (r: Step)
    ensures r == Step(e.(loadingSpace := true), [FetchSpaces(id)], [], [])
  {
    Step(e.(loadingSpace := true), [FetchSpaces(id)], [], [])
  }

  /** The form as filled from a stored space: missing or falsy values
      become an empty text or an absent number; a capacity or price of 0
      counts as absent. */
  function FormFromSpace(s: SpaceList.Space): (f: SpaceForm)
    ensures f.name == s.name && f.spaceType == s.spaceType
    ensures f.description == OrElse(s.description, "")
    ensures f.capacity.Some? <==> s.capacity != 0
    ensures f.capacity.Some? ==> f.capacity.value == s.capacity
    ensures f.pricePerHour.Some? <==> s.pricePerHour.Some? && s.pricePerHour.value != 0.0
    ensures f.pricePerHour.Some? ==> f.pricePerHour == s.pricePerHour
  {
    SpaceForm(
      s.name,
      OrElse(s.description, ""),
      s.spaceType,
      if s.capacity != 0 then Some(s.capacity) else None,
      if s.pricePerHour.Some? && s.pricePerHour.value != 0.0 then s.pricePerHour else None)
  }

  const NotFoundMessage := "Space not found"
  const LoadFailedMessage := "Failed to load space"

  /** The spaces arrived: the form is filled from the one with the id; when
      there is none, an error toast and a return to the list. Either way
      the loading indicator goes off. */
  function SpacesLoaded(e: Editor, id: int, spaces: seq<SpaceList.Space>): (r: Step)
    ensures !r.editor.loadingSpace && r.requests == []
    ensures SpaceList.FindSpace(spaces, id).Some? ==>
      && r.editor == e.(space := FormFromSpace(SpaceList.FindSpace(spaces, id).value), loadingSpace := false)
      && r.toasts == [] && r.navigation == []
    ensures SpaceList.FindSpace(spaces, id).None? ==>
      && r.editor == e.(loadingSpace := false)
      && r.toasts == [Toast(Error, NotFoundMessage, DefaultErrorTitle)]
      && r.navigation == [NavigateTo("/spaces")]
  {
    match SpaceList.FindSpace(spaces, id)
    case Some(s) => Quiet(e.(space := FormFromSpace(s), loadingSpace := false))
    case None =>
      Step(e.(loadingSpace := false), [], [Toast(Error, NotFoundMessage, DefaultErrorTitle)], [NavigateTo("/spaces")])
  }

  function SpacesLoadFailed(e: Editor): (r: Step)
    ensures r.editor == e.(loadingSpace := false) && r.requests == []
    ensures r.toasts == [Toast(Error, LoadFailedMessage, DefaultErrorTitle)]
    ensures r.navigation == [NavigateTo("/spaces")]
  {
    Step(e.(loadingSpace := false), [], [Toast(Error, LoadFailedMessage, DefaultErrorTitle)], [NavigateTo("/spaces")])
  }

  // ---------------------------------------------------------------------
  // Validation and payload
  // ---------------------------------------------------------------------

  const NameRequired := "Name is required"
  const TypeRequired := "Type is required"
  const CapacityTooSmall := "Capacity must be at least 1"

  /** A capacity is acceptable when it is present and at least 1. */
  predicate CapacityOk(c: Option<int>) {
    c.Some? && c.value >= 1
  }

  /** The field errors of a form, keyed by field. */
  function Validate(f: SpaceForm): (errors: map<string, string>)
    ensures "name" in errors <==> f.name == ""
    ensures "type" in errors <==> f.spaceType == ""
    ensures "capacity" in errors <==> !CapacityOk(f.capacity)
    ensures forall k :: k in errors ==> k == "name" || k == "type" || k == "capacity"
    ensures "name" in errors ==> errors["name"] == NameRequired
    ensures "type" in errors ==> errors["type"] == TypeRequired
    ensures "capacity" in errors ==> errors["capacity"] == CapacityTooSmall
  {
    var e1: map<string, string> := if f.name == "" then map["name" := NameRequired] else map[];
    var e2 := if f.spaceType == "" then e1["type" := TypeRequired] else e1;
    if !TruthyInt(f.capacity) || f.capacity.value < 1 then e2["capacity" := CapacityTooSmall] else e2
  }

  /** The form passes validation exactly when name and type are filled in
      and the capacity is at least 1. */
  lemma ValidExactly(f: SpaceForm)
    ensures |Validate(f)| == 0 <==> f.name != "" && f.spaceType != "" && CapacityOk(f.capacity)
  {
    var errors := Validate(f);
    if f.name == "" {
      assert "name" in errors;
    } else if f.spaceType == "" {
      assert "type" in errors;
    } else if !CapacityOk(f.capacity) {
      assert "capacity" in errors;
    } else {
      assert errors.Keys == {};
    }
  }

  /** The payload: name, type and capacity always; the description only
      when it is non-empty; the price only when it is above zero. */
  function MakePayload(f: SpaceForm): (p: SpacePayload)
    requires f.capacity.Some?
    ensures p.name == f.name && p.spaceType == f.spaceType && p.capacity == f.capacity.value
    ensures p.description.Some? <==> f.description != ""
    ensures p.description.Some? ==> p.description.value == f.description
    ensures p.pricePerHour.Some? <==> f.pricePerHour.Some? && f.pricePerHour.value > 0.0
    ensures p.pricePerHour.Some? ==> p.pricePerHour == f.pricePerHour
  {
    SpacePayload(
      f.name, f.spaceType, f.capacity.value,
      if f.description != "" then Some(f.description) else None,
      if f.pricePerHour.Some? && f.pricePerHour.value > 0.0 then f.pricePerHour else None)
  }

  const FixErrorsMessage := "Please fix the form errors"
  const ValidationErrorTitle := "Validation Error"

  /** onSubmit. An invalid form only records its errors and shows a toast.
      A valid one turns the loading indicator on and is sent: always in
      create mode, and in edit mode only for a truthy space id; an edit
      without one sends nothing and leaves the indicator on. */
  function OnSubmit(e: Editor): (r: Step)
    ensures r.editor.errors == Validate(e.space)
    ensures r.editor.space == e.space && r.editor.mode == e.mode && r.navigation == []
    ensures |Validate(e.space)| > 0 ==>
      && r.editor == e.(errors := Validate(e.space))
      && r.requests == []
      && r.toasts == [Toast(Error, FixErrorsMessage, ValidationErrorTitle)]
    ensures |Validate(e.space)| == 0 ==> r.editor.loading && r.toasts == []
    ensures |Validate(e.space)| == 0 ==> r.editor == e.(errors := map[], loading := true)
    ensures |Validate(e.space)| == 0 && e.mode == Create ==>
      r.requests == [SaveNew(MakePayload(e.space))]
    ensures |Validate(e.space)| == 0 && e.mode == Edit && TruthyInt(e.spaceId) ==>
      r.requests == [SaveExisting(e.spaceId.value, MakePayload(e.space))]
    ensures |Validate(e.space)| == 0 && e.mode == Edit && !TruthyInt(e.spaceId) ==>
      r.requests == []
  {
    var errors := Validate(e.space);
    if |errors| > 0 then
      Step(e.(errors := errors), [], [Toast(Error, FixErrorsMessage, ValidationErrorTitle)], [])
    else
      assert CapacityOk(e.space.capacity);
      var e1 := e.(errors := errors, loading := true);
      var p := MakePayload(e.space);
      if e.mode == Create then Step(e1, [SaveNew(p)], [], [])
      else if !TruthyInt(e.spaceId) then Quiet(e1)
      else Step(e1, [SaveExisting(e.spaceId.value, p)], [], [])
  }

  /** Opening a stored space for editing and submitting it unchanged sends
      back its own fields, with an empty description and a price that is
      not above zero left out; the only field errors are those the stored
      values themselves fail. */
  lemma EditUnchangedResubmits(id: int, spaces: seq<SpaceList.Space>, s: SpaceList.Space)
    requires id != 0
    requires SpaceList.FindSpace(spaces, id) == Some(s)
    ensures var e := SpacesLoaded(NgOnInit(Some(id)).editor, id, spaces).editor;
      var r := OnSubmit(e);
      && ("name" in r.editor.errors <==> s.name == "")
      && ("type" in r.editor.errors <==> s.spaceType == "")
      && ("capacity" in r.editor.errors <==> s.capacity < 1)
      && (s.name != "" && s.spaceType != "" && s.capacity >= 1 ==>
            r.requests == [SaveExisting(id, SpacePayload(
              s.name, s.spaceType, s.capacity,
              if Truthy(s.description) then s.description else None,
              if s.pricePerHour.Some? && s.pricePerHour.value > 0.0 then s.pricePerHour else None))])
  {
    var e := SpacesLoaded(NgOnInit(Some(id)).editor, id, spaces).editor;
    assert e.space == FormFromSpace(s) && e.mode == Edit && e.spaceId == Some(id);
    ValidExactly(e.space);
  }

  // ---------------------------------------------------------------------
  // Server answers
  // ---------------------------------------------------------------------

  function CreatedMessage(name: string): string {
    "Space \"" + name + "\" has been created successfully"
  }

  function UpdatedMessage(name: string): string {
    "Space \"" + name + "\" has been updated successfully"
  }

  /** A save succeeded: a success toast naming the space as it now stands
      in the form, then the spaces list. */
  function Saved(e: Editor, created: bool): (r: Step)
    ensures r.editor == e && r.requests == []
    ensures r.toasts == [Toast(Success, if created then CreatedMessage(e.space.name) else UpdatedMessage(e.space.name), DefaultSuccessTitle)]
    ensures r.navigation == [NavigateTo("/spaces")]
  {
    var message := if created then CreatedMessage(e.space.name) else UpdatedMessage(e.space.name);
    Step(e, [], [Toast(Success, message, DefaultSuccessTitle)], [NavigateTo("/spaces")])
  }

  const CreateFailedMessage := "Failed to create space. Please try again."
  const CreateFailedTitle := "Creation Failed"
  const UpdateFailedMessage := "Failed to update space. Please try again."
  const UpdateFailedTitle := "Update Failed"

  /** `error.error?.errors`: the server's field errors, when it sent any. */
  function ServerFieldErrors(err: HttpError): Option<map<string, string>> {
    if err.body.Some? then err.body.value.errors else None
  }

  /** A save failed: the indicator goes off, the server's field errors (if
      any) replace the form's, and an error toast shows the server's
      message or the fallback. */
  function Failed(e: Editor, err: HttpError, fallback: string, title: string): (r: Step)
    ensures !r.editor.loading && r.requests == [] && r.navigation == []
    ensures ServerFieldErrors(err).Some? ==> r.editor.errors == ServerFieldErrors(err).value
    ensures ServerFieldErrors(err).None? ==> r.editor.errors == e.errors
    ensures r.editor.space == e.space && r.editor.mode == e.mode && r.editor.spaceId == e.spaceId
    ensures r.editor.(errors := e.errors, loading := e.loading) == e
    ensures |r.toasts| == 1 && r.toasts[0].severity == Error && r.toasts[0].title == title
    ensures Truthy(ErrorMessage(err)) ==> r.toasts[0].message == ErrorMessage(err).value
    ensures !Truthy(ErrorMessage(err)) ==> r.toasts[0].message == fallback
  {
    var e1 := e.(loading := false);
    var e2 := match ServerFieldErrors(err) case Some(fields) => e1.(errors := fields) case None => e1;
    Step(e2, [], [Toast(Error, OrElse(ErrorMessage(err), fallback), title)], [])
  }

  /** The create request failed. */
  function CreateFailed(e: Editor, err: HttpError): (r: Step)
    ensures !r.editor.loading && r.requests == [] && r.navigation == []
    ensures ServerFieldErrors(err).Some? ==> r.editor.errors == ServerFieldErrors(err).value
    ensures ServerFieldErrors(err).None? ==> r.editor.errors == e.errors
    ensures r.editor.space == e.space && r.editor.mode == e.mode && r.editor.spaceId == e.spaceId
    ensures r.editor.(errors := e.errors, loading := e.loading) == e
    ensures |r.toasts| == 1 && r.toasts[0].severity == Error && r.toasts[0].title == CreateFailedTitle
    ensures Truthy(ErrorMessage(err)) ==> r.toasts[0].message == ErrorMessage(err).value
    ensures !Truthy(ErrorMessage(err)) ==> r.toasts[0].message == CreateFailedMessage
  {
    Failed(e, err, CreateFailedMessage, CreateFailedTitle)
  }

  /** The update request failed. */
  function UpdateFailed(e: Editor, err: HttpError): (r: Step)
    ensures !r.editor.loading && r.requests == [] && r.navigation == []
    ensures ServerFieldErrors(err).Some? ==> r.editor.errors == ServerFieldErrors(err).value
    ensures ServerFieldErrors(err).None? ==> r.editor.errors == e.errors
    ensures r.editor.space == e.space && r.editor.mode == e.mode && r.editor.spaceId == e.spaceId
    ensures r.editor.(errors := e.errors, loading := e.loading) == e
    ensures |r.toasts| == 1 && r.toasts[0].severity == Error && r.toasts[0].title == UpdateFailedTitle
    ensures Truthy(ErrorMessage(err)) ==> r.toasts[0].message == ErrorMessage(err).value
    ensures !Truthy(ErrorMessage(err)) ==> r.toasts[0].message == UpdateFailedMessage
  {
    Failed(e, err, UpdateFailedMessage, UpdateFailedTitle)
  }

  /** cancel: back to the spaces list. */
  function Cancel(e: Editor): (r: Step)
    ensures r.editor == e && r.requests == [] && r.toasts == []
    ensures r.navigation == [NavigateTo("/spaces")]
  {
    Step(e, [], [], [NavigateTo("/spaces")])
  }
}
