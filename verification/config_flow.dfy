/** Validation of a device form and the options flow that edits the device
    list: add, edit (choose an index, then submit the form) and delete. */
module ConfigFlow {
  import opened Options
  import opened Text
  import opened Devices

  /** The keys of a device record. */
  datatype Field = NameField | EntityIdField | ServerUrlField | KeyField
                 | EnabledField | VerifySslField | PollSecondsField

  datatype ErrorCode = MustStartHttp | DoNotIncludeIngest | InvalidKey | Required {
    /** The error string shown by the form. */
    function Code(): string {
      match this
      case MustStartHttp => "must_start_http"
      case DoNotIncludeIngest => "do_not_include_ingest"
      case InvalidKey => "invalid_key"
      case Required => "required"
    }
  }

  /** The four error strings are distinct, so the form's message tells the
      user which check failed. */
  lemma CodesDistinct(a: ErrorCode, b: ErrorCode)
    ensures a.Code() == b.Code() <==> a == b
  {
  }

  type Errors = map<Field, ErrorCode>

  /** An input field as validated: `(value or "").strip()`. */
  function Trimmed(s: Option<string>): string {
    Strip(s.GetOr(""))
  }

  predicate HasHttpScheme(url: string) {
    "http://" <= url || "https://" <= url
  }

  /** A device form the validator accepts, stated field by field.
      `keyMatches` is the key pattern, matched against the trimmed key. */
  ghost predicate Acceptable(d: Device, keyMatches: string -> bool) {
    && HasHttpScheme(Trimmed(d.serverUrl))
    && !Occurs(IngestPath, Trimmed(d.serverUrl))
    && keyMatches(Trimmed(d.key))
    && Trimmed(d.entityId) != []
  }

  /** Checks a submitted device form and returns its errors, keyed by field.
      The server URL is checked for its scheme first and for the ingestion
      path second, so the second error replaces the first. */
  function ValidateInputs(input: Device, keyMatches: string -> bool): (errors: Errors)
    ensures errors.Keys <= {ServerUrlField, KeyField, EntityIdField}
    ensures var url := Trimmed(input.serverUrl);
      && (ServerUrlField !in errors <==> HasHttpScheme(url) && !Occurs(IngestPath, url))
      && (Occurs(IngestPath, url) ==> errors[ServerUrlField] == DoNotIncludeIngest)
      && (!HasHttpScheme(url) && !Occurs(IngestPath, url) ==> errors[ServerUrlField] == MustStartHttp)
    ensures KeyField in errors <==> !keyMatches(Trimmed(input.key))
    ensures KeyField in errors ==> errors[KeyField] == InvalidKey
    ensures EntityIdField in errors <==> Trimmed(input.entityId) == []
    ensures EntityIdField in errors ==> errors[EntityIdField] == Required
  {
    var server := Trimmed(input.serverUrl);
    var e1: Errors := if !HasHttpScheme(server) then map[ServerUrlField := MustStartHttp] else map[];
    var e2 := if Contains(IngestPath, server) then e1[ServerUrlField := DoNotIncludeIngest] else e1;
    var key := Trimmed(input.key);
    var e3 := if !keyMatches(key) then e2[KeyField := InvalidKey] else e2;
    var ent := Trimmed(input.entityId);
    if ent == [] then e3[EntityIdField := Required] else e3
  }

  /** The validator reports no error exactly for acceptable forms. */
  lemma ValidateInputsAcceptable(d: Device, keyMatches: string -> bool)
    ensures ValidateInputs(d, keyMatches) == map[] <==> Acceptable(d, keyMatches)
  {
    var errors := ValidateInputs(d, keyMatches);
    if Acceptable(d, keyMatches) {
      assert errors.Keys == {};
    } else if Trimmed(d.entityId) == [] {
      assert EntityIdField in errors;
    }
  }

  /** The options flow: the device list being edited and the index chosen
      for editing. */
  datatype Flow = Flow(devices: seq<Device>, editIndex: Option<int>)

  datatype StepId = AddStep | EditStep | EditFormStep | DeleteStep

  /** What the flow shows next: the main menu, or a form with its errors. */
  datatype Screen = Menu | Form(step: StepId, errors: Errors)

  /** The flow starts from the entry's device list, with nothing chosen. */
  function InitFlow(entry: Entry): (f: Flow)
    ensures entry.options.Some? ==> f.devices == entry.options.value
    ensures entry.options.None? ==> f.devices == entry.data.GetOr([])
    ensures f.editIndex.None?
  {
    Flow(EntryDevices(entry), None)
  }

  /** The add step: without input it shows the empty form; an input with
      errors is shown again with them; an accepted input is appended. */
  function Add(f: Flow, input: Option<Device>, keyMatches: string -> bool): (r: (Flow, Screen))
    ensures r.0.editIndex == f.editIndex
    ensures r.0.devices != f.devices <==> input.Some? && Acceptable(input.value, keyMatches)
    ensures r.0.devices != f.devices ==>
      && |r.0.devices| == |f.devices| + 1
      && r.0.devices[..|f.devices|] == f.devices
      && r.0.devices[|f.devices|] == input.value
      && r.1 == Menu
    ensures r.0.devices == f.devices ==>
      r.1 == Form(AddStep, if input.Some? then ValidateInputs(input.value, keyMatches) else map[])
  {
    match input
    case None => (f, Form(AddStep, map[]))
    case Some(d) =>
      var errors := ValidateInputs(d, keyMatches);
      ValidateInputsAcceptable(d, keyMatches);
      if errors != map[] then (f, Form(AddStep, errors))
      else
        var devices := f.devices + [d];
        assert |devices| != |f.devices|;
        (f.(devices := devices), Menu)
  }

  /** The submitted choice of a device index: `int(...)` of the chosen value,
      or a value that is not an integer (or is missing). */
  datatype IndexChoice = Parsed(i: int) | NotAnInt

  /** The chosen edit index is in range. */
  predicate HasEditTarget(f: Flow) {
    f.editIndex.Some? && 0 <= f.editIndex.value < |f.devices|
  }

  /** The edit form step. Without a chosen index in range it returns to the
      menu, keeping the chosen index; otherwise it shows the form, shows it
      again with errors, or replaces the chosen device and clears the index. */
  function EditForm(f: Flow, input: Option<Device>, keyMatches: string -> bool): (r: (Flow, Screen))
    ensures !HasEditTarget(f) ==> r == (f, Menu)
    ensures HasEditTarget(f) && input.Some? && Acceptable(input.value, keyMatches) ==>
      var i := f.editIndex.value;
      && |r.0.devices| == |f.devices|
      && r.0.devices[i] == input.value
      && (forall j :: 0 <= j < |f.devices| && j != i ==> r.0.devices[j] == f.devices[j])
      && r.0.editIndex.None?
      && r.1 == Menu
    ensures HasEditTarget(f) && !(input.Some? && Acceptable(input.value, keyMatches)) ==>
      r == (f, Form(EditFormStep, if input.Some? then ValidateInputs(input.value, keyMatches) else map[]))
  {
    if f.editIndex.None? || f.editIndex.value < 0 || f.editIndex.value >= |f.devices| then (f, Menu)
    else if input.None? then (f, Form(EditFormStep, map[]))
    else
      var errors := ValidateInputs(input.value, keyMatches);
      ValidateInputsAcceptable(input.value, keyMatches);
      if errors != map[] then (f, Form(EditFormStep, errors))
      else (Flow(f.devices[f.editIndex.value := input.value], None), Menu)
  }

  /** The edit step: without input it shows the index choice; with one it
      records the chosen index (none if it is not an integer) and moves on
      to the edit form. */
  function Edit(f: Flow, choice: Option<IndexChoice>, keyMatches: string -> bool): (r: (Flow, Screen))
    ensures choice.None? ==> r == (f, Form(EditStep, map[]))
    ensures choice.Some? && choice.value.Parsed? && 0 <= choice.value.i < |f.devices| ==>
      r == (f.(editIndex := Some(choice.value.i)), Form(EditFormStep, map[]))
    ensures choice.Some? && !(choice.value.Parsed? && 0 <= choice.value.i < |f.devices|) ==>
      r.0.devices == f.devices && r.1 == Menu
  {
    match choice
    case None => (f, Form(EditStep, map[]))
    case Some(c) =>
      var index := if c.Parsed? then Some(c.i) else None;
      EditForm(f.(editIndex := index), None, keyMatches)
  }

  /** The delete step: without input it shows the index choice; with one it
      removes the device at that index when it is in range (a non-integer
      choice counts as -1) and returns to the menu. */
  function Delete(f: Flow, choice: Option<IndexChoice>): (r: (Flow, Screen))
    ensures r.0.editIndex == f.editIndex
    ensures choice.None? ==> r == (f, Form(DeleteStep, map[]))
    ensures choice.Some? ==> r.1 == Menu
    ensures choice.Some? && choice.value.Parsed? && 0 <= choice.value.i < |f.devices| ==>
      var i := choice.value.i;
      && |r.0.devices| == |f.devices| - 1
      && r.0.devices[..i] == f.devices[..i]
      && (forall j :: i <= j < |r.0.devices| ==> r.0.devices[j] == f.devices[j + 1])
      && multiset(r.0.devices) + multiset{f.devices[i]} == multiset(f.devices)
    ensures !(choice.Some? && choice.value.Parsed? && 0 <= choice.value.i < |f.devices|) ==>
      r.0 == f
  {
    match choice
    case None => (f, Form(DeleteStep, map[]))
    case Some(c) =>
      var idx := if c.Parsed? then c.i else -1;
      if 0 <= idx < |f.devices| then
        var devices := f.devices[..idx] + f.devices[idx + 1..];
        assert f.devices == f.devices[..idx] + [f.devices[idx]] + f.devices[idx + 1..];
        (f.(devices := devices), Menu)
      else (f, Menu)
  }

  /** Deleting the device just added restores the list. */
  lemma AddThenDeleteRestores(f: Flow, d: Device, keyMatches: string -> bool)
    requires Acceptable(d, keyMatches)
    ensures Delete(Add(f, Some(d), keyMatches).0, Some(Parsed(|f.devices|))).0 == f
  {
    var added := Add(f, Some(d), keyMatches).0;
    var r := Delete(added, Some(Parsed(|f.devices|))).0;
    assert r.devices == added.devices[..|f.devices|];
  }

  /** Choosing a device, submitting new values, then choosing it again and
      submitting its old values restores the list. */
  lemma EditThenRevertRestores(f: Flow, i: int, d: Device, keyMatches: string -> bool)
    requires 0 <= i < |f.devices|
    requires Acceptable(d, keyMatches) && Acceptable(f.devices[i], keyMatches)
    ensures var f1 := EditForm(Edit(f, Some(Parsed(i)), keyMatches).0, Some(d), keyMatches).0;
      var f2 := EditForm(Edit(f1, Some(Parsed(i)), keyMatches).0, Some(f.devices[i]), keyMatches).0;
      f2 == f.(editIndex := None)
  {
    var f1 := EditForm(Edit(f, Some(Parsed(i)), keyMatches).0, Some(d), keyMatches).0;
    var f2 := EditForm(Edit(f1, Some(Parsed(i)), keyMatches).0, Some(f.devices[i]), keyMatches).0;
    assert f2.devices == f.devices;
  }

  /** Every device in the list passes validation. */
  ghost predicate AllAcceptable(devices: seq<Device>, keyMatches: string -> bool) {
    forall j :: 0 <= j < |devices| ==> Acceptable(devices[j], keyMatches)
  }

  /** Whatever is submitted, adding only ever puts validated devices into
      the list. */
  lemma AddKeepsAcceptable(f: Flow, input: Option<Device>, keyMatches: string -> bool)
    requires AllAcceptable(f.devices, keyMatches)
    ensures AllAcceptable(Add(f, input, keyMatches).0.devices, keyMatches)
  {
    var added := Add(f, input, keyMatches).0.devices;
    if added != f.devices {
      forall j | 0 <= j < |added|
        ensures Acceptable(added[j], keyMatches)
      {
        if j < |f.devices| {
          assert added[j] == added[..|f.devices|][j];
        }
      }
    }
  }

  /** Whatever is submitted, the edit steps only ever put validated devices
      into the list. */
  lemma EditKeepsAcceptable(f: Flow, input: Option<Device>, choice: Option<IndexChoice>, keyMatches: string -> bool)
    requires AllAcceptable(f.devices, keyMatches)
    ensures AllAcceptable(EditForm(f, input, keyMatches).0.devices, keyMatches)
    ensures AllAcceptable(Edit(f, choice, keyMatches).0.devices, keyMatches)
  {
  }

  /** Deleting keeps every remaining device validated. */
  lemma DeleteKeepsAcceptable(f: Flow, choice: Option<IndexChoice>, keyMatches: string -> bool)
    requires AllAcceptable(f.devices, keyMatches)
    ensures AllAcceptable(Delete(f, choice).0.devices, keyMatches)
  {
    var r := Delete(f, choice).0.devices;
    if r != f.devices {
      var i := choice.value.i;
      forall j | 0 <= j < |r|
        ensures Acceptable(r[j], keyMatches)
      {
        if j < i {
          assert r[j] == r[..i][j] == f.devices[..i][j];
        } else {
          assert r[j] == f.devices[j + 1];
        }
      }
    }
  }
}
