/** The two-step "Add Functionality" dialog
    (src/components/modals/AddFunctionalityModal.tsx): step 1 takes name,
    description and type; step 2 takes the display text and the field list of a
    form or table; submitting creates the functionality on the page. */
module AddFunctionalityModal {
  import opened Wrappers
  import opened Types
  import opened Api
  import opened Text

  // ---------------------------------------------------------------------------
  // The field-list editor

  /** The row "+ Add Field" appends. */
  const BlankField := FieldDefinition("", "text", false, None, None)

  function AddField(fields: seq<FieldDefinition>): (r: seq<FieldDefinition>)
    ensures |r| == |fields| + 1
    ensures r[..|fields|] == fields
    ensures r[|fields|].name == "" && r[|fields|].fieldType == "text" && !r[|fields|].required
    ensures r[|fields|].validation.None? && r[|fields|].defaultValue.None?
  {
    fields + [BlankField]
  }

  /** A `Partial<FieldDefinition>`: each key is either present (Some) or absent. */
  datatype FieldPatch = FieldPatch(
    name: Option<string>,
    fieldType: Option<string>,
    required: Option<bool>,
    validation: Option<Option<string>>,
    defaultValue: Option<Option<Json>>)

  const EmptyPatch := FieldPatch(None, None, None, None, None)

  /** `{ ...field, ...patch }`: the keys present in the patch win. */
  function Merge(f: FieldDefinition, p: FieldPatch): FieldDefinition {
    FieldDefinition(
      p.name.GetOr(f.name),
      p.fieldType.GetOr(f.fieldType),
      p.required.GetOr(f.required),
      p.validation.GetOr(f.validation),
      p.defaultValue.GetOr(f.defaultValue))
  }

  /** Merging overrides exactly the keys present in the patch. */
  lemma MergeOverridesPresentKeys(f: FieldDefinition, p: FieldPatch)
    ensures p.name.Some? ==> Merge(f, p).name == p.name.value
    ensures p.name.None? ==> Merge(f, p).name == f.name
    ensures p.fieldType.Some? ==> Merge(f, p).fieldType == p.fieldType.value
    ensures p.fieldType.None? ==> Merge(f, p).fieldType == f.fieldType
    ensures p.required.Some? ==> Merge(f, p).required == p.required.value
    ensures p.required.None? ==> Merge(f, p).required == f.required
    ensures p.validation.Some? ==> Merge(f, p).validation == p.validation.value
    ensures p.validation.None? ==> Merge(f, p).validation == f.validation
    ensures p.defaultValue.Some? ==> Merge(f, p).defaultValue == p.defaultValue.value
    ensures p.defaultValue.None? ==> Merge(f, p).defaultValue == f.defaultValue
  {
  }

  /** An empty patch changes nothing, and applying a patch twice is applying it once. */
  lemma MergeLaws(f: FieldDefinition, p: FieldPatch)
    ensures Merge(f, EmptyPatch) == f
    ensures Merge(Merge(f, p), p) == Merge(f, p)
  {
  }

  /** `updateField(index, updates)`. Its only callers are the rows of the list,
      each passing its own index. */
  function UpdateField(fields: seq<FieldDefinition>, index: int, p: FieldPatch): (r: seq<FieldDefinition>)
    requires 0 <= index < |fields|
    ensures |r| == |fields|
    ensures r[index] == Merge(fields[index], p)
    ensures forall j :: 0 <= j < |fields| && j != index ==> r[j] == fields[j]
  {
    fields[index := Merge(fields[index], p)]
  }

  /** `xs.filter((_, i) => i !== index)`, where `xs` starts at position `from`. */
  function DropPosition<T>(xs: seq<T>, index: int, from: int): seq<T>
    decreases |xs|
  {
    if |xs| == 0 then []
    else (if from == index then [] else [xs[0]]) + DropPosition(xs[1..], index, from + 1)
  }

  lemma {:induction false} DropPositionSlices<T>(xs: seq<T>, index: int, from: int)
    ensures from <= index < from + |xs| ==>
              DropPosition(xs, index, from) == xs[..index - from] + xs[index - from + 1..]
    ensures !(from <= index < from + |xs|) ==> DropPosition(xs, index, from) == xs
    decreases |xs|
  {
    if |xs| > 0 {
      DropPositionSlices(xs[1..], index, from + 1);
      if from == index {
        assert DropPosition(xs[1..], index, from + 1) == xs[1..];
      } else if from < index < from + |xs| {
        assert xs[..index - from] == [xs[0]] + xs[1..][..index - from - 1];
        assert xs[index - from + 1..] == xs[1..][index - from..];
      } else {
        assert [xs[0]] + xs[1..] == xs;
      }
    }
  }

  /** `removeField(index)`: drops exactly that position; an index outside the
      list changes nothing. */
  function RemoveField(fields: seq<FieldDefinition>, index: int): (r: seq<FieldDefinition>)
    ensures 0 <= index < |fields| ==> |r| == |fields| - 1 && r == fields[..index] + fields[index + 1..]
    ensures !(0 <= index < |fields|) ==> r == fields
  {
    DropPositionSlices(fields, index, 0);
    DropPosition(fields, index, 0)
  }

  /** Removing the row just added gives the list back. */
  lemma RemoveAddedField(fields: seq<FieldDefinition>)
    ensures RemoveField(AddField(fields), |fields|) == fields
  {
    var r := AddField(fields);
    assert r[..|fields|] == fields;
  }

  /** An update touches one row: removing that row afterwards gives the same
      list as removing it before. */
  lemma RemoveUpdatedField(fields: seq<FieldDefinition>, index: int, p: FieldPatch)
    requires 0 <= index < |fields|
    ensures RemoveField(UpdateField(fields, index, p), index) == RemoveField(fields, index)
  {
    var u := UpdateField(fields, index, p);
    assert u[..index] == fields[..index];
    assert u[index + 1..] == fields[index + 1..];
  }

  // ---------------------------------------------------------------------------
  // The dialog

  datatype Step = Details | Configure

  /** The dialog's state; `pageId` is the page it was opened for. */
  datatype FuncForm = FuncForm(
    pageId: int,
    step: Step,
    name: string,
    description: string,
    kind: FunctionalityType,
    dataToDisplay: string,
    fields: seq<FieldDefinition>,
    loading: bool,
    error: string)

  function Init(pageId: int): FuncForm {
    FuncForm(pageId, Details, "", "", Button, "", [], false, "")
  }

  const NameRequired := "Functionality name is required"
  const CreateFailed := "Failed to create functionality. Please try again."

  /** "Next": a blank name keeps the dialog at step 1 with an error; otherwise
      the error is cleared and step 2 opens. (The source's "Please select a
      type" branch cannot be taken: the type is always one of the three.) */
  function HandleNext(f: FuncForm): (r: FuncForm)
    ensures IsBlank(f.name) ==> r == f.(error := NameRequired)
    ensures !IsBlank(f.name) ==> r == f.(error := "", step := Configure)
  {
    if IsBlank(f.name) then f.(error := NameRequired)
    else f.(error := "", step := Configure)
  }

  /** The body sent on submit. */
  function BuildPayload(f: FuncForm): (r: FunctionalityPayload)
    ensures r.pageId == f.pageId && r.kind == f.kind
    ensures r.name == Trim(f.name)
    ensures r.description.None? <==> AllWhitespace(f.description)
    ensures r.description.Some? ==> r.description.value == Trim(f.description)
    ensures r.fields.Some? <==> (f.kind != Button && |f.fields| > 0)
    ensures r.fields.Some? ==> r.fields.value == f.fields
    ensures r.dataToDisplay.None? <==> AllWhitespace(f.dataToDisplay)
    ensures r.dataToDisplay.Some? ==> r.dataToDisplay.value == Trim(f.dataToDisplay)
  {
    FunctionalityPayload(
      f.pageId,
      Trim(f.name),
      TrimOrOmit(f.description),
      f.kind,
      if (f.kind == Form || f.kind == Table) && |f.fields| > 0 then Some(f.fields) else None,
      TrimOrOmit(f.dataToDisplay))
  }

  /** Submitting step 2 (the submit button is disabled while loading): clears
      the error, sets loading and sends the payload. */
  function StartSubmit(f: FuncForm): (r: Handled<FuncForm>)
    ensures (f.step != Configure || f.loading) ==> r == Handled(f, None)
    ensures f.step == Configure && !f.loading ==>
              r.state == f.(loading := true, error := "") &&
              r.request == Some(CreateFunctionality(BuildPayload(f)))
  {
    if f.step == Configure && !f.loading then
      Handled(f.(loading := true, error := ""), Some(CreateFunctionality(BuildPayload(f))))
    else
      Handled(f, None)
  }

  /** The create request settles: the created record goes to the page list,
      a failure shows an error; loading ends either way. */
  function FinishSubmit(f: FuncForm, response: Result<Functionality>): (r: Settled<FuncForm, Functionality>)
    ensures !r.state.loading
    ensures r.created == response.ToOption()
    ensures response.Failure? ==> r.state.error == CreateFailed
    ensures response.Success? ==> r.state.error == f.error
    ensures r.state.(loading := f.loading, error := f.error) == f
  {
    match response
    case Success(created) => Settled(f.(loading := false), Some(created))
    case Failure => Settled(f.(loading := false, error := CreateFailed), None)
  }

  /** A failed request can be retried as it is: the same body goes out again. */
  lemma RetryAfterFailure(f: FuncForm)
    requires f.step == Configure && !f.loading
    ensures StartSubmit(FinishSubmit(StartSubmit(f).state, Failure).state).request ==
              StartSubmit(f).request
  {
  }

  /** What the user can do, each only where the control is shown and enabled. */
  datatype FuncEvent =
    | EditName(text: string)
    | EditDescription(text: string)
    | ChooseType(kind: FunctionalityType)
    | Next
    | Back
    | EditDataToDisplay(text: string)
    | AddFieldClicked
    | EditField(index: int, patch: FieldPatch)
    | RemoveFieldClicked(index: int)
    | Submit
    | Settle(response: Result<Functionality>)

  function Apply(f: FuncForm, e: FuncEvent): (r: FuncForm)
    ensures r.pageId == f.pageId
    ensures f.step == Configure ==> r.name == f.name && r.description == f.description && r.kind == f.kind
    ensures f.step == Details ==> r.dataToDisplay == f.dataToDisplay && r.fields == f.fields
    ensures f.kind == Button ==> r.dataToDisplay == f.dataToDisplay && r.fields == f.fields
    ensures r.loading && !f.loading ==> e.Submit? && f.step == Configure
  {
    var details := f.step == Details;
    var configuring := f.step == Configure && f.kind != Button;
    match e
    case EditName(text) => if details then f.(name := text) else f
    case EditDescription(text) => if details then f.(description := text) else f
    case ChooseType(kind) => if details then f.(kind := kind) else f
    case Next => if details then HandleNext(f) else f
    case Back => if f.step == Configure && !f.loading then f.(step := Details) else f
    case EditDataToDisplay(text) => if configuring then f.(dataToDisplay := text) else f
    case AddFieldClicked => if configuring then f.(fields := AddField(f.fields)) else f
    case EditField(i, p) =>
      if configuring && 0 <= i < |f.fields| then f.(fields := UpdateField(f.fields, i, p)) else f
    case RemoveFieldClicked(i) => if configuring then f.(fields := RemoveField(f.fields, i)) else f
    case Submit => if f.step == Configure && !f.loading then f.(loading := true, error := "") else f
    case Settle(response) => if f.loading then FinishSubmit(f, response).state else f
  }

  /** The Submit event does what the submit handler does to the state. */
  lemma ApplySubmitIsStartSubmit(f: FuncForm)
    ensures Apply(f, Submit) == StartSubmit(f).state
  {
  }

  function Run(f: FuncForm, events: seq<FuncEvent>): FuncForm
    decreases |events|
  {
    if |events| == 0 then f else Run(Apply(f, events[0]), events[1..])
  }

  /** Step 2 is only entered through "Next", and the name is only editable in
      step 1: so in step 2 the name is never blank. */
  predicate StepInvariant(f: FuncForm) {
    f.step == Configure ==> !IsBlank(f.name)
  }

  lemma ApplyKeepsStepInvariant(f: FuncForm, e: FuncEvent)
    requires StepInvariant(f)
    ensures StepInvariant(Apply(f, e))
  {
    match e
    case EditName(text) => InvEditName(f, text);
    case Next => InvNext(f);
    case Submit => InvSubmit(f);
    case Settle(response) => InvSettle(f, response);
    case _ => InvOther(f, e);
  }

  lemma InvEditName(f: FuncForm, text: string)
    requires StepInvariant(f)
    ensures StepInvariant(Apply(f, EditName(text)))
  {
  }

  lemma InvNext(f: FuncForm)
    requires StepInvariant(f)
    ensures StepInvariant(Apply(f, Next))
  {
  }

  lemma InvSubmit(f: FuncForm)
    requires StepInvariant(f)
    ensures StepInvariant(Apply(f, Submit))
  {
  }

  lemma InvSettle(f: FuncForm, response: Result<Functionality>)
    requires StepInvariant(f)
    ensures StepInvariant(Apply(f, Settle(response)))
  {
  }

  lemma InvOther(f: FuncForm, e: FuncEvent)
    requires StepInvariant(f)
    requires !e.EditName? && !e.Next? && !e.Submit? && !e.Settle?
    ensures StepInvariant(Apply(f, e))
  {
    KeepsNameAndStep(f, e);
  }

  /** The other controls leave the name alone and at most go back to step 1. */
  lemma KeepsNameAndStep(f: FuncForm, e: FuncEvent)
    requires !e.EditName? && !e.Next? && !e.Submit? && !e.Settle?
    ensures Apply(f, e).name == f.name
    ensures Apply(f, e).step == f.step || Apply(f, e).step == Details
  {
  }

  lemma {:induction false} RunKeepsStepInvariant(f: FuncForm, events: seq<FuncEvent>)
    requires StepInvariant(f)
    ensures StepInvariant(Run(f, events))
    decreases |events|
  {
    if |events| > 0 {
      ApplyKeepsStepInvariant(f, events[0]);
      RunKeepsStepInvariant(Apply(f, events[0]), events[1..]);
    }
  }

  /** Submitting from a state that keeps the invariant sends a non-blank,
      trimmed name. */
  lemma SubmitKeepsNameNonBlank(f: FuncForm)
    requires StepInvariant(f)
    ensures StartSubmit(f).request.Some? ==>
              StartSubmit(f).request.value.functionality.name != [] &&
              IsTrimmed(StartSubmit(f).request.value.functionality.name)
  {
  }

  /** Whatever the user did since the dialog opened, a submitted functionality
      has a non-blank, trimmed name. */
  lemma SubmittedNameNonBlank(pageId: int, events: seq<FuncEvent>)
    ensures StartSubmit(Run(Init(pageId), events)).request.Some? ==>
              StartSubmit(Run(Init(pageId), events)).request.value.functionality.name != []
  {
    RunKeepsStepInvariant(Init(pageId), events);
    SubmitKeepsNameNonBlank(Run(Init(pageId), events));
  }

  /** A button is never sent with fields. */
  lemma ButtonSendsNoFields(f: FuncForm)
    requires f.kind == Button
    ensures BuildPayload(f).fields.None?
  {
  }

  /** The clicks that send a button with display text: type a name, choose
      "form", "Next", type the display text, "Back", choose "button", "Next". */
  function ButtonWithTextClicks(name: string, text: string): seq<FuncEvent> {
    [EditName(name), ChooseType(Form), Next, EditDataToDisplay(text), Back, ChooseType(Button), Next]
  }

  /** A button can still be sent with display text: the text typed while the
      type was "form" survives going back and choosing "button". */
  lemma ButtonCanSendDataToDisplay(pageId: int, name: string, text: string)
    requires !IsBlank(name)
    ensures StartSubmit(Run(Init(pageId), ButtonWithTextClicks(name, text))).request ==
              Some(CreateFunctionality(FunctionalityPayload(pageId, Trim(name), None, Button, None, TrimOrOmit(text))))
    ensures !AllWhitespace(text) ==>
              StartSubmit(Run(Init(pageId), ButtonWithTextClicks(name, text))).request.value.functionality.dataToDisplay.Some?
  {
    ExampleRun(pageId, name, text);
    assert AllWhitespace("");
  }

  // The lemmas from here to RunStep are the steps of the proof of
  // ButtonCanSendDataToDisplay: they unfold its one click sequence.

  lemma ExampleRun(pageId: int, name: string, text: string)
    requires !IsBlank(name)
    ensures Run(Init(pageId), ButtonWithTextClicks(name, text)) ==
            FuncForm(pageId, Configure, name, "", Button, text, [], false, "")
  {
    var tail := [EditDataToDisplay(text), Back, ChooseType(Button), Next];
    assert ButtonWithTextClicks(name, text) == [EditName(name), ChooseType(Form), Next] + tail;
    ExampleHead(pageId, name, tail);
    ExampleTail(pageId, name, text, tail);
  }

  /** Name, "form", "Next": step 2 of a form. */
  lemma ExampleHead(pageId: int, name: string, tail: seq<FuncEvent>)
    requires !IsBlank(name)
    ensures Run(Init(pageId), [EditName(name), ChooseType(Form), Next] + tail) ==
            Run(FuncForm(pageId, Configure, name, "", Form, "", [], false, ""), tail)
  {
    var f0 := Init(pageId);
    var f1 := f0.(name := name);
    var f2 := f1.(kind := Form);
    ApplyEditName(f0, name);
    ApplyChooseType(f1, Form);
    ApplyNext(f2);
    assert f2.(step := Configure, error := "") == FuncForm(pageId, Configure, name, "", Form, "", [], false, "");
    RunThree(f0, EditName(name), ChooseType(Form), Next, tail);
  }

  lemma RunThree(f: FuncForm, e1: FuncEvent, e2: FuncEvent, e3: FuncEvent, tail: seq<FuncEvent>)
    ensures Run(f, [e1, e2, e3] + tail) == Run(Apply(Apply(Apply(f, e1), e2), e3), tail)
  {
    var g1 := Apply(f, e1);
    var g2 := Apply(g1, e2);
    var g3 := Apply(g2, e3);
    RunStep(g2, e3, tail, g3);
    RunStep(g1, e2, [e3] + tail, g2);
    RunStep(f, e1, [e2] + ([e3] + tail), g1);
    assert [e1, e2, e3] + tail == [e1] + ([e2] + ([e3] + tail));
  }

  /** Display text, "Back", "button", "Next": step 2 of a button that keeps
      the text. */
  lemma ExampleTail(pageId: int, name: string, text: string, tail: seq<FuncEvent>)
    requires !IsBlank(name)
    requires tail == [EditDataToDisplay(text), Back, ChooseType(Button), Next]
    ensures Run(FuncForm(pageId, Configure, name, "", Form, "", [], false, ""), tail) ==
            FuncForm(pageId, Configure, name, "", Button, text, [], false, "")
  {
    var f3 := FuncForm(pageId, Configure, name, "", Form, "", [], false, "");
    var f4 := f3.(dataToDisplay := text);
    var f5 := f4.(step := Details);
    var f6 := f5.(kind := Button);
    var f7 := f6.(step := Configure, error := "");
    ApplyEditDataToDisplay(f3, text);
    ApplyBack(f4);
    ApplyChooseType(f5, Button);
    ApplyNext(f6);
    assert Run(f7, []) == f7;
    RunStep(f6, Next, [], f7);
    RunStep(f5, ChooseType(Button), [Next], f6);
    RunStep(f4, Back, [ChooseType(Button), Next], f5);
    RunStep(f3, EditDataToDisplay(text), [Back, ChooseType(Button), Next], f4);
    assert [Next] == [Next] + [];
  }

  lemma ApplyEditName(f: FuncForm, text: string)
    requires f.step == Details
    ensures Apply(f, EditName(text)) == f.(name := text)
  {
  }

  lemma ApplyNext(f: FuncForm)
    requires f.step == Details && !IsBlank(f.name)
    ensures Apply(f, Next) == f.(step := Configure, error := "")
  {
  }

  lemma ApplyEditDataToDisplay(f: FuncForm, text: string)
    requires f.step == Configure && f.kind != Button
    ensures Apply(f, EditDataToDisplay(text)) == f.(dataToDisplay := text)
  {
  }

  lemma ApplyBack(f: FuncForm)
    requires f.step == Configure && !f.loading
    ensures Apply(f, Back) == f.(step := Details)
  {
  }

  lemma ApplyChooseType(f: FuncForm, kind: FunctionalityType)
    requires f.step == Details
    ensures Apply(f, ChooseType(kind)) == f.(kind := kind)
  {
  }

  lemma RunStep(f: FuncForm, e: FuncEvent, rest: seq<FuncEvent>, g: FuncForm)
    requires Apply(f, e) == g
    ensures Run(f, [e] + rest) == Run(g, rest)
  {
    assert ([e] + rest)[0] == e && ([e] + rest)[1..] == rest;
  }
}
