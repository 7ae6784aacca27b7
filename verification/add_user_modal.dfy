/** The "Add Requirement User" dialog: a name, a description, a comma-separated
    privilege list, and two checkbox lists selecting the pages and the
    functionalities the user may access. */
module AddUserModal {
  import opened Wrappers
  import opened Types
  import opened Api
  import opened Text
  import opened ListOps

  const NameRequired := "User name is required"
  const CreateFailed := "Failed to create user. Please try again."

  // ---------------------------------------------------------------------------
  // The privilege list

  /** A privilege as the payload carries it: non-empty, trimmed, comma-free. */
  predicate IsPrivilege(p: string) {
    p != [] && IsTrimmed(p) && ',' !in p
  }

  predicate AllPrivileges(ps: seq<string>) {
    forall i :: 0 <= i < |ps| ==> IsPrivilege(ps[i])
  }

  predicate CommaFree(pieces: seq<string>) {
    forall i :: 0 <= i < |pieces| ==> ',' !in pieces[i]
  }

  /** A comma-free piece that is not blank trims to a privilege. */
  lemma PrivilegeOfPiece(piece: string)
    requires ',' !in piece
    ensures Trim(piece) != [] ==> IsPrivilege(Trim(piece))
  {
    TrimKeeps(piece, ',');
  }

  /** Trimming comma-free pieces and dropping the empty ones leaves only
      privileges. */
  lemma CleanPiecesArePrivileges(pieces: seq<string>)
    requires CommaFree(pieces)
    ensures AllPrivileges(MapNonEmpty(pieces, Trim))
  {
    var r := MapNonEmpty(pieces, Trim);
    forall j | 0 <= j < |r| ensures IsPrivilege(r[j]) {
      MapNonEmptyMembers(pieces, Trim, r[j]);
      var i :| 0 <= i < |pieces| && Trim(pieces[i]) == r[j];
      PrivilegeOfPiece(pieces[i]);
    }
  }

  /** The privileges typed as text: split at commas, each piece trimmed, the
      empty ones dropped. */
  function ParsePrivileges(text: string): (r: seq<string>)
    ensures AllPrivileges(r)
  {
    var pieces := Split(text, ',');
    CleanPiecesArePrivileges(pieces);
    MapNonEmpty(pieces, Trim)
  }

  /** A privilege is parsed exactly when some comma-separated piece of the
      text trims to it and is not empty. */
  lemma ParsePrivilegesMembers(text: string, pieces: seq<string>, p: string)
    requires pieces == Split(text, ',')
    ensures p in ParsePrivileges(text) <==>
              p != [] && exists i :: 0 <= i < |pieces| && Trim(pieces[i]) == p
  {
    MapNonEmptyMembers(pieces, Trim, p);
  }

  /** Whatever spacing surrounds the comma-separated pieces, the parsed list is
      the trimmed non-empty pieces in order. */
  lemma ParseJoinedPieces(pieces: seq<string>)
    requires |pieces| >= 1 && CommaFree(pieces)
    ensures ParsePrivileges(Join(pieces, ',')) == MapNonEmpty(pieces, Trim)
  {
    SplitJoin(pieces, ',');
  }

  /** Writing well-formed privileges out comma-separated and parsing the text
      gives the same privileges back. */
  lemma ParsePrivilegesRoundTrip(xs: seq<string>)
    requires AllPrivileges(xs)
    ensures ParsePrivileges(Join(xs, ',')) == xs
  {
    if |xs| == 0 {
      assert Split([], ',') == [[]];
      assert Trim([]) == [];
    } else {
      ParseJoinedPieces(xs);
      forall i | 0 <= i < |xs| ensures Trim(xs[i]) == xs[i] {
        TrimOfTrimmed(xs[i]);
      }
      MapNonEmptyFixed(xs, Trim);
    }
  }

  /** Re-parsing the parsed privileges written out changes nothing. */
  lemma ParsePrivilegesIdempotent(text: string)
    ensures ParsePrivileges(Join(ParsePrivileges(text), ',')) == ParsePrivileges(text)
  {
    ParsePrivilegesRoundTrip(ParsePrivileges(text));
  }

  // ---------------------------------------------------------------------------
  // The dialog

  datatype UserForm = UserForm(
    projectId: int,
    name: string,
    description: string,
    privilegesText: string,
    selectedPages: seq<int>,
    selectedFunctionalities: seq<int>,
    loading: bool,
    error: string)

  function Init(projectId: int): UserForm {
    UserForm(projectId, "", "", "", [], [], false, "")
  }

  /** Ticking or unticking a page's checkbox. A ticked page joins the end of
      the selection, which is the order `pageAccess` is sent in; unticking keeps
      the other pages in their order. */
  function TogglePage(u: UserForm, pageId: int): (r: UserForm)
    ensures pageId in r.selectedPages <==> pageId !in u.selectedPages
    ensures forall x :: x != pageId ==> (x in r.selectedPages <==> x in u.selectedPages)
    ensures pageId !in u.selectedPages ==> r.selectedPages == u.selectedPages + [pageId]
    ensures pageId in u.selectedPages ==> r.selectedPages == RemoveKey(u.selectedPages, Identity, pageId)
    ensures r.(selectedPages := u.selectedPages) == u
  {
    u.(selectedPages := Toggle(u.selectedPages, pageId))
  }

  /** Ticking or unticking a functionality's checkbox, with the same order
      rules as TogglePage. */
  function ToggleFunctionality(u: UserForm, funcId: int): (r: UserForm)
    ensures funcId in r.selectedFunctionalities <==> funcId !in u.selectedFunctionalities
    ensures forall x :: x != funcId ==> (x in r.selectedFunctionalities <==> x in u.selectedFunctionalities)
    ensures funcId !in u.selectedFunctionalities ==>
              r.selectedFunctionalities == u.selectedFunctionalities + [funcId]
    ensures funcId in u.selectedFunctionalities ==>
              r.selectedFunctionalities == RemoveKey(u.selectedFunctionalities, Identity, funcId)
    ensures r.(selectedFunctionalities := u.selectedFunctionalities) == u
  {
    u.(selectedFunctionalities := Toggle(u.selectedFunctionalities, funcId))
  }

  /** Ticking an unticked box and unticking it again restores the form. */
  lemma TogglePageTwice(u: UserForm, pageId: int)
    requires pageId !in u.selectedPages
    ensures TogglePage(TogglePage(u, pageId), pageId) == u
  {
    ToggleTwiceAbsent(u.selectedPages, pageId);
  }

  lemma ToggleFunctionalityTwice(u: UserForm, funcId: int)
    requires funcId !in u.selectedFunctionalities
    ensures ToggleFunctionality(ToggleFunctionality(u, funcId), funcId) == u
  {
    ToggleTwiceAbsent(u.selectedFunctionalities, funcId);
  }

  /** The create body: trimmed name, and every optional key omitted when empty. */
  function BuildPayload(u: UserForm): (p: UserPayload)
    ensures p.projectId == u.projectId && p.name == Trim(u.name)
    ensures p.description.None? <==> AllWhitespace(u.description)
    ensures p.description.Some? ==> p.description.value == Trim(u.description)
    ensures p.privileges.None? <==> ParsePrivileges(u.privilegesText) == []
    ensures p.privileges.Some? ==> p.privileges.value == ParsePrivileges(u.privilegesText)
    ensures p.privileges.Some? ==> p.privileges.value != [] && AllPrivileges(p.privileges.value)
    ensures p.pageAccess.None? <==> u.selectedPages == []
    ensures p.pageAccess.Some? ==> p.pageAccess.value == u.selectedPages
    ensures p.functionalityAccess.None? <==> u.selectedFunctionalities == []
    ensures p.functionalityAccess.Some? ==> p.functionalityAccess.value == u.selectedFunctionalities
  {
    UserPayload(
      u.projectId,
      Trim(u.name),
      TrimOrOmit(u.description),
      NonEmptyOrOmit(ParsePrivileges(u.privilegesText)),
      NonEmptyOrOmit(u.selectedPages),
      NonEmptyOrOmit(u.selectedFunctionalities))
  }

  /** A click on "Create User" (disabled while loading): a blank name only
      shows an error; otherwise the create request goes out. */
  function StartSubmit(u: UserForm): (r: Handled<UserForm>)
    ensures r.request.Some? <==> !u.loading && !IsBlank(u.name)
    ensures u.loading ==> r.state == u
    ensures !u.loading && IsBlank(u.name) ==> r.state == u.(error := NameRequired)
    ensures r.request.Some? ==>
              r.state == u.(loading := true, error := "") &&
              r.request == Some(CreateUser(BuildPayload(u))) &&
              r.request.value.user.name != [] && IsTrimmed(r.request.value.user.name)
  {
    if u.loading then
      Handled(u, None)
    else if IsBlank(u.name) then
      Handled(u.(error := NameRequired), None)
    else
      Handled(u.(loading := true, error := ""), Some(CreateUser(BuildPayload(u))))
  }

  /** The create request settles; loading ends either way. */
  function FinishSubmit(u: UserForm, response: Result<RequirementUser>): (r: Settled<UserForm, RequirementUser>)
    ensures !r.state.loading
    ensures r.created == response.ToOption()
    ensures response.Failure? ==> r.state.error == CreateFailed
    ensures response.Success? ==> r.state.error == u.error
    ensures r.state.(loading := u.loading, error := u.error) == u
  {
    match response
    case Success(created) => Settled(u.(loading := false), Some(created))
    case Failure => Settled(u.(loading := false, error := CreateFailed), None)
  }

  /** While a request is in flight a second click sends nothing. */
  lemma AtMostOneCreateInFlight(u: UserForm)
    requires !u.loading && !IsBlank(u.name)
    ensures StartSubmit(StartSubmit(u).state).request.None?
    ensures StartSubmit(StartSubmit(u).state).state == StartSubmit(u).state
  {
  }

  /** A failed request can be retried as it is: the same payload goes out again. */
  lemma RetryAfterFailure(u: UserForm)
    requires !u.loading && !IsBlank(u.name)
    ensures StartSubmit(FinishSubmit(StartSubmit(u).state, Failure).state).request ==
              StartSubmit(u).request
  {
  }

  // ---------------------------------------------------------------------------
  // Runs of the dialog

  datatype UserEvent =
    | EditName(text: string)
    | EditDescription(text: string)
    | EditPrivileges(text: string)
    | PageBox(pageId: int)
    | FunctionalityBox(funcId: int)
    | Submit
    | Settle(response: Result<RequirementUser>)

  function Apply(u: UserForm, e: UserEvent): (r: UserForm)
    ensures r.projectId == u.projectId
    ensures !e.Submit? && !e.Settle? ==> r.loading == u.loading && r.error == u.error
    ensures e.Submit? || e.Settle? ==> r.(loading := u.loading, error := u.error) == u
    ensures e.Settle? && !u.loading ==> r == u
  {
    match e
    case EditName(text) => u.(name := text)
    case EditDescription(text) => u.(description := text)
    case EditPrivileges(text) => u.(privilegesText := text)
    case PageBox(pageId) => TogglePage(u, pageId)
    case FunctionalityBox(funcId) => ToggleFunctionality(u, funcId)
    case Submit =>
      if u.loading then u
      else if IsBlank(u.name) then u.(error := NameRequired)
      else u.(loading := true, error := "")
    case Settle(response) => if u.loading then FinishSubmit(u, response).state else u
  }

  /** The Submit event does what the submit handler does to the state. */
  lemma ApplySubmitIsStartSubmit(u: UserForm)
    ensures Apply(u, Submit) == StartSubmit(u).state
  {
  }

  function Run(u: UserForm, events: seq<UserEvent>): UserForm
    decreases |events|
  {
    if |events| == 0 then u else Run(Apply(u, events[0]), events[1..])
  }

  /** Each checkbox list holds an id at most once. */
  predicate SelectionsDistinct(u: UserForm) {
    NoDuplicates(u.selectedPages) && NoDuplicates(u.selectedFunctionalities)
  }

  lemma {:induction false} RunKeepsSelectionsDistinct(u: UserForm, events: seq<UserEvent>)
    requires SelectionsDistinct(u)
    ensures SelectionsDistinct(Run(u, events))
    decreases |events|
  {
    if |events| > 0 {
      ApplyKeepsSelectionsDistinct(u, events[0]);
      RunKeepsSelectionsDistinct(Apply(u, events[0]), events[1..]);
    }
  }

  lemma ApplyKeepsSelectionsDistinct(u: UserForm, e: UserEvent)
    requires SelectionsDistinct(u)
    ensures SelectionsDistinct(Apply(u, e))
  {
    match e
    case PageBox(pageId) =>
      assert NoDuplicates(Toggle(u.selectedPages, pageId));
    case FunctionalityBox(funcId) =>
      assert NoDuplicates(Toggle(u.selectedFunctionalities, funcId));
    case _ =>
  }

  /** Whatever the user clicked, the access lists a submitted user carries name
      each page and functionality at most once. */
  lemma SubmittedAccessDistinct(projectId: int, events: seq<UserEvent>)
    ensures var r := StartSubmit(Run(Init(projectId), events)).request;
            r.Some? ==>
              (r.value.user.pageAccess.Some? ==> NoDuplicates(r.value.user.pageAccess.value)) &&
              (r.value.user.functionalityAccess.Some? ==> NoDuplicates(r.value.user.functionalityAccess.value))
  {
    RunKeepsSelectionsDistinct(Init(projectId), events);
  }
}
