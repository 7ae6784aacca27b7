# Requirements-gathering client: state transitions and request bodies

This project models the React client of a requirements-gathering tool, in which
a project holds requirement users, pages, functionalities (buttons, forms and
tables on a page) and workflow diagrams. Almost all of the client is rendering
and network calls. The model keeps the part with a precise meaning:

- what each component's event handlers do to its state;
- which requests they send, with which bodies.

The pieces modelled are:

- the workflow diagram editor (`WorkflowViewer`): adding a picked entity as a
  node, loading the stored diagram, loading the entities the picker offers,
  and saving;
- the two-step "Add Functionality" dialog, its field-list editor and its
  request body;
- the "Add Requirement User" dialog: privilege parsing, the access
  checkboxes and the request body;
- the three one-step creation dialogs (project, page, workflow);
- the list state of the pages, users and workflows tabs: create, delete after
  confirmation, per-page loading, expanding pages, selecting a workflow.

Every network response is an input, either `Success(data)` or `Failure`.
Other inputs:

- the clock reading used in node ids is a parameter `now`;
- the random node position is a parameter;
- the answer to the confirmation dialog is a boolean;
- the outcome of a delete is `Pass` or `Fail`.

Handlers return the new state together with the request they send, if any.
Disabled buttons (submit while loading, save while saving) are clicks that
change nothing.

Shared behaviour sits in supporting modules:

- `Text`: ECMAScript `trim` and `split` with one separator character;
- `Decimal`: how a template literal prints an integer;
- `ListOps`: filter-by-id, the checkbox toggle, concatenation;
- `EntityLoad`: the per-page functionality loading that the users tab and
  the diagram editor share;
- `SimpleForm`: the protocol shared by the three one-step dialogs.

Three behaviours of the code are easy to miss, and the model states them
explicitly:

- A button can be sent with display text
  (`AddFunctionalityModal.ButtonCanSendDataToDisplay`). The display text is
  sent whenever its trimmed text is non-empty, whatever the type
  (src/components/modals/AddFunctionalityModal.tsx:61); only the field list
  depends on the type. Type the text under "form", go back, and choose
  "button": the text is still sent.
- A partly failed load still changes what is shown (`EntityLoad.LoadEntities`,
  `UsersTab.PartialFirstLoad`). The users tab and the diagram editor assign
  users and pages before requesting each page's functionalities
  (src/components/tabs/UsersTab.tsx:29-38). When one of those per-page
  requests fails, users and pages are already replaced, and only the
  functionality list keeps its earlier value.
- Node ids can repeat (`WorkflowViewer.AddNodeTwiceCollides`,
  `WorkflowViewer.NodeIdCollision`). A node id is built from the entity type,
  the entity id and the clock alone (src/components/WorkflowViewer.tsx:71). The
  same entity picked twice within one millisecond therefore gives two nodes
  with one id.

## Model

| member | source | states |
|---|---|---|
| WorkflowViewer.AddNode | src/components/WorkflowViewer.tsx:69-91 | exactly one node is appended; the earlier nodes are kept in order; the new node carries the given label, entity type and entity id, its id is built from type, id and clock, its style is the one for its entity type, and the picker panel closes |
| WorkflowViewer.NodeStyleByType | src/components/WorkflowViewer.tsx:79-87 | new nodes of two entity types have equal styles exactly when the types are equal; all styles have the same keys, and only the fill colour differs |
| WorkflowViewer.NodeId | src/components/WorkflowViewer.tsx:71 | the id template: entity type name, entity id and clock reading joined by dashes; what it means is stated by NodeIdRoundTrip and NodeIdCollision |
| Decimal.IntToString | src/components/WorkflowViewer.tsx:71 | an integer prints as a minus sign exactly when it is negative, followed by a non-empty run of digits with no leading zero except for 0 itself |
| WorkflowViewer.NodeIdRoundTrip | src/components/WorkflowViewer.tsx:71 | the node id can be read back into the entity type, entity id (including a negative one) and clock reading it was built from |
| WorkflowViewer.NodeIdCollision | src/components/WorkflowViewer.tsx:71 | two node ids are equal exactly when type, entity id and clock reading are all equal |
| WorkflowViewer.AddNodeTwiceCollides | src/components/WorkflowViewer.tsx:69-91 | adding the same entity twice with one clock reading leaves two nodes sharing an id |
| WorkflowViewer.AddNodeFreshId | src/components/WorkflowViewer.tsx:89 | appending a node whose id is not yet used keeps the node ids unique |
| WorkflowViewer.TogglePanel | src/components/WorkflowViewer.tsx:111 | the toolbar button flips the panel's visibility and touches nothing else |
| WorkflowViewer.TogglePanelTwice | src/components/WorkflowViewer.tsx:111 | two clicks restore the editor state |
| WorkflowViewer.LoadFlowchart | src/components/WorkflowViewer.tsx:36-41 | a stored diagram replaces nodes and edges, a missing list counts as empty; without a stored diagram the working graph is untouched |
| WorkflowViewer.LoadPickerEntities | src/components/WorkflowViewer.tsx:43-62 | loading the picker's entities changes only the entity lists, as the shared loader does |
| WorkflowViewer.ClickSave | src/components/WorkflowViewer.tsx:93-98 | while saving, a click does nothing; otherwise the saving flag is set and the update carries the current nodes and edges, with no name and no description |
| WorkflowViewer.SaveSettled | src/components/WorkflowViewer.tsx:103-105 | the saving flag is cleared on success and on failure; the graph is kept |
| WorkflowViewer.AtMostOneSaveInFlight | src/components/WorkflowViewer.tsx:114 | a second click before the save settles sends no second request |
| WorkflowViewer.SaveLoadRoundTrip | src/components/WorkflowViewer.tsx:96-98 | the diagram a save sends, loaded back into an editor, is the graph that was saved |
| EntityLoad.Gather | src/components/WorkflowViewer.tsx:53-58 | the per-page loop succeeds exactly when every page's request succeeds, and then yields the concatenation of the responses in page order |
| EntityLoad.GatherMembers | src/components/WorkflowViewer.tsx:53-58 | a functionality is gathered exactly when some page's response holds it |
| EntityLoad.GatherLength | src/components/WorkflowViewer.tsx:53-58 | the gathered list is as long as all per-page responses together |
| EntityLoad.LoadEntities | src/components/WorkflowViewer.tsx:44-61 | a failed users or pages request changes nothing; otherwise users and pages are replaced, and the functionality list is replaced only when every per-page request succeeded and otherwise keeps its earlier value |
| AddFunctionalityModal.AddField | src/components/modals/AddFunctionalityModal.tsx:21-23 | one blank text field is appended: not required, with no validation and no default value; the others are kept |
| AddFunctionalityModal.Merge | src/components/modals/AddFunctionalityModal.tsx:27 | the object spread of an update over a field; its meaning is stated key by key in MergeOverridesPresentKeys and MergeLaws |
| AddFunctionalityModal.MergeOverridesPresentKeys | src/components/modals/AddFunctionalityModal.tsx:27 | the object spread overrides exactly the keys present in the update and keeps every other key |
| AddFunctionalityModal.MergeLaws | src/components/modals/AddFunctionalityModal.tsx:27 | an empty update changes nothing, and applying an update twice is applying it once |
| AddFunctionalityModal.UpdateField | src/components/modals/AddFunctionalityModal.tsx:25-29 | the length is kept, the row at the index becomes the merge of the old row and the update, and every other row is unchanged |
| AddFunctionalityModal.DropPositionSlices | src/components/modals/AddFunctionalityModal.tsx:32 | filtering by position removes exactly the element at that position, or nothing when the position is outside the list |
| AddFunctionalityModal.RemoveField | src/components/modals/AddFunctionalityModal.tsx:31-33 | an index in range drops exactly that row, keeps the others in order, and shortens the list by one; any other index changes nothing |
| AddFunctionalityModal.RemoveAddedField | src/components/modals/AddFunctionalityModal.tsx:21-33 | removing the row just added gives the list back |
| AddFunctionalityModal.RemoveUpdatedField | src/components/modals/AddFunctionalityModal.tsx:25-33 | an update touches one row only: removing that row afterwards equals removing it before |
| AddFunctionalityModal.HandleNext | src/components/modals/AddFunctionalityModal.tsx:35-46 | a blank name sets the error and stays at step 1; otherwise the error is cleared and step 2 opens |
| AddFunctionalityModal.BuildPayload | src/components/modals/AddFunctionalityModal.tsx:55-62 | the name is trimmed; the description and display text are trimmed, or omitted exactly when blank; fields are sent exactly for a form or table with at least one field |
| AddFunctionalityModal.StartSubmit | src/components/modals/AddFunctionalityModal.tsx:48-62 | submitting at step 2 while not loading clears the error, sets loading and sends the body; otherwise nothing happens |
| AddFunctionalityModal.FinishSubmit | src/components/modals/AddFunctionalityModal.tsx:63-69 | loading ends either way; a failure shows the failure message; a success hands over the created record and keeps the error text as it was; every other part of the form is kept |
| AddFunctionalityModal.RetryAfterFailure | src/components/modals/AddFunctionalityModal.tsx:63-69 | after a failure the same body can be sent again without retyping |
| AddFunctionalityModal.Apply | src/components/modals/AddFunctionalityModal.tsx:84-278 | which control acts where: at step 2 name, description and type cannot change; at step 1, and for a button, display text and fields cannot change; loading starts only by submitting at step 2; the page never changes |
| AddFunctionalityModal.ApplySubmitIsStartSubmit | src/components/modals/AddFunctionalityModal.tsx:173 | the submit event changes the dialog state exactly as the submit handler does |
| AddFunctionalityModal.ApplyKeepsStepInvariant | src/components/modals/AddFunctionalityModal.tsx:35-46 | no single control of the dialog can reach step 2 with a blank name |
| AddFunctionalityModal.RunKeepsStepInvariant | src/components/modals/AddFunctionalityModal.tsx:35-46 | every sequence of user actions keeps "at step 2 the name is not blank" |
| AddFunctionalityModal.SubmittedNameNonBlank | src/components/modals/AddFunctionalityModal.tsx:57 | whatever the user did since the dialog opened, a submitted functionality has a non-empty name |
| AddFunctionalityModal.SubmitKeepsNameNonBlank | src/components/modals/AddFunctionalityModal.tsx:57 | a submit from a state that keeps the invariant sends a non-empty, trimmed name |
| AddFunctionalityModal.ButtonSendsNoFields | src/components/modals/AddFunctionalityModal.tsx:60 | a button is never sent with fields |
| AddFunctionalityModal.ButtonCanSendDataToDisplay | src/components/modals/AddFunctionalityModal.tsx:61 | display text typed under "form" survives Back and a switch to "button", and is sent with the button |
| AddUserModal.ParsePrivileges | src/components/modals/AddUserModal.tsx:34-37 | every parsed privilege is non-empty, trimmed and free of commas |
| AddUserModal.ParsePrivilegesMembers | src/components/modals/AddUserModal.tsx:34-37 | a privilege is parsed exactly when it is non-empty and some comma-separated piece of the text trims to it |
| AddUserModal.CleanPiecesArePrivileges | src/components/modals/AddUserModal.tsx:36-37 | trimming comma-free pieces and dropping the empty ones leaves only privileges |
| AddUserModal.ParseJoinedPieces | src/components/modals/AddUserModal.tsx:34-37 | parsing comma-joined pieces gives the trimmed non-empty pieces in order, whatever the spacing |
| AddUserModal.ParsePrivilegesRoundTrip | src/components/modals/AddUserModal.tsx:34-37 | writing privileges out comma-separated and parsing them gives them back |
| AddUserModal.ParsePrivilegesIdempotent | src/components/modals/AddUserModal.tsx:34-37 | parsing the written-out parse result changes nothing |
| AddUserModal.TogglePage | src/components/modals/AddUserModal.tsx:57-63 | the page id's membership flips and no other id's membership changes; a ticked page is appended at the end of the selection; unticking removes it and keeps the other pages in order; nothing else in the form changes |
| AddUserModal.ToggleFunctionality | src/components/modals/AddUserModal.tsx:65-71 | the functionality id's membership flips and no other id's membership changes; a ticked functionality is appended at the end; unticking removes it and keeps the others in order; nothing else in the form changes |
| AddUserModal.TogglePageTwice | src/components/modals/AddUserModal.tsx:57-63 | ticking an unticked page and unticking it restores the form |
| AddUserModal.ToggleFunctionalityTwice | src/components/modals/AddUserModal.tsx:65-71 | ticking an unticked functionality and unticking it restores the form |
| Wrappers.NonEmptyOrOmit | src/components/modals/AddUserModal.tsx:43-45 | a list is omitted exactly when it is empty, and otherwise sent as it is |
| AddUserModal.BuildPayload | src/components/modals/AddUserModal.tsx:39-46 | the name is trimmed; the description is trimmed or omitted when blank; privileges, page access and functionality access are each omitted exactly when empty and otherwise sent as they are |
| AddUserModal.StartSubmit | src/components/modals/AddUserModal.tsx:22-46 | a request goes out exactly when not loading and the name is not blank; a blank name only sets the error; a sent name is non-empty and trimmed |
| AddUserModal.FinishSubmit | src/components/modals/AddUserModal.tsx:48-54 | loading ends either way; a failure shows the failure message; a success hands over the created user and keeps the error text as it was; every other part of the form is kept |
| AddUserModal.Apply | src/components/modals/AddUserModal.tsx:83-182 | only submitting and settling touch loading and error, and they touch nothing else; a settle with no request in flight changes nothing; the project never changes |
| AddUserModal.AtMostOneCreateInFlight | src/components/modals/AddUserModal.tsx:179 | a second click while the request is in flight sends nothing and changes nothing |
| AddUserModal.RetryAfterFailure | src/components/modals/AddUserModal.tsx:49-53 | after a failure the same request can be sent again without retyping |
| AddUserModal.ApplySubmitIsStartSubmit | src/components/modals/AddUserModal.tsx:22-31 | the submit event changes the form exactly as the submit handler does |
| AddUserModal.ApplyKeepsSelectionsDistinct | src/components/modals/AddUserModal.tsx:57-71 | no action puts an id into a selection twice |
| AddUserModal.RunKeepsSelectionsDistinct | src/components/modals/AddUserModal.tsx:57-71 | every sequence of actions keeps both selections free of duplicates |
| AddUserModal.SubmittedAccessDistinct | src/components/modals/AddUserModal.tsx:44-45 | whatever was clicked, the access lists sent name each page and functionality at most once |
| ListOps.Toggle | src/components/modals/AddUserModal.tsx:58-62 | an absent id is appended at the end; a present id is removed by the order-keeping filter; either way the id's membership flips, every other id's membership is kept, and a list without duplicates stays without duplicates |
| ListOps.RemoveKeyNoDuplicates | src/components/modals/AddUserModal.tsx:60 | filtering a list without duplicates leaves a list without duplicates |
| ListOps.ToggleTwiceAbsent | src/components/modals/AddUserModal.tsx:58-62 | toggling an absent id twice restores the list |
| ListOps.ToggleTwicePresent | src/components/modals/AddUserModal.tsx:58-62 | toggling a present id twice moves it to the end instead of restoring the list |
| ListOps.RemoveKey | src/components/tabs/UsersTab.tsx:56 | the filtered list holds no element with the id, and is shorter by exactly the number of such elements |
| ListOps.RemoveKeyIsSubsequence | src/components/tabs/UsersTab.tsx:56 | the filter keeps the remaining elements in their order |
| ListOps.RemoveKeyCharacterized | src/components/tabs/UsersTab.tsx:56 | the filter is the only order-keeping sub-list that drops every element with the id and nothing else |
| ListOps.RemoveKeyMembers | src/components/tabs/UsersTab.tsx:56 | an element survives the filter exactly when it was listed and has another id |
| ListOps.RemoveKeyAppended | src/components/tabs/UsersTab.tsx:47-56 | appending an element with a fresh id and filtering that id out gives the list back |
| ListOps.MapNonEmpty | src/components/modals/AddUserModal.tsx:36-37 | mapping then dropping empty results never lengthens the list; its contents are stated by MapNonEmptyMembers and MapNonEmptyFixed |
| ListOps.MapNonEmptyMembers | src/components/modals/AddUserModal.tsx:36-37 | after mapping and dropping empty results, the list holds exactly the non-empty images of the inputs |
| ListOps.MapNonEmptyFixed | src/components/modals/AddUserModal.tsx:36-37 | inputs that map to themselves and are non-empty pass through unchanged |
| ListOps.Flatten | src/components/tabs/UsersTab.tsx:33-38 | the per-page push loop as a concatenation in page order; its contents are stated by FlattenMembers and FlattenLength |
| ListOps.FlattenMembers | src/components/tabs/UsersTab.tsx:33-38 | an element is in the concatenation exactly when it is in one of the lists |
| ListOps.FlattenLength | src/components/tabs/UsersTab.tsx:33-38 | the concatenation is as long as all lists together |
| SimpleForm.Clicked | src/components/modals/AddPageModal.tsx:17-26 | while loading a click changes nothing; a blank name sets the error and sends nothing; otherwise loading starts with the error cleared; name and description are kept |
| SimpleForm.Settle | src/components/modals/AddPageModal.tsx:34-40 | loading ends either way; a failure shows the failure message; the typed texts are kept |
| SimpleForm.SecondClickIgnored | src/components/modals/AddPageModal.tsx:99 | while a request is in flight a second click neither sends nor changes anything |
| SimpleForm.RetryAfterFailure | src/components/modals/AddPageModal.tsx:35-39 | after a failure the same input can be sent again |
| SimpleForm.RetypedTextsSendSame | src/components/modals/AddPageModal.tsx:31-32 | typing the sent name and description into an empty dialog sends the same texts |
| AddWorkflowModal.BuildPayload | src/components/modals/AddWorkflowModal.tsx:30-35 | the project id is passed through, the name is trimmed, the description is trimmed or omitted exactly when blank, and the diagram is empty |
| AddWorkflowModal.StartSubmit | src/components/modals/AddWorkflowModal.tsx:17-35 | a request goes out exactly when not loading and the name is not blank, with a non-empty trimmed name |
| AddWorkflowModal.FinishSubmit | src/components/modals/AddWorkflowModal.tsx:36-42 | loading ends either way; a failure shows the workflow failure message |
| AddWorkflowModal.CreatedWorkflowIsEmpty | src/components/modals/AddWorkflowModal.tsx:34 | every new workflow is sent with no nodes and no edges |
| AddWorkflowModal.ResubmitSame | src/components/modals/AddWorkflowModal.tsx:32-33 | retyping the sent texts into an empty dialog sends the same request |
| AddPageModal.BuildPayload | src/components/modals/AddPageModal.tsx:29-33 | the project id is passed through, the name is trimmed, the description is trimmed or omitted exactly when blank |
| AddPageModal.StartSubmit | src/components/modals/AddPageModal.tsx:17-33 | a request goes out exactly when not loading and the name is not blank, with a non-empty trimmed name |
| AddPageModal.FinishSubmit | src/components/modals/AddPageModal.tsx:34-40 | loading ends either way; a failure shows the page failure message |
| AddPageModal.ResubmitSame | src/components/modals/AddPageModal.tsx:31-32 | retyping the sent texts into an empty dialog sends the same request |
| AddProjectModal.BuildPayload | src/components/modals/AddProjectModal.tsx:28-31 | the name is trimmed, the description is trimmed or omitted exactly when blank |
| AddProjectModal.StartSubmit | src/components/modals/AddProjectModal.tsx:16-31 | a request goes out exactly when not loading and the name is not blank, with a non-empty trimmed name |
| AddProjectModal.FinishSubmit | src/components/modals/AddProjectModal.tsx:32-38 | loading ends either way; a failure shows the project failure message |
| AddProjectModal.ResubmitSame | src/components/modals/AddProjectModal.tsx:29-30 | retyping the sent texts into an empty dialog sends the same request |
| PagesTab.AttachFunctionalities | src/components/tabs/PagesTab.tsx:30-35 | all pages settle exactly when every per-page request succeeds; each page then keeps its fields and gets its own response, in page order |
| PagesTab.LoadPages | src/components/tabs/PagesTab.tsx:24-43 | the page list is replaced only when the pages request and every per-page request succeeded; loading ends in all cases; nothing else changes |
| PagesTab.AttachAgreesWithGather | src/components/tabs/PagesTab.tsx:30-37 | the lists attached to the pages, concatenated in page order, are what the users tab and the editor gather |
| PagesTab.HandlePageCreated | src/components/tabs/PagesTab.tsx:45-48 | the page is appended with an empty functionality list and the dialog closes |
| PagesTab.OpenAddFunctionality | src/components/tabs/PagesTab.tsx:155-159 | the functionality dialog opens for that page |
| PagesTab.AppendToPage | src/components/tabs/PagesTab.tsx:51-55 | the functionality is appended to every page with its page id, a missing list counting as empty; other pages, page count and page order are unchanged |
| PagesTab.HandleFunctionalityCreated | src/components/tabs/PagesTab.tsx:50-58 | the functionality is added to its page and the dialog closes and forgets the page |
| PagesTab.CreatedFunctionalityListed | src/components/tabs/PagesTab.tsx:51-55 | the new functionality appears on a page exactly when that page owns it |
| PagesTab.HandleDeletePage | src/components/tabs/PagesTab.tsx:60-70 | a declined confirmation sends nothing; a confirmed delete sends the request, and only on success the pages with that id leave the list |
| PagesTab.DeletedPageGone | src/components/tabs/PagesTab.tsx:65 | after a successful delete a page is listed exactly when it was listed before and has another id |
| PagesTab.CreateThenDeletePage | src/components/tabs/PagesTab.tsx:45-65 | creating a page with a fresh id and deleting it restores the list |
| PagesTab.RemoveFromList | src/components/tabs/PagesTab.tsx:79 | an unloaded list stays unloaded; a loaded one loses exactly the functionalities with that id |
| PagesTab.RemoveFromPage | src/components/tabs/PagesTab.tsx:77-81 | only the lists of the pages with the given page id change |
| PagesTab.HandleDeleteFunctionality | src/components/tabs/PagesTab.tsx:72-86 | a declined confirmation sends nothing; a successful delete removes the functionality from its page only; a failure changes nothing |
| PagesTab.DeletedFunctionalityGone | src/components/tabs/PagesTab.tsx:77-81 | on the page, a functionality survives exactly when it was listed and has another id |
| PagesTab.CreateThenDeleteFunctionality | src/components/tabs/PagesTab.tsx:50-81 | creating a functionality with a fresh id and deleting it restores every page, provided its page's list was loaded |
| PagesTab.TogglePageExpanded | src/components/tabs/PagesTab.tsx:88-96 | the page's membership in the expanded set flips and nothing else changes |
| PagesTab.TogglePageExpandedTwice | src/components/tabs/PagesTab.tsx:88-96 | two clicks on a header restore the tab |
| UsersTab.LoadData | src/components/tabs/UsersTab.tsx:22-44 | loading ends in all cases and the entity lists follow the shared loader |
| UsersTab.PartialFirstLoad | src/components/tabs/UsersTab.tsx:29-38 | when a per-page request fails on the first load, users and pages are shown but the functionality list stays empty |
| UsersTab.HandleUserCreated | src/components/tabs/UsersTab.tsx:46-49 | the user is appended and the dialog closes; nothing else changes |
| UsersTab.HandleDeleteUser | src/components/tabs/UsersTab.tsx:51-61 | a declined confirmation sends nothing; a successful delete removes the users with that id, keeping the rest in order; a failure changes nothing |
| UsersTab.DeletedUserGone | src/components/tabs/UsersTab.tsx:56 | after a successful delete a user is listed exactly when it was before and has another id |
| UsersTab.CreateThenDeleteUser | src/components/tabs/UsersTab.tsx:46-56 | creating a user with a fresh id and deleting it restores the tab, with the dialog closed |
| WorkflowsTab.LoadWorkflows | src/components/tabs/WorkflowsTab.tsx:22-31 | success replaces the list, failure keeps it, loading ends in both cases |
| WorkflowsTab.LoadWorkflowsSettles | src/components/tabs/WorkflowsTab.tsx:22-31 | repeating a load changes nothing, a failed reload keeps what the last load showed, and a successful load does not depend on the list shown before |
| WorkflowsTab.LoadKeepsSelectionListedIff | src/components/tabs/WorkflowsTab.tsx:22-31 | a reload does not clear the selection, so the selected workflow stays listed exactly when a failed reload kept the list or the new list still holds it |
| WorkflowsTab.HandleWorkflowCreated | src/components/tabs/WorkflowsTab.tsx:33-36 | the workflow is appended and the dialog closes |
| WorkflowsTab.Select | src/components/tabs/WorkflowsTab.tsx:95 | a click on a listed workflow opens it in the editor |
| WorkflowsTab.HandleDeleteWorkflow | src/components/tabs/WorkflowsTab.tsx:38-51 | a declined confirmation or a failed delete changes nothing; a successful one removes the workflows with that id and clears the selection exactly when the selected workflow had that id |
| WorkflowsTab.CreateKeepsSelectionListed | src/components/tabs/WorkflowsTab.tsx:33-36 | creating a workflow keeps the open workflow listed |
| WorkflowsTab.SelectKeepsSelectionListed | src/components/tabs/WorkflowsTab.tsx:95 | the editor only opens a listed workflow |
| WorkflowsTab.DeleteKeepsSelectionListed | src/components/tabs/WorkflowsTab.tsx:43-46 | after any delete, the editor shows no workflow that is gone from the list |
| WorkflowsTab.DeletedWorkflowGone | src/components/tabs/WorkflowsTab.tsx:43 | after a successful delete a workflow is listed exactly when it was before and has another id |
| WorkflowsTab.CreateThenDeleteWorkflow | src/components/tabs/WorkflowsTab.tsx:33-43 | creating a workflow with a fresh id and deleting it restores the list |
| Text.Trim | src/components/modals/AddPageModal.tsx:31 | the result has no whitespace at either end, and is empty exactly when the text is all whitespace |
| Text.TrimDecomposes | src/components/modals/AddPageModal.tsx:31 | the text is whitespace, then its trim, then whitespace |
| Text.TrimOfPadded | src/components/modals/AddPageModal.tsx:31 | any whitespace around a trimmed text is exactly what trimming removes |
| Text.TrimIdempotent | src/components/modals/AddPageModal.tsx:31 | trimming twice is trimming once |
| Text.BlankIffTrimEmpty | src/components/modals/AddPageModal.tsx:20 | a name is rejected exactly when its trim is empty |
| Text.TrimOrOmit | src/components/modals/AddPageModal.tsx:32 | the optional text is omitted exactly when blank and is otherwise its non-empty trim |
| Text.Split | src/components/modals/AddUserModal.tsx:35 | at least one piece, no piece holds the separator, and joining the pieces gives the text back |
| Text.SplitJoin | src/components/modals/AddUserModal.tsx:35 | splitting separator-free pieces joined by the separator gives the pieces back |
| Decimal.NatToString | src/components/WorkflowViewer.tsx:71 | a whole number prints as a non-empty run of digits with no leading zero except for 0 itself; with DigitsToNatOfNatToString this fixes the text |
| Decimal.DigitsToNatOfNatToString | src/components/WorkflowViewer.tsx:71 | the printed digits read back as the number |
| Decimal.ParseIntOfIntToString | src/components/WorkflowViewer.tsx:71 | a printed integer, sign included, reads back as the integer |

## Left out

- Diagram keys beyond the declared ones: the diagram library also writes keys on nodes (`width`, `height`, `selected`, `positionAbsolute`) and on edges (`sourceHandle`, `targetHandle`). These are saved with the diagram but not represented, so WorkflowViewer.SaveLoadRoundTrip covers only the modelled keys.
- Edges made by dragging (`onConnect`) and node moves and removals (`onNodesChange`, `onEdgesChange`): they are handled inside the diagram library, which is not part of this model.
- Node placement: `Math.random() * 400` is floating point and random, so the position is an input.
- The HTTP client in src/services/api.ts: every call is a `Result` input; timeouts, status codes and error bodies are not distinguished.
- Asynchrony: `Promise.all` scheduling, state updates from stale closures, and interleaving of several in-flight requests. Each handler is modelled as running to completion on the state it started from.
- Rendering, CSS classes, `alert` and `console`: these are output only. `confirm` is a boolean input. A node's `style` object is kept, because it is saved with the diagram.
- Routing and navigation: the app shell, the tab switching, the navigation after creating a project, and the sidebar.
- PagesTab.OpenAddFunctionality: the functionality dialog is rendered only when the selected page id is truthy (src/components/tabs/PagesTab.tsx:239). A page whose id is 0 therefore gets no dialog, and the model does not represent that rendering condition.
- AddFunctionalityModal.UpdateField: requires the index to be in range. Its only callers are the rows of the list, each passing its own index. An out-of-range JavaScript assignment that extends the array with a hole is not modelled.
- AddFunctionalityModal.HandleNext: the "Please select a type" branch is left out because the type is always one of three values and the branch cannot be taken.
- Field type strings, validation expressions and default values: they are carried as uninterpreted values.
- Decimal.NatToString: numbers from 10^21 upwards, which JavaScript prints in exponent notation, and non-integral numbers are not modelled. Ids and clock readings are integers below that bound.
- EntityLoad.Gather: a per-page response is modelled as a function of the page id. Two listed pages with the same id therefore get the same response, whereas the code makes one request per listed page; the two differ only if the server lists two pages with one id.
- Timestamps (`createdAt`, `updatedAt`) and the per-user access records of the stored types: the handlers modelled here never read them.
- ListOps.ToggleTwicePresent: restoring the list is not claimed, because the code moves a present id to the end when it is toggled twice.
