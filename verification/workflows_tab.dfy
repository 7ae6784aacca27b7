/** The workflows tab: the project's workflows, the selected one shown in the
    editor beside the list, creation, and deletion after confirmation. */
module WorkflowsTab {
  import opened Wrappers
  import opened Types
  import opened Api
  import opened ListOps

  datatype WorkflowsState = WorkflowsState(
    workflows: seq<Workflow>,
    loading: bool,
    showAddModal: bool,
    selected: Option<Workflow>)

  const Initial := WorkflowsState([], true, false, None)

  /** One load of the tab; a failure keeps the list, and the spinner goes away
      whatever happened. */
  function LoadWorkflows(s: WorkflowsState, response: Result<seq<Workflow>>): (r: WorkflowsState)
    ensures !r.loading
    ensures response.Success? ==> r.workflows == response.value
    ensures response.Failure? ==> r.workflows == s.workflows
    ensures r.selected == s.selected && r.showAddModal == s.showAddModal
  {
    match response
    case Success(workflows) => s.(workflows := workflows, loading := false)
    case Failure => s.(loading := false)
  }

  /** Loading is settled by its last response: repeating a load changes nothing,
      a failed reload keeps what the last load showed, and a successful load does
      not depend on the list shown before it. */
  lemma LoadWorkflowsSettles(s: WorkflowsState, response: Result<seq<Workflow>>, shown: seq<Workflow>)
    ensures LoadWorkflows(LoadWorkflows(s, response), response) == LoadWorkflows(s, response)
    ensures LoadWorkflows(LoadWorkflows(s, response), Failure) == LoadWorkflows(s, response)
    ensures response.Success? ==>
              LoadWorkflows(s.(workflows := shown), response) == LoadWorkflows(s, response)
  {
  }

  /** A workflow came back from the dialog: it is listed last and the dialog closes. */
  function HandleWorkflowCreated(s: WorkflowsState, w: Workflow): (r: WorkflowsState)
    ensures |r.workflows| == |s.workflows| + 1
    ensures r.workflows[..|s.workflows|] == s.workflows && r.workflows[|s.workflows|] == w
    ensures !r.showAddModal
    ensures r.(workflows := s.workflows, showAddModal := s.showAddModal) == s
  {
    s.(workflows := s.workflows + [w], showAddModal := false)
  }

  /** A click on a listed workflow opens it in the editor. */
  function Select(s: WorkflowsState, i: int): (r: WorkflowsState)
    requires 0 <= i < |s.workflows|
    ensures r.selected == Some(s.workflows[i])
    ensures r.(selected := s.selected) == s
  {
    s.(selected := Some(s.workflows[i]))
  }

  /** The delete button of a workflow, after the confirmation dialog: once the
      request succeeds the workflow leaves the list and, if it was the one
      open in the editor, the editor closes. */
  function HandleDeleteWorkflow(s: WorkflowsState, workflowId: int, confirmed: bool, outcome: Outcome): (r: Handled<WorkflowsState>)
    ensures r.request.Some? <==> confirmed
    ensures confirmed ==> r.request == Some(DeleteWorkflow(workflowId))
    ensures !(confirmed && outcome.Pass?) ==> r.state == s
    ensures confirmed && outcome.Pass? ==>
              r.state.workflows == RemoveKey(s.workflows, WorkflowKey, workflowId) &&
              r.state.loading == s.loading && r.state.showAddModal == s.showAddModal
    ensures confirmed && outcome.Pass? ==>
              (r.state.selected.None? <==> s.selected.None? || s.selected.value.id == workflowId)
    ensures r.state.selected.Some? ==> r.state.selected == s.selected
  {
    if !confirmed || outcome.Fail? then
      Handled(s, if confirmed then Some(DeleteWorkflow(workflowId)) else None)
    else
      var selected := if s.selected.Some? && s.selected.value.id == workflowId then None else s.selected;
      Handled(s.(workflows := RemoveKey(s.workflows, WorkflowKey, workflowId), selected := selected),
              Some(DeleteWorkflow(workflowId)))
  }

  /** The editor only ever shows a workflow that is listed. */
  predicate SelectionListed(s: WorkflowsState) {
    s.selected.Some? ==> s.selected.value in s.workflows
  }

  lemma CreateKeepsSelectionListed(s: WorkflowsState, w: Workflow)
    requires SelectionListed(s)
    ensures SelectionListed(HandleWorkflowCreated(s, w))
  {
  }

  lemma SelectKeepsSelectionListed(s: WorkflowsState, i: int)
    requires 0 <= i < |s.workflows|
    ensures SelectionListed(Select(s, i))
  {
  }

  /** A reload is the one event that can leave the editor on an unlisted
      workflow: the selection is not cleared, so it stays listed exactly when
      the new list still holds it. */
  lemma LoadKeepsSelectionListedIff(s: WorkflowsState, response: Result<seq<Workflow>>)
    requires SelectionListed(s)
    ensures SelectionListed(LoadWorkflows(s, response)) <==>
              (response.Success? && s.selected.Some? ==> s.selected.value in response.value)
  {
  }

  /** Deleting the open workflow closes the editor rather than leaving it on a
      workflow that is gone. */
  lemma DeleteKeepsSelectionListed(s: WorkflowsState, workflowId: int, confirmed: bool, outcome: Outcome)
    requires SelectionListed(s)
    ensures SelectionListed(HandleDeleteWorkflow(s, workflowId, confirmed, outcome).state)
  {
    if confirmed && outcome.Pass? && s.selected.Some? {
      RemoveKeyMembers(s.workflows, WorkflowKey, workflowId, s.selected.value);
    }
  }

  /** After a successful delete no workflow has the id, and every other one is
      still listed. */
  lemma DeletedWorkflowGone(s: WorkflowsState, workflowId: int, w: Workflow)
    ensures var r := HandleDeleteWorkflow(s, workflowId, true, Pass).state;
            w in r.workflows <==> w in s.workflows && w.id != workflowId
  {
    RemoveKeyMembers(s.workflows, WorkflowKey, workflowId, w);
  }

  /** Creating a workflow with a fresh id and deleting it again restores the list. */
  lemma CreateThenDeleteWorkflow(s: WorkflowsState, w: Workflow)
    requires forall i :: 0 <= i < |s.workflows| ==> s.workflows[i].id != w.id
    ensures HandleDeleteWorkflow(HandleWorkflowCreated(s, w), w.id, true, Pass).state.workflows == s.workflows
  {
    RemoveKeyAppended(s.workflows, w, WorkflowKey, w.id);
  }
}
