/** The "Create New Workflow" dialog: a new workflow starts with an empty
    flowchart. */
module AddWorkflowModal {
  import opened Wrappers
  import opened Types
  import opened Api
  import opened Text
  import opened SimpleForm

  const NameRequired := "Workflow name is required"
  const CreateFailed := "Failed to create workflow. Please try again."

  function BuildPayload(projectId: int, f: Form): (p: WorkflowPayload)
    ensures p.projectId == projectId
    ensures p.description.None? <==> AllWhitespace(f.description)
    ensures p.name == Trim(f.name)
    ensures p.description.Some? ==> p.description.value == Trim(f.description)
    ensures p.flowchartData == Some(EmptyFlowchart)
  {
    WorkflowPayload(projectId, Trim(f.name), TrimOrOmit(f.description), Some(EmptyFlowchart))
  }

  /** A click on "Create Workflow". */
  function StartSubmit(projectId: int, f: Form): (r: Handled<Form>)
    ensures r.state == Clicked(f, NameRequired)
    ensures r.request.Some? <==> Sends(f)
    ensures r.request.Some? ==>
              r.request == Some(CreateWorkflow(BuildPayload(projectId, f))) &&
              r.request.value.workflow.name != [] && IsTrimmed(r.request.value.workflow.name)
  {
    var g := Clicked(f, NameRequired);
    if Sends(f) then Handled(g, Some(CreateWorkflow(BuildPayload(projectId, f)))) else Handled(g, None)
  }

  function FinishSubmit(f: Form, response: Result<Workflow>): (r: Settled<Form, Workflow>)
    ensures !r.state.loading
    ensures r.created == response.ToOption()
    ensures response.Failure? ==> r.state.error == CreateFailed
  {
    Settle(f, response, CreateFailed)
  }

  /** A created workflow has no nodes and no edges yet. */
  lemma CreatedWorkflowIsEmpty(projectId: int, f: Form)
    requires Sends(f)
    ensures var w := StartSubmit(projectId, f).request.value.workflow;
            w.flowchartData.Some? && w.flowchartData.value.nodes == Some([]) &&
            w.flowchartData.value.edges == Some([])
  {
  }

  /** Retyping the sent texts into an empty dialog sends the same request. */
  lemma ResubmitSame(projectId: int, f: Form)
    requires Sends(f)
    ensures var p := StartSubmit(projectId, f).request.value.workflow;
            StartSubmit(projectId, Empty.(name := p.name, description := p.description.GetOr(""))).request ==
              StartSubmit(projectId, f).request
  {
    RetypedTextsSendSame(f);
  }
}
