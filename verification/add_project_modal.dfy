/** The "Create New Project" dialog. */
module AddProjectModal {
  import opened Wrappers
  import opened Types
  import opened Api
  import opened Text
  import opened SimpleForm

  const NameRequired := "Project name is required"
  const CreateFailed := "Failed to create project. Please try again."

  function BuildPayload(f: Form): (p: ProjectPayload)
    ensures p.description.None? <==> AllWhitespace(f.description)
    ensures p.name == Trim(f.name)
    ensures p.description.Some? ==> p.description.value == Trim(f.description)
  {
    ProjectPayload(Trim(f.name), TrimOrOmit(f.description))
  }

  /** A click on "Create Project". */
  function StartSubmit(f: Form): (r: Handled<Form>)
    ensures r.state == Clicked(f, NameRequired)
    ensures r.request.Some? <==> Sends(f)
    ensures r.request.Some? ==>
              r.request == Some(CreateProject(BuildPayload(f))) &&
              r.request.value.project.name != [] && IsTrimmed(r.request.value.project.name)
  {
    var g := Clicked(f, NameRequired);
    if Sends(f) then Handled(g, Some(CreateProject(BuildPayload(f)))) else Handled(g, None)
  }

  function FinishSubmit(f: Form, response: Result<Project>): (r: Settled<Form, Project>)
    ensures !r.state.loading
    ensures r.created == response.ToOption()
    ensures response.Failure? ==> r.state.error == CreateFailed
  {
    Settle(f, response, CreateFailed)
  }

  /** Retyping the sent texts into an empty dialog sends the same request. */
  lemma ResubmitSame(f: Form)
    requires Sends(f)
    ensures var p := StartSubmit(f).request.value.project;
            StartSubmit(Empty.(name := p.name, description := p.description.GetOr(""))).request ==
              StartSubmit(f).request
  {
    RetypedTextsSendSame(f);
  }
}
