/** The "Create New Page" dialog. */
module AddPageModal {
  import opened Wrappers
  import opened Types
  import opened Api
  import opened Text
  import opened SimpleForm

  const NameRequired := "Page name is required"
  const CreateFailed := "Failed to create page. Please try again."

  function BuildPayload(projectId: int, f: Form): (p: PagePayload)
    ensures p.projectId == projectId
    ensures p.description.None? <==> AllWhitespace(f.description)
    ensures p.name == Trim(f.name)
    ensures p.description.Some? ==> p.description.value == Trim(f.description)
  {
    PagePayload(projectId, Trim(f.name), TrimOrOmit(f.description))
  }

  /** A click on "Create Page". */
  function StartSubmit(projectId: int, f: Form): (r: Handled<Form>)
    ensures r.state == Clicked(f, NameRequired)
    ensures r.request.Some? <==> Sends(f)
    ensures r.request.Some? ==>
              r.request == Some(CreatePage(BuildPayload(projectId, f))) &&
              r.request.value.page.name != [] && IsTrimmed(r.request.value.page.name)
  {
    var g := Clicked(f, NameRequired);
    if Sends(f) then Handled(g, Some(CreatePage(BuildPayload(projectId, f)))) else Handled(g, None)
  }

  function FinishSubmit(f: Form, response: Result<Page>): (r: Settled<Form, Page>)
    ensures !r.state.loading
    ensures r.created == response.ToOption()
    ensures response.Failure? ==> r.state.error == CreateFailed
  {
    Settle(f, response, CreateFailed)
  }

  /** Retyping the sent texts into an empty dialog sends the same request. */
  lemma ResubmitSame(projectId: int, f: Form)
    requires Sends(f)
    ensures var p := StartSubmit(projectId, f).request.value.page;
            StartSubmit(projectId, Empty.(name := p.name, description := p.description.GetOr(""))).request ==
              StartSubmit(projectId, f).request
  {
    RetypedTextsSendSame(f);
  }
}
