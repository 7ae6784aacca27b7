/** The state and the submit protocol shared by the three one-step dialogs
    (new project, new page, new workflow): a required name, an optional
    description, a loading flag that disables the buttons, and an error line. */
module SimpleForm {
  import opened Wrappers
  import opened Text
  import opened Api

  datatype Form = Form(name: string, description: string, loading: bool, error: string)

  const Empty := Form("", "", false, "")

  /** A click on the submit button sends a request: the button is enabled and
      the name is not blank. */
  predicate Sends(f: Form) {
    !f.loading && !IsBlank(f.name)
  }

  /** The form right after a click: unchanged while disabled, an error for a
      blank name, otherwise loading with the error cleared. */
  function Clicked(f: Form, nameRequired: string): (r: Form)
    ensures r.name == f.name && r.description == f.description
    ensures r.loading <==> f.loading || Sends(f)
    ensures !f.loading && !Sends(f) ==> r.error == nameRequired
    ensures Sends(f) ==> r.error == ""
    ensures f.loading ==> r == f
  {
    if f.loading then f
    else if IsBlank(f.name) then f.(error := nameRequired)
    else f.(loading := true, error := "")
  }

  /** The create request settles: loading ends either way; a failure shows the
      dialog's failure message and keeps what was typed. */
  function Settle<R>(f: Form, response: Result<R>, failed: string): (r: Settled<Form, R>)
    ensures !r.state.loading
    ensures r.created == response.ToOption()
    ensures r.state.name == f.name && r.state.description == f.description
    ensures response.Failure? ==> r.state.error == failed
    ensures response.Success? ==> r.state.error == f.error
  {
    match response
    case Success(created) => Settled(f.(loading := false), Some(created))
    case Failure => Settled(f.(loading := false, error := failed), None)
  }

  /** While a request is in flight a second click does nothing. */
  lemma SecondClickIgnored(f: Form, nameRequired: string)
    requires Sends(f)
    ensures !Sends(Clicked(f, nameRequired))
    ensures Clicked(Clicked(f, nameRequired), nameRequired) == Clicked(f, nameRequired)
  {
  }

  /** After a failure the same input can be sent again without retyping. */
  lemma RetryAfterFailure<R>(f: Form, nameRequired: string, failed: string)
    requires Sends(f)
    ensures Sends(Settle<R>(Clicked(f, nameRequired), Failure, failed).state)
  {
  }

  /** Typing the sent name and description back into an empty dialog sends the
      same texts: the name's trim and the description's trim-or-omit are fixed
      points. */
  lemma RetypedTextsSendSame(f: Form)
    requires Sends(f)
    ensures var g := Empty.(name := Trim(f.name), description := TrimOrOmit(f.description).GetOr(""));
            Sends(g) && Trim(g.name) == Trim(f.name) &&
            TrimOrOmit(g.description) == TrimOrOmit(f.description)
  {
    var g := Empty.(name := Trim(f.name), description := TrimOrOmit(f.description).GetOr(""));
    TrimIdempotent(f.name);
    assert Trim(g.name) == Trim(f.name);
    assert !g.loading;
    TrimOrOmitFixed(f.description);
  }

  /** The text a trimmed-or-omitted description stands for gives the same
      trimmed-or-omitted value back. */
  lemma TrimOrOmitFixed(s: string)
    ensures TrimOrOmit(TrimOrOmit(s).GetOr([])) == TrimOrOmit(s)
  {
    var d := TrimOrOmit(s);
    if d.Some? {
      TrimIdempotent(s);
    } else {
      TrimOfTrimmed([]);
    }
  }
}
