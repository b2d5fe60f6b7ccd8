/** The first registration step: three required fields handed to the details step. */
module Register {
  import opened Js

  datatype RegisterForm = RegisterForm(username: string, email: string, password: string, errorMessage: string)

  /** The route parameters of the `RegisterDetails` screen. */
  datatype DetailsParams = DetailsParams(username: string, email: string, password: string)

  datatype Next = Next(form: RegisterForm, navigateTo: Option<DetailsParams>)

  const FillAllFieldsMessage := "Please fill out all fields"

  /** `handleNext`. */
  function HandleNext(f: RegisterForm): (o: Next)
    ensures o.navigateTo.Some? <==> f.username != "" && f.email != "" && f.password != ""
    ensures o.navigateTo.None? ==> o.form == f.(errorMessage := FillAllFieldsMessage)
    ensures o.navigateTo.Some? ==> o.form == f
  {
    if f.username == "" || f.email == "" || f.password == "" then
      Next(f.(errorMessage := FillAllFieldsMessage), None)
    else Next(f, Some(DetailsParams(f.username, f.email, f.password)))
  }

  /** The details step receives the three values exactly as typed. */
  lemma HandoffKeepsValues(f: RegisterForm)
    requires HandleNext(f).navigateTo.Some?
    ensures var p := HandleNext(f).navigateTo.value;
      p.username == f.username && p.email == f.email && p.password == f.password
  {
  }

  /** Pressing Next again without editing repeats the outcome: the handler is idempotent on the form. */
  lemma PressingAgainRepeats(f: RegisterForm)
    ensures HandleNext(HandleNext(f).form) == HandleNext(f)
  {
  }

  /** Whether and where the user goes depends only on the three fields, never on
      the message currently shown. */
  lemma MessageDoesNotDecide(f: RegisterForm, shown: string)
    ensures HandleNext(f.(errorMessage := shown)).navigateTo == HandleNext(f).navigateTo
  {
  }

  /** No format check: any non-empty values go through, an e-mail without "@" included. */
  lemma NoFormatCheck(username: string, password: string, errorMessage: string)
    requires username != "" && password != ""
    ensures HandleNext(RegisterForm(username, "not-an-email", password, errorMessage)).navigateTo.Some?
  {
  }

  /** A failed attempt's message stays on screen after the fields are completed
      and the handoff succeeds. */
  lemma StaleErrorKept(f: RegisterForm, username: string, email: string, password: string)
    requires f.username == ""
    requires username != "" && email != "" && password != ""
    ensures var failed := HandleNext(f).form;
      var retried := HandleNext(failed.(username := username, email := email, password := password));
      retried.navigateTo.Some? && retried.form.errorMessage == FillAllFieldsMessage
  {
  }
}
