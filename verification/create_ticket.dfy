/** The ticket-creation screen: loading the stored credentials, the reporter
    label, the submit guard, the role-dependent payload, and the form reset. */
module CreateTicket {
  import opened Js
  import opened Http

  datatype StudentRef = StudentRef(studentNumber: string)
  datatype EmployeeRef = EmployeeRef(employeeNumber: string)

  /** The JSON body of the create request; an absent reference is sent as `null`. */
  datatype TicketPayload = TicketPayload(
    issue: string, dateCreated: string, status: string,
    student: Option<StudentRef>, employee: Option<EmployeeRef>)

  /** A POST to the ticket service with its `Authorization` header. */
  datatype TicketRequest = TicketRequest(path: string, authorization: string, payload: TicketPayload)

  datatype Alert = Alert(title: string, message: string)

  /** The form and the credentials held in the screen's state. */
  datatype CreateTicketState = CreateTicketState(
    description: string, dateCreated: string, status: string,
    token: Option<string>, userId: Option<string>, userType: Option<string>,
    reporter: string)

  const DefaultStatus := "To Do"
  const AddTicketPath := "/TicketService/ticket/add"
  const MissingCredentialsMessage := "No authentication token, user ID, or user type found. Please log in again."
  const LoginRequiredMessage := "You need to log in to submit a ticket."
  const SubmittedMessage := "Ticket submitted successfully!"

  /** The screen as it opens; `today` is the date the form starts with. */
  function InitialState(today: string): CreateTicketState {
    CreateTicketState("", today, DefaultStatus, None, None, None, "")
  }

  /** The reporter label shown for a user type. */
  function ReporterLabel(userType: string): (caption: string) {
    if userType == "student" then "Student"
    else if userType == "employee" then "Employee"
    else "Unknown"
  }

  /** The credentials the screen holds are either all absent or all truthy. */
  predicate CredentialsConsistent(s: CreateTicketState) {
    (s.token.None? && s.userId.None? && s.userType.None?)
    || (Truthy(s.token) && Truthy(s.userId) && Truthy(s.userType))
  }

  datatype Loaded = Loaded(state: CreateTicketState, alert: Option<Alert>)

  /** Loading the stored credentials: all three are taken, with the reporter
      label, when all three are truthy; otherwise the state stays as it was. */
  function LoadCredentials(s: CreateTicketState, storedToken: Option<string>,
                           storedUserId: Option<string>, storedUserType: Option<string>): (r: Loaded)
    ensures Truthy(storedToken) && Truthy(storedUserId) && Truthy(storedUserType) ==>
      && r.alert.None?
      && r.state.token == storedToken && r.state.userId == storedUserId && r.state.userType == storedUserType
      && r.state.reporter == ReporterLabel(storedUserType.value)
    ensures !(Truthy(storedToken) && Truthy(storedUserId) && Truthy(storedUserType)) ==>
      r.state == s && r.alert == Some(Alert("Error", MissingCredentialsMessage))
    ensures r.state.description == s.description && r.state.dateCreated == s.dateCreated
            && r.state.status == s.status
    ensures CredentialsConsistent(s) ==> CredentialsConsistent(r.state)
  {
    if !Truthy(storedToken) || !Truthy(storedUserId) || !Truthy(storedUserType) then
      Loaded(s, Some(Alert("Error", MissingCredentialsMessage)))
    else
      Loaded(s.(token := storedToken, userId := storedUserId, userType := storedUserType,
                reporter := ReporterLabel(storedUserType.value)), None)
  }

  /** The request body: the form fields as they are, and the reference the
      user type calls for. */
  function Payload(description: string, dateCreated: string, status: string,
                   userId: string, userType: string): (p: TicketPayload)
    ensures p.issue == description && p.dateCreated == dateCreated && p.status == status
    ensures p.student.Some? <==> userType == "student"
    ensures p.employee.Some? <==> userType == "employee"
    ensures p.student.Some? ==> p.student.value.studentNumber == userId
    ensures p.employee.Some? ==> p.employee.value.employeeNumber == userId
  {
    TicketPayload(description, dateCreated, status,
                  if userType == "student" then Some(StudentRef(userId)) else None,
                  if userType == "employee" then Some(EmployeeRef(userId)) else None)
  }

  /** At most one reference is ever sent; staff and unknown types send neither. */
  lemma PayloadHasAtMostOneReference(description: string, dateCreated: string, status: string,
                                     userId: string, userType: string)
    ensures var p := Payload(description, dateCreated, status, userId, userType);
      && !(p.student.Some? && p.employee.Some?)
      && (userType != "student" && userType != "employee" ==> p.student.None? && p.employee.None?)
  {
  }

  /** The reporter label on the form names exactly the reference the payload carries. */
  lemma ReporterMatchesPayload(description: string, dateCreated: string, status: string,
                               userId: string, userType: string)
    ensures var p := Payload(description, dateCreated, status, userId, userType);
      && (ReporterLabel(userType) == "Student" <==> p.student.Some?)
      && (ReporterLabel(userType) == "Employee" <==> p.employee.Some?)
      && (ReporterLabel(userType) == "Unknown" <==> p.student.None? && p.employee.None?)
  {
  }

  /** What reading the reply's text gives: the text, or the message of the
      error the read rejects with. */
  datatype ResponseText = Body(text: string) | Unreadable(message: string)

  datatype Submitted = Submitted(state: CreateTicketState, request: Option<TicketRequest>, alert: Alert)

  /** `handleCreateTicket`: nothing is sent without all three credentials; an
      ok reply resets the form (the date to `today`), any other outcome keeps it
      and shows the server's text or the error that interrupted the request or
      the reading of its reply. */
  function HandleCreateTicket(s: CreateTicketState, reply: Reply<ResponseText>, today: string): (o: Submitted)
    ensures o.request.Some? <==> Truthy(s.token) && Truthy(s.userId) && Truthy(s.userType)
    ensures o.request.None? ==> o.state == s && o.alert == Alert("Error", LoginRequiredMessage)
    ensures o.request.Some? ==>
      && o.request.value.path == AddTicketPath
      && o.request.value.authorization == "Bearer " + s.token.value
      && o.request.value.payload == Payload(s.description, s.dateCreated, s.status, s.userId.value, s.userType.value)
    ensures o.request.Some? && reply.Replied? && reply.data.Body? && IsOk(reply.status) ==>
      && o.state == s.(description := "", dateCreated := today, status := DefaultStatus)
      && o.alert == Alert("Success", SubmittedMessage)
    ensures o.request.Some? && reply.Replied? && reply.data.Body? && !IsOk(reply.status) ==>
      o.state == s && o.alert == Alert("Error", reply.data.text)
    ensures o.request.Some? && reply.Replied? && reply.data.Unreadable? ==>
      o.state == s && o.alert == Alert("Error", "Failed to submit ticket: " + reply.data.message)
    ensures o.request.Some? && reply.Threw? ==>
      o.state == s && o.alert == Alert("Error", "Failed to submit ticket: " + reply.error.message)
    ensures o.state.token == s.token && o.state.userId == s.userId && o.state.userType == s.userType
  {
    if !Truthy(s.token) || !Truthy(s.userId) || !Truthy(s.userType) then
      Submitted(s, None, Alert("Error", LoginRequiredMessage))
    else
      var request := TicketRequest(AddTicketPath, "Bearer " + s.token.value,
                                   Payload(s.description, s.dateCreated, s.status, s.userId.value, s.userType.value));
      match reply
      case Threw(e) => Submitted(s, Some(request), Alert("Error", "Failed to submit ticket: " + e.message))
      case Replied(_, Unreadable(msg)) =>
        // `response.text()` rejects before the status is looked at
        Submitted(s, Some(request), Alert("Error", "Failed to submit ticket: " + msg))
      case Replied(status, Body(body)) =>
        if IsOk(status) then
          Submitted(s.(description := "", dateCreated := today, status := DefaultStatus), Some(request),
                    Alert("Success", SubmittedMessage))
        else Submitted(s, Some(request), Alert("Error", body))
  }

  /** Opening the screen and submitting: a request goes out exactly when the
      store held all three credentials. */
  lemma SubmitAfterLoadNeedsAllCredentials(today: string, storedToken: Option<string>,
                                           storedUserId: Option<string>, storedUserType: Option<string>,
                                           reply: Reply<ResponseText>, later: string)
    ensures var loaded := LoadCredentials(InitialState(today), storedToken, storedUserId, storedUserType).state;
      (HandleCreateTicket(loaded, reply, later).request.Some?
       <==> Truthy(storedToken) && Truthy(storedUserId) && Truthy(storedUserType))
  {
  }

  /** An example: a student "42" reports a broken printer; the body
      names the student and sends no employee. */
  lemma StudentTicketScenario(reply: Reply<ResponseText>)
    ensures var s := CreateTicketState("broken printer", "2024-01-01", "To Do",
                                       Some("T1"), Some("42"), Some("student"), "Student");
      var o := HandleCreateTicket(s, reply, "2024-01-02");
      && o.request.Some?
      && o.request.value.payload
         == TicketPayload("broken printer", "2024-01-01", "To Do", Some(StudentRef("42")), None)
  {
  }
}
