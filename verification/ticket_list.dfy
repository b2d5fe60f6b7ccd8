/** The ticket-list screen: the credential guard, the classification of the
    list response, and the placeholders of each rendered row. */
module TicketList {
  import opened Js
  import opened Http
  import opened Strings

  datatype Staff = Staff(firstName: Option<string>, lastName: Option<string>)

  /** A ticket as the server lists it; every displayed field may be missing, while
      the id, which only keys the list row, is taken to be present. */
  datatype TicketItem = TicketItem(
    ticketId: int, issue: Option<string>, status: Option<string>,
    dateCreated: Option<string>, dateFinished: Option<string>, misStaff: Option<Staff>)

  datatype TicketListState = TicketListState(tickets: seq<TicketItem>, loading: bool, error: Option<string>)

  const InitialState := TicketListState([], true, None)

  /** A GET with its path and `Authorization` header. */
  datatype TicketsRequest = TicketsRequest(path: string, authorization: string)

  datatype Fetched = Fetched(state: TicketListState, request: Option<TicketsRequest>)

  const LoginAgainMessage := "User information or token not found. Please log in again."
  const NoTicketsMessage := "No tickets found for the given user."
  const ServerErrorMessage := "Failed to fetch tickets. Server error occurred."
  const NetworkErrorMessage := "Failed to fetch tickets. Please check your network connection."
  const TicketsPrefix := "/TicketService/tickets/user/"

  /** `fetchTickets`: read the three stored values, give up without a request
      when one is missing, otherwise classify the reply. */
  function FetchTickets(s: TicketListState, storedUserType: Option<string>, storedUserId: Option<string>,
                        storedToken: Option<string>, reply: Reply<seq<TicketItem>>): (o: Fetched)
    ensures !o.state.loading
    ensures o.request.Some? <==> Truthy(storedUserId) && Truthy(storedUserType) && Truthy(storedToken)
    ensures o.request.Some? ==>
      o.request.value == TicketsRequest(TicketsPrefix + storedUserId.value, "Bearer " + storedToken.value)
    ensures o.request.None? ==> o.state == s.(loading := false, error := Some(LoginAgainMessage))
    ensures o.request.Some? && reply.Threw? ==> o.state == s.(loading := false, error := Some(NetworkErrorMessage))
    ensures o.request.Some? && reply.Replied? && reply.status == 200 ==>
      o.state == s.(loading := false, tickets := reply.data)
    ensures o.request.Some? && reply.Replied? && reply.status == 204 ==>
      o.state == s.(loading := false, error := Some(NoTicketsMessage))
    ensures o.request.Some? && reply.Replied? && reply.status != 200 && reply.status != 204 ==>
      o.state == s.(loading := false, error := Some(ServerErrorMessage))
  {
    if !Truthy(storedUserId) || !Truthy(storedUserType) || !Truthy(storedToken) then
      Fetched(s.(error := Some(LoginAgainMessage), loading := false), None)
    else
      var request := TicketsRequest(TicketsPrefix + storedUserId.value, "Bearer " + storedToken.value);
      match reply
      case Threw(_) => Fetched(s.(error := Some(NetworkErrorMessage), loading := false), Some(request))
      case Replied(status, data) =>
        if status == 200 then Fetched(s.(tickets := data, loading := false), Some(request))
        else if status == 204 then Fetched(s.(error := Some(NoTicketsMessage), loading := false), Some(request))
        else Fetched(s.(error := Some(ServerErrorMessage), loading := false), Some(request))
  }

  /** The request depends on the user id and token only: the stored user type
      is checked for presence and otherwise ignored. */
  lemma RequestIgnoresUserType(s: TicketListState, t1: Option<string>, t2: Option<string>,
                               storedUserId: Option<string>, storedToken: Option<string>,
                               reply: Reply<seq<TicketItem>>)
    requires Truthy(t1) && Truthy(t2)
    ensures FetchTickets(s, t1, storedUserId, storedToken, reply) == FetchTickets(s, t2, storedUserId, storedToken, reply)
  {
  }

  /** From the opening state, "no content" leaves the list empty but shows an
      error, unlike a 200 with an empty list, which shows the empty table. */
  lemma NoContentIsAnError(storedUserType: Option<string>, storedUserId: Option<string>, storedToken: Option<string>)
    requires Truthy(storedUserId) && Truthy(storedUserType) && Truthy(storedToken)
    ensures var noContent := FetchTickets(InitialState, storedUserType, storedUserId, storedToken, Replied(204, [])).state;
            var emptyList := FetchTickets(InitialState, storedUserType, storedUserId, storedToken, Replied(200, [])).state;
      && noContent.tickets == emptyList.tickets == []
      && noContent.error == Some(NoTicketsMessage)
      && emptyList.error.None?
  {
  }

  datatype TicketRow = TicketRow(issue: string, status: string, dateCreated: string, dateFinished: string, staff: string)

  /** Whether a staff member with a truthy first or last name is assigned. */
  predicate Assigned(staff: Option<Staff>) {
    staff.Some? && (Truthy(staff.value.firstName) || Truthy(staff.value.lastName))
  }

  /** The staff column: the trimmed "first last" of an assigned staff member,
      missing parts shown as empty, else "Unassigned". */
  function StaffName(staff: Option<Staff>): (name: string) {
    if Assigned(staff) then
      Trim(OrElse(staff.value.firstName, "") + " " + OrElse(staff.value.lastName, ""))
    else "Unassigned"
  }

  /** A name with no whitespace at its ends. */
  predicate Clean(name: string) {
    name != [] && !IsWhitespace(name[0]) && !IsWhitespace(name[|name| - 1])
  }

  /** Both names present: they are joined by one space. */
  lemma StaffNameFull(first: string, last: string)
    requires Clean(first) && Clean(last)
    ensures StaffName(Some(Staff(Some(first), Some(last)))) == first + " " + last
  {
    var joined := first + " " + last;
    assert joined[0] == first[0] && joined[|joined| - 1] == last[|last| - 1];
    TrimUntrimmed(joined);
  }

  /** Only the first name present: the separating space is trimmed away. */
  lemma StaffNameFirstOnly(first: string, last: Option<string>)
    requires Clean(first) && !Truthy(last)
    ensures StaffName(Some(Staff(Some(first), last))) == first
  {
    var joined := first + " " + "";
    assert joined == first + [' '];
    assert TrimStart(joined) == joined;
    TrimEndDropsWhitespace(first, ' ');
    TrimUntrimmed(first);
  }

  /** Only the last name present: the leading space is trimmed away. */
  lemma StaffNameLastOnly(first: Option<string>, last: string)
    requires !Truthy(first) && Clean(last)
    ensures StaffName(Some(Staff(first, Some(last)))) == last
  {
    var joined := "" + " " + last;
    assert joined == [' '] + last;
    TrimStartDropsWhitespace(' ', last);
    TrimUntrimmed(last);
  }

  /** A staff member whose only name is blanks is assigned, yet shows as an empty name. */
  lemma BlankStaffNameIsEmpty()
    ensures StaffName(Some(Staff(Some("  "), None))) == ""
  {
    assert IsWhitespace(' ');
    assert TrimStart("   ") == TrimStart("  ") == TrimStart(" ") == "" by {
      assert "   "[1..] == "  " && "  "[1..] == " " && " "[1..] == "";
    }
  }

  /** Without an assigned staff member the column says "Unassigned". */
  lemma UnassignedStaff(staff: Option<Staff>)
    requires staff.None? || (!Truthy(staff.value.firstName) && !Truthy(staff.value.lastName))
    ensures StaffName(staff) == "Unassigned"
  {
  }

  /** `renderItem`: each field, or its placeholder when falsy; dates go through
      the locale formatter `formatDate`. A placeholder in the issue or status
      column means the field was missing, unless the field literally holds the
      placeholder text; a truthy field is shown exactly. */
  function RenderRow(item: TicketItem, formatDate: string -> string): (row: TicketRow)
    ensures row.issue != "" && row.status != ""
    ensures item.issue != Some("No Issue") ==> (row.issue == "No Issue" <==> !Truthy(item.issue))
    ensures item.status != Some("No Status") ==> (row.status == "No Status" <==> !Truthy(item.status))
    ensures Truthy(item.issue) ==> row.issue == item.issue.value
    ensures Truthy(item.status) ==> row.status == item.status.value
    ensures !Truthy(item.dateCreated) ==> row.dateCreated == "No Date"
    ensures !Truthy(item.dateFinished) ==> row.dateFinished == "N/A"
    ensures Truthy(item.dateCreated) ==> row.dateCreated == formatDate(item.dateCreated.value)
    ensures Truthy(item.dateFinished) ==> row.dateFinished == formatDate(item.dateFinished.value)
    ensures row.staff == StaffName(item.misStaff)
  {
    TicketRow(
      OrElse(item.issue, "No Issue"),
      OrElse(item.status, "No Status"),
      if Truthy(item.dateCreated) then formatDate(item.dateCreated.value) else "No Date",
      if Truthy(item.dateFinished) then formatDate(item.dateFinished.value) else "N/A",
      StaffName(item.misStaff))
  }

  /** A ticket with nothing filled in renders as placeholders only. */
  lemma EmptyTicketRendersPlaceholders(ticketId: int, formatDate: string -> string)
    ensures RenderRow(TicketItem(ticketId, None, None, None, None, None), formatDate)
            == TicketRow("No Issue", "No Status", "No Date", "N/A", "Unassigned")
  {
  }

  /** The rows of the listed tickets, in order. */
  function RenderRows(tickets: seq<TicketItem>, formatDate: string -> string): (rows: seq<TicketRow>)
    ensures |rows| == |tickets|
    ensures forall i :: 0 <= i < |tickets| ==> rows[i] == RenderRow(tickets[i], formatDate)
    ensures forall i :: 0 <= i < |rows| ==> rows[i].issue != "" && rows[i].status != ""
  {
    seq(|tickets|, i requires 0 <= i < |tickets| => RenderRow(tickets[i], formatDate))
  }

  /** Rendering is per ticket: the rows of two lists joined are the two lists' rows joined. */
  lemma RenderRowsAppend(a: seq<TicketItem>, b: seq<TicketItem>, formatDate: string -> string)
    ensures RenderRows(a + b, formatDate) == RenderRows(a, formatDate) + RenderRows(b, formatDate)
  {
  }
}
