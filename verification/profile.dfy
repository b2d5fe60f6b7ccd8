/** The profile screen: the bounded token poll, the session guard, the
    role-dependent endpoint, and the placeholders of the rendered fields. */
module Profile {
  import opened Js
  import opened Http
  import opened Strings

  /** At most this many store reads of the token. Each rejected read is
      followed by a 500 ms pause, which the model counts but does not time. */
  const MaxAttempts: nat := 3

  /** A token read the poll accepts: present, not the string "null", not empty. */
  predicate Usable(token: Option<string>) {
    token.Some? && token.value != "null" && token.value != ""
  }

  /** The poll's result: the last value read, how many reads and how many sleeps it took. */
  datatype Poll = Poll(token: Option<string>, attempts: nat, sleeps: nat)

  /** Reference reading of the poll, attempt by attempt: stop at the first
      usable read; after a rejected read sleep once and try again, up to the bound.
      `answers[i]` is what the store answers at attempt `i + 1`. */
  function PollFrom(answers: seq<Option<string>>, attempt: nat): Poll
    requires |answers| >= MaxAttempts && attempt < MaxAttempts
    decreases MaxAttempts - attempt
  {
    if Usable(answers[attempt]) then Poll(answers[attempt], attempt + 1, attempt)
    else if attempt == MaxAttempts - 1 then Poll(answers[attempt], MaxAttempts, MaxAttempts)
    else PollFrom(answers, attempt + 1)
  }

  function PollSpec(answers: seq<Option<string>>): Poll
    requires |answers| >= MaxAttempts
  {
    PollFrom(answers, 0)
  }

  /** `getTokenWithRetry`, as the loop it is. */
  method GetTokenWithRetry(answers: seq<Option<string>>) returns (p: Poll)
    requires |answers| >= MaxAttempts
    ensures 1 <= p.attempts <= MaxAttempts
    ensures p.token == answers[p.attempts - 1]
    ensures forall i :: 0 <= i < p.attempts - 1 ==> !Usable(answers[i])
    ensures Usable(p.token) || p.attempts == MaxAttempts
    ensures p.sleeps == (if Usable(p.token) then p.attempts - 1 else p.attempts)
    ensures p == PollSpec(answers)
  {
    var token: Option<string> := None;
    var readCount: nat := 0;
    var sleeps: nat := 0;
    var attempt: nat := 1;
    while attempt <= MaxAttempts
      invariant 1 <= attempt <= MaxAttempts + 1
      invariant readCount == attempt - 1 && sleeps == readCount
      invariant forall i :: 0 <= i < readCount ==> !Usable(answers[i])
      invariant readCount > 0 ==> token == answers[readCount - 1]
      invariant readCount < MaxAttempts ==> PollSpec(answers) == PollFrom(answers, readCount)
      invariant readCount == MaxAttempts ==> PollSpec(answers) == Poll(token, MaxAttempts, MaxAttempts)
      decreases MaxAttempts + 1 - attempt
    {
      token := answers[attempt - 1];
      readCount := readCount + 1;
      if Usable(token) {
        break;
      }
      sleeps := sleeps + 1;
      attempt := attempt + 1;
    }
    p := Poll(token, readCount, sleeps);
  }

  /** The reference poll makes at most three reads, sleeps once per rejected
      read, and returns the last value read. */
  lemma {:induction false} PollFromShape(answers: seq<Option<string>>, attempt: nat)
    requires |answers| >= MaxAttempts && attempt < MaxAttempts
    ensures var p := PollFrom(answers, attempt);
      && attempt < p.attempts <= MaxAttempts
      && p.token == answers[p.attempts - 1]
      && (forall i :: attempt <= i < p.attempts - 1 ==> !Usable(answers[i]))
      && p.sleeps == (if Usable(p.token) then p.attempts - 1 else p.attempts)
    decreases MaxAttempts - attempt
  {
    if !Usable(answers[attempt]) && attempt < MaxAttempts - 1 {
      PollFromShape(answers, attempt + 1);
    }
  }

  /** When the token shows up at the second read, the poll stops there:
      two reads, one sleep, no third attempt. */
  lemma TokenOnSecondRead(answers: seq<Option<string>>)
    requires |answers| >= MaxAttempts
    requires !Usable(answers[0]) && Usable(answers[1])
    ensures PollSpec(answers) == Poll(answers[1], 2, 1)
  {
  }

  /** Three rejected reads give three reads, three sleeps and the third value. */
  lemma NoTokenOnAnyRead(answers: seq<Option<string>>)
    requires |answers| >= MaxAttempts
    requires !Usable(answers[0]) && !Usable(answers[1]) && !Usable(answers[2])
    ensures PollSpec(answers) == Poll(answers[2], 3, 3)
  {
  }

  datatype RouteParams = RouteParams(userId: Option<string>, userType: Option<string>)

  /** The profile as the server returns it; every field may be missing. */
  datatype ProfileData = ProfileData(
    firstName: Option<string>, middleName: Option<string>, lastName: Option<string>,
    email: Option<string>, contactNumber: Option<string>, address: Option<string>,
    studentNumber: Option<string>, birthdate: Option<string>)

  const EmptyProfile := ProfileData(None, None, None, None, None, None, None, None)

  /** The screen's state. `userType` and `userId` are state the handler never sets. */
  datatype ProfileState = ProfileState(
    userType: Option<string>, userId: Option<string>, profile: ProfileData,
    loading: bool, error: Option<string>)

  const InitialState := ProfileState(None, None, EmptyProfile, true, None)

  /** A GET with its path and `Authorization` header. */
  datatype ProfileRequest = ProfileRequest(path: string, authorization: string)

  datatype ProfileFetch = ProfileFetch(state: ProfileState, poll: Poll, request: Option<ProfileRequest>, sessionExpired: bool)

  const SessionMissingMessage := "User information or token not found. Please log in again."
  const FetchFailedMessage := "An error occurred while fetching profile data. Please try again."
  const EmployeePrefix := "/EmployeeService/employee/"
  const StudentPrefix := "/StudentService/student/"

  /** The endpoint: the employee service for `employee`, the student service for every other type. */
  function ProfilePath(userType: string, userId: string): (path: string) {
    (if userType == "employee" then EmployeePrefix else StudentPrefix) + userId
  }

  /** The path tells which service was chosen and for which user id. */
  lemma ProfilePathDecodes(t1: string, id1: string, t2: string, id2: string)
    requires ProfilePath(t1, id1) == ProfilePath(t2, id2)
    ensures id1 == id2
    ensures t1 == "employee" <==> t2 == "employee"
  {
    var p := ProfilePath(t1, id1);
    assert p[1] == (if t1 == "employee" then 'E' else 'S');
    assert p[1] == (if t2 == "employee" then 'E' else 'S');
    var n := if t1 == "employee" then |EmployeePrefix| else |StudentPrefix|;
    assert id1 == p[n..] == id2;
  }

  /** `fetchProfileData`: poll for the token, take user id and type from the
      route when truthy and from the store otherwise, check all three, then
      request the profile from the endpoint the user type selects. */
  function FetchProfile(s: ProfileState, answers: seq<Option<string>>, params: RouteParams,
                        storedUserId: Option<string>, storedUserType: Option<string>,
                        reply: Reply<ProfileData>): (o: ProfileFetch)
    requires |answers| >= MaxAttempts
    ensures o.poll == PollSpec(answers)
    ensures !o.state.loading
    ensures o.state.userType == s.userType && o.state.userId == s.userId
    ensures var userId := Either(params.userId, storedUserId);
            var userType := Either(params.userType, storedUserType);
      && (o.request.Some? <==> Truthy(userId) && Truthy(userType) && Truthy(o.poll.token))
      && (o.request.Some? ==>
            && o.request.value.authorization == "Bearer " + o.poll.token.value
            && o.request.value.path == ProfilePath(userType.value, userId.value))
    ensures o.request.None? ==>
      o.sessionExpired && o.state.error == Some(SessionMissingMessage) && o.state.profile == s.profile
    ensures o.request.Some? && reply.Threw? ==>
      !o.sessionExpired && o.state.error == Some(FetchFailedMessage) && o.state.profile == s.profile
    ensures o.request.Some? && reply.Replied? ==>
      !o.sessionExpired && o.state.error == s.error && o.state.profile == reply.data
  {
    var poll := PollSpec(answers);
    var token := poll.token;
    var userId := Either(params.userId, storedUserId);
    var userType := Either(params.userType, storedUserType);
    if !Truthy(userId) || !Truthy(userType) || !Truthy(token) then
      ProfileFetch(s.(error := Some(SessionMissingMessage), loading := false), poll, None, true)
    else
      var request := ProfileRequest(ProfilePath(userType.value, userId.value), "Bearer " + token.value);
      match reply
      case Threw(_) => ProfileFetch(s.(error := Some(FetchFailedMessage), loading := false), poll, Some(request), false)
      case Replied(_, data) => ProfileFetch(s.(profile := data, loading := false), poll, Some(request), false)
  }

  /** The guard accepts the literal token "null": it is a truthy string, although
      the poll treats it as not yet written. */
  lemma NullStringTokenPassesGuard(s: ProfileState, params: RouteParams, reply: Reply<ProfileData>)
    requires Truthy(params.userId) && Truthy(params.userType)
    ensures var answers := [Some("null"), Some("null"), Some("null")];
      var o := FetchProfile(s, answers, params, None, None, reply);
      && o.poll == Poll(Some("null"), 3, 3)
      && o.request.Some? && o.request.value.authorization == "Bearer null"
  {
    assert !Usable(Some("null"));
  }

  /** With no token at all after three answers, nothing is requested. */
  lemma MissingTokenMakesNoRequest(s: ProfileState, answers: seq<Option<string>>, params: RouteParams,
                                   storedUserId: Option<string>, storedUserType: Option<string>,
                                   reply: Reply<ProfileData>)
    requires |answers| >= MaxAttempts
    requires answers[0] == None && answers[1] == None && answers[2] == None
    ensures FetchProfile(s, answers, params, storedUserId, storedUserType, reply).request.None?
  {
    NoTokenOnAnyRead(answers);
  }

  /** Route parameters win over stored values when truthy. */
  lemma RouteParamsTakePrecedence(s: ProfileState, answers: seq<Option<string>>, params: RouteParams,
                                  storedUserId: Option<string>, storedUserType: Option<string>,
                                  reply: Reply<ProfileData>)
    requires |answers| >= MaxAttempts
    requires Truthy(params.userId) && Truthy(params.userType) && Truthy(PollSpec(answers).token)
    ensures var o := FetchProfile(s, answers, params, storedUserId, storedUserType, reply);
      o.request.Some? && o.request.value.path == ProfilePath(params.userType.value, params.userId.value)
  {
  }

  datatype Row = Row(caption: string, value: string)

  /** A field as displayed: its value when truthy, else "N/A". */
  function Display(v: Option<string>): (r: string)
    ensures r != ""
    ensures Truthy(v) ==> r == v.value
    ensures !Truthy(v) ==> r == "N/A"
  {
    OrElse(v, "N/A")
  }

  /** The captions of the profile card, top to bottom. */
  function Captions(student: bool): seq<string> {
    ["First Name", "Middle Name", "Last Name", "Email", "Contact Number", "Address"]
    + (if student then ["Student Number"] else []) + ["Birthdate"]
  }

  /** The profile field each caption shows. */
  function FieldFor(p: ProfileData, caption: string): Option<string> {
    match caption
    case "First Name" => p.firstName
    case "Middle Name" => p.middleName
    case "Last Name" => p.lastName
    case "Email" => p.email
    case "Contact Number" => p.contactNumber
    case "Address" => p.address
    case "Student Number" => p.studentNumber
    case "Birthdate" => p.birthdate
    case _ => None
  }

  /** The rendered field rows; the student number row is rendered only when the
      `userType` state is "student". */
  function ProfileRows(s: ProfileState): (rows: seq<Row>)
    ensures |rows| == |Captions(s.userType == Some("student"))|
    ensures forall i :: 0 <= i < |rows| ==>
      && rows[i].caption == Captions(s.userType == Some("student"))[i]
      && rows[i].value == Display(FieldFor(s.profile, rows[i].caption))
    ensures (exists i :: 0 <= i < |rows| && rows[i].caption == "Student Number") <==> s.userType == Some("student")
    ensures forall i :: 0 <= i < |rows| ==> (rows[i].value == "N/A" || rows[i].value in ProfileValues(s.profile))
  {
    var p := s.profile;
    var rows :=
    [Row("First Name", Display(p.firstName)), Row("Middle Name", Display(p.middleName)),
     Row("Last Name", Display(p.lastName)), Row("Email", Display(p.email)),
     Row("Contact Number", Display(p.contactNumber)), Row("Address", Display(p.address))]
    + (if s.userType == Some("student") then [Row("Student Number", Display(p.studentNumber))] else [])
    + [Row("Birthdate", Display(p.birthdate))];
    assert s.userType == Some("student") ==> rows[6].caption == "Student Number";
    rows
  }

  /** The values the server supplied. */
  function ProfileValues(p: ProfileData): set<string> {
    set v | v in [p.firstName, p.middleName, p.lastName, p.email, p.contactNumber, p.address, p.studentNumber, p.birthdate]
              && v.Some? :: v.value
  }

  /** Because the handler keeps user id and type in locals, the screen opened
      from its initial state never shows the student number row, even for a student. */
  lemma StudentNumberNeverShown(answers: seq<Option<string>>, params: RouteParams,
                                storedUserId: Option<string>, storedUserType: Option<string>,
                                reply: Reply<ProfileData>)
    requires |answers| >= MaxAttempts
    ensures var rows := ProfileRows(FetchProfile(InitialState, answers, params, storedUserId, storedUserType, reply).state);
      forall i :: 0 <= i < |rows| ==> rows[i].caption != "Student Number"
  {
  }

  /** `handleEditProfile`: the parameters passed to the edit screen are the state's. */
  function EditProfileParams(s: ProfileState): RouteParams {
    RouteParams(s.userId, s.userType)
  }

  /** Consequently the edit screen always receives neither a user id nor a user type. */
  lemma EditProfileGetsNoIds(answers: seq<Option<string>>, params: RouteParams,
                             storedUserId: Option<string>, storedUserType: Option<string>,
                             reply: Reply<ProfileData>)
    requires |answers| >= MaxAttempts
    ensures EditProfileParams(FetchProfile(InitialState, answers, params, storedUserId, storedUserType, reply).state)
            == RouteParams(None, None)
  {
  }
}
