/** The login screen's handler: one request, then either the credential
    writes or the removal of all three keys. */
module Login {
  import opened Js
  import opened Http
  import opened Strings
  import opened CredentialStore

  /** The parsed response body. `Malformed` is a body whose JSON parse rejects;
      `NullBody` is the JSON text `null`, on which reading a field throws the
      carried `TypeError` message. */
  datatype LoginBody =
    | Json(token: Option<string>, userId: Option<string>, role: Option<string>, username: Field)
    | Malformed(parseError: string)
    | NullBody(typeError: string)

  /** The `Authorization` response header and the body. */
  datatype LoginReply = LoginReply(authorization: Option<string>, body: LoginBody)

  datatype LoginResult =
    | LoggedIn(token: string, welcome: string)   // navigates Home with this token
    | LoginFailed(message: string)                // the error alert's text

  /** The handler's effect: the store operations it performs, in order, and its result. */
  datatype LoginOutcome = LoginOutcome(ops: seq<StoreOp>, result: LoginResult)

  const BearerPrefix := "Bearer "
  const LoginRejected := "Login failed. Please check your username and password."
  const TokenNotFound := "Token not found in response."

  /** The server's role labels and the user types stored for them. */
  const RoleTable: map<string, string> :=
    map["ROLE_MISSTAFF" := "misStaff", "ROLE_STUDENT" := "student", "ROLE_EMPLOYEE" := "employee"]

  /** The if-chain that turns the role label into the stored user type. */
  function UserTypeFor(role: Option<string>): (userType: string) {
    if role == Some("ROLE_MISSTAFF") then "misStaff"
    else if role == Some("ROLE_STUDENT") then "student"
    else if role == Some("ROLE_EMPLOYEE") then "employee"
    else ""
  }

  /** The if-chain is a lookup in the fixed role table, and an unknown or
      absent label gives the empty user type (never a fourth type). */
  lemma UserTypeForIsTableLookup(role: Option<string>)
    ensures UserTypeFor(role) == (if role.Some? && role.value in RoleTable then RoleTable[role.value] else "")
    ensures UserTypeFor(role) in {"misStaff", "student", "employee", ""}
    ensures UserTypeFor(role) == "" <==> !(role.Some? && role.value in RoleTable)
  {
  }

  /** The token the handler goes on with: the header when truthy, else the body
      field when truthy; `None` when neither supplies one. */
  function TokenFrom(header: Option<string>, bodyToken: Option<string>): (t: Option<string>)
    ensures t.Some? ==> Truthy(t)
    ensures t.None? <==> !Truthy(header) && !Truthy(bodyToken)
    ensures Truthy(header) ==> t == header
    ensures !Truthy(header) ==> t == Either(bodyToken, None)
  {
    if Truthy(header) then header
    else if Truthy(bodyToken) then bodyToken
    else None
  }

  /** `token.replace('Bearer ', '')`: the first occurrence, wherever it is. */
  function StripBearer(token: string): (raw: string) {
    ReplaceFirst(token, BearerPrefix, "")
  }

  /** Operations for a successful login: the token always, the others only when non-empty. */
  function CredentialWrites(rawToken: string, userId: Option<string>, userType: string): (ops: seq<StoreOp>)
    ensures |ops| >= 1 && ops[0] == SetItem(AuthToken, rawToken)
    ensures forall i :: 0 <= i < |ops| ==> ops[i].SetItem?
  {
    [SetItem(AuthToken, rawToken)]
    + (if Truthy(userId) then [SetItem(UserId, userId.value)] else [])
    + (if userType != "" then [SetItem(UserType, userType)] else [])
  }

  /** True when the reply is an ok one whose body is `null` and whose header
      supplies a token: the token is written before the body is read. */
  predicate WritesBeforeThrowing(reply: Reply<LoginReply>) {
    reply.Replied? && IsOk(reply.status) && reply.data.body.NullBody? && Truthy(reply.data.authorization)
  }

  function HandleLogin(reply: Reply<LoginReply>): (o: LoginOutcome)
    ensures o.result.LoginFailed? && !WritesBeforeThrowing(reply) ==> o.ops == Teardown
    ensures WritesBeforeThrowing(reply) ==>
      o.ops == [SetItem(AuthToken, StripBearer(reply.data.authorization.value))] + Teardown
    ensures o.result.LoggedIn? <==>
      && reply.Replied? && IsOk(reply.status)
      && reply.data.body.Json?
      && TokenFrom(reply.data.authorization, reply.data.body.token).Some?
    ensures o.result.LoggedIn? ==>
      && o.result.token == StripBearer(TokenFrom(reply.data.authorization, reply.data.body.token).value)
      && o.result.welcome == "Welcome, " + Show(reply.data.body.username) + "!"
      && |o.ops| >= 1 && o.ops[0] == SetItem(AuthToken, o.result.token)
      && (forall i :: 0 <= i < |o.ops| ==> o.ops[i].SetItem?)
    ensures reply.Threw? ==> o.result == LoginFailed(reply.error.message)
    ensures reply.Replied? && !IsOk(reply.status) ==> o.result == LoginFailed(LoginRejected)
    ensures reply.Replied? && IsOk(reply.status) ==>
      match reply.data.body
      case Malformed(msg) => o.result == LoginFailed(msg)
      case NullBody(msg) => o.result == LoginFailed(msg)
      case Json(bodyToken, _, _, _) =>
        TokenFrom(reply.data.authorization, bodyToken).None? ==> o.result == LoginFailed(TokenNotFound)
  {
    match reply
    case Threw(e) => LoginOutcome(Teardown, LoginFailed(e.message))
    case Replied(status, r) =>
      if !IsOk(status) then LoginOutcome(Teardown, LoginFailed(LoginRejected))
      else
        match r.body
        case Malformed(msg) => LoginOutcome(Teardown, LoginFailed(msg))
        case NullBody(msg) =>
          // `!token && data.token` reads the body only when the header gives no token
          if Truthy(r.authorization) then
            LoginOutcome([SetItem(AuthToken, StripBearer(r.authorization.value))] + Teardown, LoginFailed(msg))
          else LoginOutcome(Teardown, LoginFailed(msg))
        case Json(bodyToken, userId, role, username) =>
          var token := TokenFrom(r.authorization, bodyToken);
          if token.None? then LoginOutcome(Teardown, LoginFailed(TokenNotFound))
          else
            var rawToken := StripBearer(token.value);
            LoginOutcome(CredentialWrites(rawToken, userId, UserTypeFor(role)),
                         LoggedIn(rawToken, "Welcome, " + Show(username) + "!"))
  }

  /** The store after the handler has run. */
  function StoreAfterLogin(store: Store, reply: Reply<LoginReply>): Store {
    Apply(store, HandleLogin(reply).ops)
  }

  /** Any failure leaves all three keys absent, whatever the store held before. */
  lemma FailedLoginEmptiesStore(store: Store, reply: Reply<LoginReply>)
    requires HandleLogin(reply).result.LoginFailed?
    ensures IsEmpty(StoreAfterLogin(store, reply))
    ensures StoreAfterLogin(store, reply) == map[]
  {
    var ops := HandleLogin(reply).ops;
    if WritesBeforeThrowing(reply) {
      var write := [SetItem(AuthToken, StripBearer(reply.data.authorization.value))];
      ApplyAppend(store, write, Teardown);
      TeardownEmpties(Apply(store, write));
    } else {
      TeardownEmpties(store);
    }
  }

  /** A `null` username is shown as "null", a missing one as "undefined". */
  lemma NullUsernameWelcome()
    ensures HandleLogin(Replied(200, LoginReply(None, Json(Some("T1"), None, None, Null)))).result
            == LoggedIn("T1", "Welcome, null!")
    ensures HandleLogin(Replied(200, LoginReply(None, Json(Some("T1"), None, None, Missing)))).result
            == LoggedIn("T1", "Welcome, undefined!")
  {
    ReplaceFirstWithoutMatch("T1", BearerPrefix, "");
  }

  /** Nothing stops a second press while a first one is pending, and the
      handler's store operations are not atomic. An example: a press rejected
      with 401 and a successful press for user "42" interleave their operations;
      the failing run's teardown then leaves the new user id and type in place
      but no token. */
  lemma OverlappingLoginsLeavePartialTriple(store: Store)
    ensures var rejected := HandleLogin(Replied(401, LoginReply(None, Malformed("")))).ops;
      var accepted := HandleLogin(Replied(200, LoginReply(None, Json(Some("T1"), Some("42"), Some("ROLE_STUDENT"), Text("u1"))))).ops;
      && |rejected| == 3 && |accepted| == 3
      && var mixed := [accepted[0], rejected[0], accepted[1], rejected[1], accepted[2], rejected[2]];
         && Get(Apply(store, mixed), AuthToken) == None
         && Get(Apply(store, mixed), UserId) == Some("42")
         && Get(Apply(store, mixed), UserType) == Some("student")
  {
    ReplaceFirstWithoutMatch("T1", BearerPrefix, "");
    var accepted := [SetItem(AuthToken, "T1"), SetItem(UserId, "42"), SetItem(UserType, "student")];
    assert HandleLogin(Replied(200, LoginReply(None, Json(Some("T1"), Some("42"), Some("ROLE_STUDENT"), Text("u1"))))).ops
           == accepted;
    var mixed := [accepted[0], Teardown[0], accepted[1], Teardown[1], accepted[2], Teardown[2]];
    ApplyGet(store, mixed, AuthToken);
    ApplyGet(store, mixed, UserId);
    ApplyGet(store, mixed, UserType);
    ValueAfterLastTouch(mixed, AuthToken, Get(store, AuthToken), 5);
    ValueAfterLastTouch(mixed, UserId, Get(store, UserId), 2);
    ValueAfterLastTouch(mixed, UserType, Get(store, UserType), 4);
  }

  /** A non-ok status performs no write at all: its only operations are the removals. */
  lemma RejectedLoginNeverWrites(reply: Reply<LoginReply>)
    requires reply.Replied? && !IsOk(reply.status)
    ensures forall i :: 0 <= i < |HandleLogin(reply).ops| ==> HandleLogin(reply).ops[i].RemoveItem?
  {
  }

  /** After a successful login the token is stored, the user id and type are
      stored when non-empty, and otherwise keep what the store held. */
  lemma {:induction false} SuccessfulLoginStore(store: Store, reply: Reply<LoginReply>)
    requires HandleLogin(reply).result.LoggedIn?
    ensures Get(StoreAfterLogin(store, reply), AuthToken) == Some(HandleLogin(reply).result.token)
    ensures Get(StoreAfterLogin(store, reply), UserId) ==
      (if Truthy(reply.data.body.userId) then reply.data.body.userId else Get(store, UserId))
    ensures Get(StoreAfterLogin(store, reply), UserType) ==
      (var t := UserTypeFor(reply.data.body.role); if t != "" then Some(t) else Get(store, UserType))
  {
    var ops := HandleLogin(reply).ops;
    ApplyGet(store, ops, AuthToken);
    ApplyGet(store, ops, UserId);
    ApplyGet(store, ops, UserType);
    var body := reply.data.body;
    var raw := HandleLogin(reply).result.token;
    var t := UserTypeFor(body.role);
    ValueAfterLastTouch(ops, AuthToken, Get(store, AuthToken), 0);
    if Truthy(body.userId) {
      ValueAfterLastTouch(ops, UserId, Get(store, UserId), 1);
    } else {
      ValueAfterUntouched(ops, UserId, Get(store, UserId));
    }
    if t != "" {
      ValueAfterLastTouch(ops, UserType, Get(store, UserType), |ops| - 1);
    } else {
      ValueAfterUntouched(ops, UserType, Get(store, UserType));
    }
  }

  /** A token that starts with the prefix is stored without it. */
  lemma StripBearerOfPrefixedToken(token: string)
    requires StartsWith(token, BearerPrefix)
    ensures StripBearer(token) == token[|BearerPrefix|..]
  {
    ReplaceFirstOfPrefix(token, BearerPrefix, "");
  }

  /** Only the first occurrence is removed, so a doubled prefix keeps one copy. */
  lemma StripBearerKeepsSecondPrefix()
    ensures StripBearer("Bearer Bearer abc") == "Bearer abc"
  {
    StripBearerOfPrefixedToken("Bearer Bearer abc");
  }

  /** An occurrence after the start of the token is removed as well: any text
      without a "B" before the prefix is kept, as is everything after it. */
  lemma StripBearerInsideToken(before: string, after: string)
    requires forall i :: 0 <= i < |before| ==> before[i] != 'B'
    ensures StripBearer(before + BearerPrefix + after) == before + after
  {
    var s := before + BearerPrefix + after;
    var n := |before|;
    assert s[n..n + |BearerPrefix|] == BearerPrefix;
    forall j | 0 <= j < n
      ensures !OccursAt(s, BearerPrefix, j)
    {
      assert s[j] == before[j];
    }
    ReplaceFirstAt(s, BearerPrefix, "", n);
    assert s[..n] == before;
    assert s[n + |BearerPrefix|..] == after;
  }

  /** An example: a body token, user id "42" and a student role give a
      session for "42" as a student. */
  lemma StudentLoginScenario(store: Store)
    ensures var reply := Replied(200, LoginReply(None, Json(Some("T1"), Some("42"), Some("ROLE_STUDENT"), Text("u1"))));
      && HandleLogin(reply).result == LoggedIn("T1", "Welcome, u1!")
      && Get(StoreAfterLogin(store, reply), AuthToken) == Some("T1")
      && Get(StoreAfterLogin(store, reply), UserId) == Some("42")
      && Get(StoreAfterLogin(store, reply), UserType) == Some("student")
  {
    var reply := Replied(200, LoginReply(None, Json(Some("T1"), Some("42"), Some("ROLE_STUDENT"), Text("u1"))));
    ReplaceFirstWithoutMatch("T1", BearerPrefix, "");
    SuccessfulLoginStore(store, reply);
  }
}
