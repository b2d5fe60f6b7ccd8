# Ticketing mobile client: session and ticket core, modelled in Dafny

This project models the decision logic of the ticketing system's React Native
client. The network, the device's key/value store, navigation and alerts
become plain values. Each screen handler is a pure function. It takes the
screen's state and the server's reply, and it returns the new state, the
request it would send (or none), and the navigation or alert it would raise.

Modules, leaf first:

- `Js`: `null`/`undefined` as `Option`, JavaScript truthiness of strings, and the `||` fallback.
- `Http`: a reply is either thrown (`Threw`, carrying `error.message` and
  `error.response?.data?.message`) or a status with a body (`Replied`). `IsOk` is fetch's `response.ok`.
- `Strings`: `indexOf` / `replace` with a string pattern (first occurrence only), `trim`
  with the ECMAScript whitespace set, and the `/[^a-zA-Z0-9]/` test.
- `CredentialStore`: the three keys `authToken`, `userId` and `userType`, and store
  operations as a sequence (`SetItem`, `RemoveItem`). It also has a reference reading,
  "a key holds what the last operation on it left", which is proved to agree with performing the operations.
- `Login`: `handleLogin`. Token from the `Authorization` header, else from the body.
  The first `"Bearer "` is removed. The role label maps to a user type. The token is always
  written, even when it is empty (a header of exactly `"Bearer "` stores `""`); the user id and
  type are written only when non-empty. Every failure runs the three-key teardown.
- `Profile`: the three-read token poll (`GetTokenWithRetry`, a loop proved against a
  recursive reference), the route-over-store precedence, the session guard, the
  employee/student endpoint, and the rendered field rows.
- `CreateTicket`: loading the credentials, the reporter label, the submit guard,
  the payload with at most one of `student` / `employee`, and the reset after success.
- `TicketList`: the guard, the classification of the list reply, and the row placeholders
  with the trimmed staff name.
- `ForgotPassword`: the two handlers and a user-event model of the two-stage screen, in which the
  OTP request's reply is an event of its own so that typing can happen while it is pending.
- `Otp`, `Register`: the local empty checks and the requests or hand-offs they make.

Behaviours of the code worth knowing:

- An unknown role label writes no user type: nothing is stored, and a previously stored `userType` stays.
  It does not become an "Unknown" role.
- A 204 from the ticket list shows the error "No tickets found for the given user." It is not an empty result.
- The session guard uses truthiness. So a poll that ends on the literal token `"null"` still sends a request,
  with `Authorization: Bearer null`. Running out of attempts does not by itself mean a missing session.
- The credential triple is not written atomically. On success, an empty user id or an unmapped
  role leaves the previously stored value in place. Only failures clear all three keys.
- The Login button is never disabled, so a second press can start while a first is pending, and the two runs'
  store operations interleave. A rejected press whose teardown interleaves with a successful one can leave the
  new user id and type stored without a token.
- The profile screen keeps `userId` and `userType` in locals, so its state never learns them.
  Because of that, the student-number row is never rendered and the edit screen receives neither value.
- The username field stays editable while the OTP request is pending, and the reset request sends whatever
  the field then holds. So a reset can carry a username the alphanumeric check would reject.
- A JSON `null` login body with a token header writes `authToken` before reading the body throws; the
  teardown then removes it again.

## Model

| member | source | states |
|---|---|---|
| Login.UserTypeForIsTableLookup | Ticketing-System-Mobile/MobileApp/screens/authentication/LoginScreen.js:52-56 | the role if-chain is a lookup in the fixed table ROLE_MISSTAFF/ROLE_STUDENT/ROLE_EMPLOYEE → misStaff/student/employee; any other or missing label gives '' and never a fourth type |
| Login.TokenFrom | Ticketing-System-Mobile/MobileApp/screens/authentication/LoginScreen.js:34-44 | a truthy header wins; the body token is used only when the header is absent or empty; no token exactly when neither is truthy |
| Login.CredentialWrites | Ticketing-System-Mobile/MobileApp/screens/authentication/LoginScreen.js:49-59 | a successful login's writes start with the token and contain no removal |
| Login.HandleLogin | Ticketing-System-Mobile/MobileApp/screens/authentication/LoginScreen.js:12-73 | success iff an ok status, a parsed non-null body and some token; the stored token is the received one with the first "Bearer " removed, and the welcome shows the username field; every failure performs the teardown (after the token write when a null body follows a token header), with the message of its cause: the thrown error, the fixed rejection text for a non-ok status, the parse or type error, or 'Token not found in response.' |
| Login.NullUsernameWelcome | Ticketing-System-Mobile/MobileApp/screens/authentication/LoginScreen.js:61 | a `null` username is welcomed as "null", a missing one as "undefined" |
| Login.FailedLoginEmptiesStore | Ticketing-System-Mobile/MobileApp/screens/authentication/LoginScreen.js:64-69 | after any failure all three keys are absent and the store is empty, whatever it held before |
| Login.OverlappingLoginsLeavePartialTriple | Ticketing-System-Mobile/MobileApp/screens/authentication/LoginScreen.js:49-69 | interleaving a rejected press's teardown with a successful press's writes leaves user id "42" and type "student" but no token |
| Login.RejectedLoginNeverWrites | Ticketing-System-Mobile/MobileApp/screens/authentication/LoginScreen.js:24-28 | a non-ok response performs only removals, no write |
| Login.SuccessfulLoginStore | Ticketing-System-Mobile/MobileApp/screens/authentication/LoginScreen.js:46-59 | after success the token is stored; user id and type are stored when non-empty and otherwise keep their previous values |
| Login.StripBearerOfPrefixedToken | Ticketing-System-Mobile/MobileApp/screens/authentication/LoginScreen.js:46 | a token beginning with "Bearer " is stored without those seven characters |
| Login.StripBearerKeepsSecondPrefix | Ticketing-System-Mobile/MobileApp/screens/authentication/LoginScreen.js:46 | only the first occurrence is removed: "Bearer Bearer abc" becomes "Bearer abc" |
| Login.StripBearerInsideToken | Ticketing-System-Mobile/MobileApp/screens/authentication/LoginScreen.js:46 | the removed occurrence need not be a prefix: a token "Bearer " preceded by text without a "B" loses just those seven characters ("abcBearer xyz" becomes "abcxyz") |
| Login.StudentLoginScenario | Ticketing-System-Mobile/MobileApp/screens/authentication/LoginScreen.js:30-62 | a body token T1, user id 42 and ROLE_STUDENT store T1 / 42 / student and welcome the user by name |
| CredentialStore.ApplyGet | Ticketing-System-Mobile/MobileApp/screens/authentication/LoginScreen.js:49-69 | performing store operations in order leaves each key with what the last operation on it left, or its old value |
| CredentialStore.TeardownEmpties | Ticketing-System-Mobile/MobileApp/screens/authentication/LoginScreen.js:67-69 | the three removals leave an empty store from any starting store |
| Profile.GetTokenWithRetry | Ticketing-System-Mobile/MobileApp/screens/ProfileScreen.js:19-28 | between one and three reads; stops at the first read that is present, not "null" and not empty; sleeps equal rejected reads (including a third); returns the last value read; equals the recursive reference poll |
| Profile.PollFromShape | Ticketing-System-Mobile/MobileApp/screens/ProfileScreen.js:21-27 | the reference poll reads at most three times, every read before the last was rejected, and one sleep follows each rejected read |
| Profile.TokenOnSecondRead | Ticketing-System-Mobile/MobileApp/screens/ProfileScreen.js:21-25 | a token usable at the second read ends the poll there: two reads, one sleep |
| Profile.NoTokenOnAnyRead | Ticketing-System-Mobile/MobileApp/screens/ProfileScreen.js:21-27 | three rejected reads: three reads, three sleeps, the third value returned |
| Profile.FetchProfile | Ticketing-System-Mobile/MobileApp/screens/ProfileScreen.js:30-60 | a request is made iff the route-or-stored user id and type and the polled token are all truthy; it goes to the endpoint for that type and id with the bearer token; otherwise the session error is set; loading always ends false; the screen's userType/userId state is never changed |
| Profile.ProfilePathDecodes | Ticketing-System-Mobile/MobileApp/screens/ProfileScreen.js:45-47 | the endpoint determines the user id and whether the employee service was chosen (only for type 'employee') |
| Profile.NullStringTokenPassesGuard | Ticketing-System-Mobile/MobileApp/screens/ProfileScreen.js:19-43 | three "null" reads exhaust the poll, yet the guard passes and the request carries "Bearer null" |
| Profile.MissingTokenMakesNoRequest | Ticketing-System-Mobile/MobileApp/screens/ProfileScreen.js:37-43 | with no token on all three reads nothing is requested |
| Profile.RouteParamsTakePrecedence | Ticketing-System-Mobile/MobileApp/screens/ProfileScreen.js:32-33 | truthy route parameters choose the endpoint regardless of the stored values |
| Profile.ProfileRows | Ticketing-System-Mobile/MobileApp/screens/ProfileScreen.js:97-120 | the rows follow the fixed caption order, with the student number row (before the birthdate) iff the userType state is 'student'; each row shows the field its caption names, its value when truthy and 'N/A' otherwise; each value is a server value or 'N/A' |
| Profile.StudentNumberNeverShown | Ticketing-System-Mobile/MobileApp/screens/ProfileScreen.js:11-33 | after fetching from the opening state no row is the student number, whatever the user type |
| Profile.EditProfileGetsNoIds | Ticketing-System-Mobile/MobileApp/screens/ProfileScreen.js:11-64 | after fetching from the opening state the edit screen receives neither a user id nor a type |
| CreateTicket.LoadCredentials | Ticketing-System-Mobile/MobileApp/screens/CreateTicketScreen.js:17-44 | all three credentials and the reporter label are taken iff all three stored values are truthy; otherwise the state is unchanged and an error alert is raised; the all-or-nothing shape is preserved |
| CreateTicket.Payload | Ticketing-System-Mobile/MobileApp/screens/CreateTicketScreen.js:61-70 | issue, date and status are the form's, unchanged; student is {studentNumber: userId} iff the type is 'student'; employee is {employeeNumber: userId} iff it is 'employee' |
| CreateTicket.PayloadHasAtMostOneReference | Ticketing-System-Mobile/MobileApp/screens/CreateTicketScreen.js:66-67 | never both references; any type other than student/employee (misStaff included) sends both as null |
| CreateTicket.ReporterMatchesPayload | Ticketing-System-Mobile/MobileApp/screens/CreateTicketScreen.js:37-67 | the reporter label is Student / Employee / Unknown exactly when the payload carries the student / employee / no reference |
| CreateTicket.HandleCreateTicket | Ticketing-System-Mobile/MobileApp/screens/CreateTicketScreen.js:55-99 | no request unless token, user id and type are all truthy; an ok reply resets description to '' and status to 'To Do'; a non-ok reply shows the raw body and keeps the form; a thrown request, or a reply whose text cannot be read, shows "Failed to submit ticket: " with the error and keeps the form |
| CreateTicket.SubmitAfterLoadNeedsAllCredentials | Ticketing-System-Mobile/MobileApp/screens/CreateTicketScreen.js:27-59 | opening the screen and submitting sends a request iff the store held all three credentials |
| CreateTicket.StudentTicketScenario | Ticketing-System-Mobile/MobileApp/screens/CreateTicketScreen.js:61-70 | student 42 reporting a broken printer sends {studentNumber: 42} and a null employee |
| TicketList.FetchTickets | Ticketing-System-Mobile/MobileApp/screens/TicketListScreen.js:15-47 | no request unless all three stored values are truthy; the URL uses only the user id; 200 sets the tickets, 204 the no-tickets error, other statuses the server error, a thrown request the network error; loading always ends false |
| TicketList.RequestIgnoresUserType | Ticketing-System-Mobile/MobileApp/screens/TicketListScreen.js:17-32 | any two truthy user types give the same request and outcome |
| TicketList.NoContentIsAnError | Ticketing-System-Mobile/MobileApp/screens/TicketListScreen.js:34-39 | a 204 shows an error, unlike a 200 with an empty list, although both leave the list empty |
| TicketList.RenderRow | Ticketing-System-Mobile/MobileApp/screens/TicketListScreen.js:52-64 | each falsy field renders as 'No Issue', 'No Status', 'No Date' or 'N/A'; issue and status cells are never empty and show the placeholder iff the field is falsy (unless it holds the placeholder text itself); truthy fields render as given, dates through the formatter |
| TicketList.RenderRows | Ticketing-System-Mobile/MobileApp/screens/TicketListScreen.js:84-88 | one row per listed ticket, in order, each with non-empty issue and status cells |
| TicketList.RenderRowsAppend | Ticketing-System-Mobile/MobileApp/screens/TicketListScreen.js:84-88 | each ticket's row depends on that ticket alone: rendering two lists joined gives their rows joined |
| TicketList.EmptyTicketRendersPlaceholders | Ticketing-System-Mobile/MobileApp/screens/TicketListScreen.js:54-61 | a ticket with no fields renders only placeholders and 'Unassigned' |
| TicketList.StaffNameFull | Ticketing-System-Mobile/MobileApp/screens/TicketListScreen.js:59-61 | with both names present the staff column is "first last" |
| TicketList.StaffNameFirstOnly | Ticketing-System-Mobile/MobileApp/screens/TicketListScreen.js:59-61 | with only the first name the trailing space is trimmed away |
| TicketList.StaffNameLastOnly | Ticketing-System-Mobile/MobileApp/screens/TicketListScreen.js:59-61 | with only the last name the leading space is trimmed away |
| TicketList.BlankStaffNameIsEmpty | Ticketing-System-Mobile/MobileApp/screens/TicketListScreen.js:59-61 | a staff member whose only name is blanks counts as assigned and shows an empty name |
| TicketList.UnassignedStaff | Ticketing-System-Mobile/MobileApp/screens/TicketListScreen.js:59-61 | no staff member, or one without a truthy name, shows 'Unassigned' |
| ForgotPassword.ValidUsernameIsAlphanumeric | Ticketing-System-Mobile/MobileApp/screens/authentication/ForgotPasswordScreen.js:21 | the regular-expression check accepts exactly the non-empty strings of ASCII letters and digits |
| ForgotPassword.PunctuatedUsernameRejected | Ticketing-System-Mobile/MobileApp/screens/authentication/ForgotPasswordScreen.js:21-25 | "abc123!" is rejected locally |
| ForgotPassword.ThrownMessage | Ticketing-System-Mobile/MobileApp/screens/authentication/ForgotPasswordScreen.js:35 | the server's message when truthy, else 'An error occurred.' |
| ForgotPassword.SendUsername | Ticketing-System-Mobile/MobileApp/screens/authentication/ForgotPasswordScreen.js:16-28 | errors cleared and the button disabled; a request iff the username is valid, carrying it, with the reply then pending; otherwise the username error and the button enabled again |
| ForgotPassword.ReceiveOtpReply | Ticketing-System-Mobile/MobileApp/screens/authentication/ForgotPasswordScreen.js:29-38 | the input fields are kept as they now are; the second screen is shown iff it already was or the reply is 200; otherwise the failure or server message as the username error; the button enabled and nothing pending |
| ForgotPassword.HandleUsernameSubmit | Ticketing-System-Mobile/MobileApp/screens/authentication/ForgotPasswordScreen.js:16-39 | sending and receiving with nothing typed in between: a request iff the username is valid, carrying that username; the fields are unchanged; the second screen is shown iff it already was or the reply is 200; the username error is the invalid-username, failed-to-send or thrown message for the cause, and no error after a 200; the button ends enabled |
| ForgotPassword.HandleChangePassword | Ticketing-System-Mobile/MobileApp/screens/authentication/ForgotPasswordScreen.js:42-73 | a request iff otp and password are non-empty, carrying username, otp and password unchanged; without it each field shows 'OTP is required.' or 'Password is required.' iff it is empty; navigates to Login iff the reply is 200; otherwise an otp error; the button ends enabled |
| ForgotPassword.HandlersStartWithoutErrors | Ticketing-System-Mobile/MobileApp/screens/authentication/ForgotPasswordScreen.js:16-44 | both handlers' results are independent of the errors shown before them |
| ForgotPassword.OtpRequestsCarryCheckedUsername | Ticketing-System-Mobile/MobileApp/screens/authentication/ForgotPasswordScreen.js:20-28 | over any sequence of user actions, every OTP request carries a username that passed the alphanumeric check |
| ForgotPassword.UsernameEditedWhileOtpPending | Ticketing-System-Mobile/MobileApp/screens/authentication/ForgotPasswordScreen.js:28-96 | the username typed while the OTP request is pending ("abc!") is the one the reset sends, although the OTP was requested for "abc" and "abc!" fails the check |
| ForgotPassword.SecondScreenNeedsOk | Ticketing-System-Mobile/MobileApp/screens/authentication/ForgotPasswordScreen.js:29-30 | the second screen is reached only through an OTP reply with status 200 |
| Otp.HandleVerifyOtp | Ticketing-System-Mobile/MobileApp/screens/OtpScreen.js:10-28 | an empty OTP sets 'Please enter the OTP' and sends nothing; otherwise {username, otp} is sent; 200 resets navigation to Login alone; a thrown request sets the fixed message; any other reply changes nothing |
| Otp.ThrownMessageIgnoresServer | Ticketing-System-Mobile/MobileApp/screens/OtpScreen.js:25-27 | the outcome of a thrown request does not depend on the error's content |
| Register.HandleNext | Ticketing-System-Mobile/MobileApp/screens/authentication/RegisterScreen.js:14-22 | navigates iff username, email and password are all non-empty; otherwise sets 'Please fill out all fields' and stays |
| Register.HandoffKeepsValues | Ticketing-System-Mobile/MobileApp/screens/authentication/RegisterScreen.js:21 | the details step receives exactly the three values typed |
| Register.PressingAgainRepeats | Ticketing-System-Mobile/MobileApp/screens/authentication/RegisterScreen.js:14-22 | pressing Next again without editing gives the same form and the same hand-off |
| Register.MessageDoesNotDecide | Ticketing-System-Mobile/MobileApp/screens/authentication/RegisterScreen.js:15-21 | whether the user moves on, and with which values, does not depend on the error message shown |
| Register.NoFormatCheck | Ticketing-System-Mobile/MobileApp/screens/authentication/RegisterScreen.js:15-21 | an e-mail without "@" passes; only emptiness is checked |
| Register.StaleErrorKept | Ticketing-System-Mobile/MobileApp/screens/authentication/RegisterScreen.js:14-21 | after a failed attempt, a later successful hand-off leaves the old error message in place |

## Left out

- Layout: the `StyleSheet` blocks, the JSX trees and the logo component carry no logic. Only the displayed strings named above are modelled.
- Network calls are replies passed in as values; hosts and ports are dropped and only path shapes kept.
  axios rejects statuses outside 2xx by default. So in the profile, ticket-list, forgot-password and OTP screens,
  a 4xx or 5xx arrives as `Threw`. Their "other status" branches are modelled as written, for any status.
- Store reads and writes never fail in the model. The catch at CreateTicketScreen.js:45-48 ("Failed to retrieve
  authentication data.") is not modelled, and neither is a rejected write inside the login handler.
- Profile.GetTokenWithRetry: requires at least three answers. They are the store's answers to the reads that may happen,
  one per attempt; unused answers are ignored. Sleeps are counted, not timed: each stands for 500 ms.
- Dates: `toISOString`, `toLocaleDateString` and the current date are parameters (`today`, `formatDate`). They are opaque strings.
- JSON values are strings or absent; only the login username tells `null` from a missing field, because only there
  the two show differently. A numeric `userId` or token (which `replace` or `setItem` would reject) is not modelled.
- Alerts, console logging and the loading spinner are not modelled. They appear only as alert records, flags and the
  `loading` field. The login alert titles and the Home navigation payload (`user: data`) are reduced to the token and welcome text.
- Login.FailedLoginEmptiesStore: each press is modelled as a run on its own. Presses that overlap interleave their store
  operations, and the empty store is then not promised; `OverlappingLoginsLeavePartialTriple` shows one such interleaving.
- TicketList.RenderRows: every listed ticket is assumed to carry a `ticketId`. The list's `keyExtractor`
  (TicketListScreen.js:86) throws for a missing or null one instead of rendering, and that crash is not modelled.
- Login.HandleLogin: a rejected `response.text()` on the non-ok path would change the alert text. It is not modelled;
  the teardown is the same either way.
- The profile screen's loading and error views, and its "User Type:" header line, are not modelled. Only the field rows are.
- ForgotPassword.Step: the stage gating of user actions follows what each screen renders (ForgotPasswordScreen.js:84-145).
  The reset request and its reply are one step: its reply reads no input field, so typing while it is pending
  gives the same state in either order. Only the OTP request is split into sending and receiving.
