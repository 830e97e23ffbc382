// The authentication routes: the bearer header, issuing a submission token for a deadline,
// registration with a salted password hash, and password login. Each refusal carries the
// HTTP status the route answers with.
module AuthApi {
  import opened Wrappers
  import opened Base
  import Text
  import opened Accounts
  import Store
  import SubmissionModel
  import SM = SubmissionModule
  import M = AuthModule
  import AS = AuthService

  /** A route's answer: a value, or the status code and the `error` text of the JSON reply. */
  datatype Reply<T> = Done(value: T) | Refused(status: nat, message: string)

  // ---------------------------------------------------------------- bearer header

  const AuthRequired := "Authentication required"

  /** The session token of an `Authorization: Bearer <token>` header. */
  function BearerToken(header: Option<string>): (r: Result<string>)
    ensures r.Ok? <==> header.Some? && Text.IsPrefix("Bearer ", header.value)
    ensures r.Ok? ==> header.value == "Bearer " + r.value
    ensures r.Err? ==> r.error == AuthRequired
  {
    if header.Some? && Text.IsPrefix("Bearer ", header.value) then Ok(header.value[7..])
    else Err(AuthRequired)
  }

  /** The header built from a token gives the token back. */
  lemma BearerOfToken(t: string)
    ensures BearerToken(Some("Bearer " + t)) == Ok(t)
  {
    var h := "Bearer " + t;
    assert h[..7] == "Bearer ";
    assert h[7..] == t;
  }

  /** The user a lookup by email finds: `User.query.filter_by(email=...).first()`. */
  function Lookup(users: map<string, User>, email: string): (r: Option<string>)
    requires UniqueEmails(users)
    ensures r.None? <==> WithEmail(users, email) == {}
    ensures r.Some? ==> WithEmail(users, email) == {r.value}
  {
    OneWithEmail(users, email);
    if WithEmail(users, email) == {} then None
    else
      var id :| id in WithEmail(users, email);
      Some(id)
  }

  // ---------------------------------------------------------------- submission tokens

  const ProfessorsOnly := "Only professors can generate submission tokens"
  const InvalidDeadline := "Invalid deadline or access denied"
  const PastDeadline := "Cannot generate submission link: " + "The selected deadline is past or outdated."
  const TokenFailed := "Failed to generate token"

  /** A submission token lasts 30 days. */
  const TokenLifetime := 30 * 86400

  /**
   * The checks before a submission token is issued, giving the professor's id: a bearer
   * session (validated by the service against the UTC clock), the professor role, and, when
   * a deadline id is given, a deadline of this professor that is not before the local clock.
   * An aware deadline time cannot be compared with the naive local time; the `TypeError`
   * ends in the route's failure reply.
   */
  function TokenRequest(header: Option<string>, users: map<string, User>, sessions: map<string, Session>,
                        deadlineId: Option<string>, deadlines: map<string, Store.Deadline>,
                        nowLocal: int, nowUtc: int): (r: Reply<string>)
    ensures BearerToken(header).Err? ==> r == Refused(401, AuthRequired)
    ensures BearerToken(header).Ok? && AS.ValidateSession(users, sessions, Some(BearerToken(header).value), nowUtc).Err? ==>
      r == Refused(401, AS.ValidateSession(users, sessions, Some(BearerToken(header).value), nowUtc).error)
    ensures r.Done? <==>
      BearerToken(header).Ok?
      && AS.ValidateSession(users, sessions, Some(BearerToken(header).value), nowUtc).Ok?
      && var s := AS.ValidateSession(users, sessions, Some(BearerToken(header).value), nowUtc).value;
         s.user.role == Professor
         && (Truthy(deadlineId) ==>
               Store.OwnsDeadline(deadlines, deadlineId.value, s.userId)
               && deadlines[deadlineId.value].deadlineDatetime.IsNaive()
               && nowLocal <= deadlines[deadlineId.value].deadlineDatetime.wall)
    ensures r.Done? ==> r.value == AS.ValidateSession(users, sessions, Some(BearerToken(header).value), nowUtc).value.userId
    ensures r.Refused? ==> r.message in {AuthRequired, ProfessorsOnly, InvalidDeadline, PastDeadline, TokenFailed}
                           || (r.status == 401 && BearerToken(header).Ok?)
  {
    match BearerToken(header)
    case Err(e) => Refused(401, e)
    case Ok(t) =>
      match AS.ValidateSession(users, sessions, Some(t), nowUtc)
      case Err(e) => Refused(401, e)
      case Ok(s) =>
        if s.user.role != Professor then Refused(403, ProfessorsOnly)
        else if !Truthy(deadlineId) then Done(s.userId)
        else if !Store.OwnsDeadline(deadlines, deadlineId.value, s.userId) then Refused(404, InvalidDeadline)
        else
          var when := deadlines[deadlineId.value].deadlineDatetime;
          if !when.IsNaive() then Refused(500, TokenFailed)
          else if when.wall < nowLocal then Refused(400, PastDeadline)
          else Done(s.userId)
  }

  /** A deadline that is already past on the local clock gets no submission link. */
  lemma PastDeadlineRefused(header: Option<string>, users: map<string, User>, sessions: map<string, Session>,
                            id: string, deadlines: map<string, Store.Deadline>, nowLocal: int, nowUtc: int)
    requires id != [] && id in deadlines && deadlines[id].deadlineDatetime.IsNaive()
    requires deadlines[id].deadlineDatetime.wall < nowLocal
    ensures TokenRequest(header, users, sessions, Some(id), deadlines, nowLocal, nowUtc).Refused?
  {
  }

  /** The deadline shown with an issued token: its id, title and time. */
  datatype DeadlineInfo = DeadlineInfo(id: string, title: string, deadlineDatetime: DateTime)

  /** What the route returns for an issued token. */
  datatype IssuedToken = IssuedToken(token: string, expiresAt: int, deadline: Option<DeadlineInfo>, submissionUrl: string)

  /** The row stored for a new token: active, unused, unlimited, ending 30 days after `nowUtc`. */
  function NewTokenRow(token: string, professorId: string, deadlineId: Option<string>, nowUtc: int): (row: SM.TokenRow)
    ensures row.record.token == token && row.professorId == professorId && row.deadlineId == deadlineId
    ensures row.record.expiresAt == nowUtc + TokenLifetime
    ensures SM.WithinLimit(row)
  {
    SM.TokenRow(SubmissionModel.SubmissionToken(token, true, nowUtc + TokenLifetime, 0, None), professorId, deadlineId)
  }

  /** A new token is valid for exactly its 30 days. */
  lemma NewTokenValidFor30Days(token: string, professorId: string, deadlineId: Option<string>, nowUtc: int, t: int)
    ensures SubmissionModel.IsValid(NewTokenRow(token, professorId, deadlineId, nowUtc).record, t)
            <==> t <= nowUtc + TokenLifetime
  {
  }

  /**
   * `generate_submission_token`: after the checks, a fresh token row is stored and the token,
   * its expiry, the linked deadline and the portal URL under `frontend` are returned.
   */
  method GenerateSubmissionToken(table: SM.TokenTable, header: Option<string>, users: map<string, User>,
                                 sessions: map<string, Session>, deadlineId: Option<string>,
                                 deadlines: map<string, Store.Deadline>, nowLocal: int, nowUtc: int,
                                 token: string, frontend: string)
    returns (r: Reply<IssuedToken>)
    requires token !in table.tokens
    modifies table`tokens
    ensures TokenRequest(header, users, sessions, deadlineId, deadlines, nowLocal, nowUtc).Refused? ==>
      r == Refused(TokenRequest(header, users, sessions, deadlineId, deadlines, nowLocal, nowUtc).status,
                   TokenRequest(header, users, sessions, deadlineId, deadlines, nowLocal, nowUtc).message)
      && table.tokens == old(table.tokens)
    ensures TokenRequest(header, users, sessions, deadlineId, deadlines, nowLocal, nowUtc).Done? ==>
      var professor := TokenRequest(header, users, sessions, deadlineId, deadlines, nowLocal, nowUtc).value;
      table.tokens == old(table.tokens)[token := NewTokenRow(token, professor, deadlineId, nowUtc)]
      && r.Done? && r.value.token == token && r.value.expiresAt == nowUtc + TokenLifetime
      && r.value.submissionUrl == frontend + "/submit?token=" + token
      && (r.value.deadline.Some? <==> Truthy(deadlineId))
      && (r.value.deadline.Some? ==>
            r.value.deadline.value == DeadlineInfo(deadlineId.value, deadlines[deadlineId.value].title,
                                                   deadlines[deadlineId.value].deadlineDatetime))
  {
    var check := TokenRequest(header, users, sessions, deadlineId, deadlines, nowLocal, nowUtc);
    if check.Refused? {
      return Refused(check.status, check.message);
    }
    table.tokens := table.tokens[token := NewTokenRow(token, check.value, deadlineId, nowUtc)];
    var info: Option<DeadlineInfo> := None;
    if Truthy(deadlineId) {
      var d := deadlines[deadlineId.value];
      info := Some(DeadlineInfo(deadlineId.value, d.title, d.deadlineDatetime));
    }
    r := Done(IssuedToken(token, nowUtc + TokenLifetime, info, frontend + "/submit?token=" + token));
  }

  /** `FRONTEND_URL`, by default the development server. */
  function FrontendUrl(configured: Option<string>): string
  {
    configured.GetOr("http://localhost:5173")
  }

  // ---------------------------------------------------------------- registration

  /** The body of `register` and `login-basic`; an absent key is the empty text. */
  datatype Form = Form(email: string, password: string, name: string)

  /** The email as it is looked up and stored: stripped and lower-cased. */
  function NormalEmail(email: string): (e: string)
    ensures forall i :: 0 <= i < |e| ==> !('A' <= e[i] <= 'Z')
    ensures e == [] <==> Text.AllSpace(email)
  {
    Text.Lower(Text.Strip(email))
  }

  const NoData := "No data provided"
  const EmailRequired := "Email is required"
  const PasswordRequired := "Password is required"
  const PasswordTooShort := "Password must be at least 6 characters"
  const NameRequired := "Name is required"
  const GoogleAccount := "Account already registered with Google. " + "Please sign in with Google."
  const EmailTaken := "Account already registered with this email."

  /**
   * The checks of `register`, in order: a body, an email, a password of at least six
   * characters and a name after stripping; then an email already in use is refused, with
   * its own message when that account signs in with Google.
   */
  function RegisterCheck(data: Option<Form>, users: map<string, User>): (r: Reply<()>)
    requires UniqueEmails(users)
    ensures data.None? ==> r == Refused(400, NoData)
    ensures data.Some? && NormalEmail(data.value.email) == [] ==> r == Refused(400, EmailRequired)
    ensures data.Some? && NormalEmail(data.value.email) != [] && data.value.password == [] ==> r == Refused(400, PasswordRequired)
    ensures data.Some? && NormalEmail(data.value.email) != [] && 0 < |data.value.password| < 6 ==> r == Refused(400, PasswordTooShort)
    ensures data.Some? && NormalEmail(data.value.email) != [] && |data.value.password| >= 6 && Text.Strip(data.value.name) == [] ==>
      r == Refused(400, NameRequired)
    ensures r.Done? <==>
      data.Some? && NormalEmail(data.value.email) != [] && |data.value.password| >= 6 && Text.Strip(data.value.name) != []
      && WithEmail(users, NormalEmail(data.value.email)) == {}
    ensures r.Refused? && r.status == 409 ==>
      data.Some? && WithEmail(users, NormalEmail(data.value.email)) != {}
      && (r.message == GoogleAccount <==>
            exists id :: id in WithEmail(users, NormalEmail(data.value.email)) && Truthy(users[id].googleId))
  {
    if data.None? then Refused(400, NoData)
    else
      var f := data.value;
      var email := NormalEmail(f.email);
      if email == [] then Refused(400, EmailRequired)
      else if f.password == [] then Refused(400, PasswordRequired)
      else if |f.password| < 6 then Refused(400, PasswordTooShort)
      else if Text.Strip(f.name) == [] then Refused(400, NameRequired)
      else match Lookup(users, email)
        case None => Done(())
        case Some(id) =>
          if Truthy(users[id].googleId) then Refused(409, GoogleAccount) else Refused(409, EmailTaken)
  }

  /** The row `register` adds: an active professor with the salted hash of the password. */
  function Registered(f: Form, salt: string, sha: Digest): (u: User)
    ensures u.email == NormalEmail(f.email) && u.role == Professor && u.isActive
    ensures u.passwordHash == Some(HashPassword(f.password, salt, sha))
  {
    User(NormalEmail(f.email), Text.Strip(f.name), Some(HashPassword(f.password, salt, sha)), Professor, None, None, None, true)
  }

  /** `register`: after the checks, the new user is added under `newId`. */
  method Register(db: AuthStore, data: Option<Form>, salt: string, sha: Digest, newId: string)
    returns (r: Reply<User>)
    requires UniqueEmails(db.users) && newId !in db.users
    modifies db`users
    ensures UniqueEmails(db.users)
    ensures RegisterCheck(data, old(db.users)).Refused? ==>
      r == Refused(RegisterCheck(data, old(db.users)).status, RegisterCheck(data, old(db.users)).message)
      && db.users == old(db.users)
    ensures RegisterCheck(data, old(db.users)).Done? ==>
      r == Done(Registered(data.value, salt, sha)) && db.users == old(db.users)[newId := Registered(data.value, salt, sha)]
  {
    var check := RegisterCheck(data, db.users);
    if check.Refused? {
      return Refused(check.status, check.message);
    }
    var u := Registered(data.value, salt, sha);
    AddKeepsUnique(db.users, newId, u);
    db.users := db.users[newId := u];
    r := Done(u);
  }

  // ---------------------------------------------------------------- password login

  const CredentialsRequired := "Email and password are required"
  const BadLogin := "Invalid email or password"
  const UseGoogle := "Please use Google Sign-In for this account"
  const Deactivated := "Account is deactivated"

  /** The account has a password hash and the password verifies against it. */
  predicate PasswordMatches(u: User, password: string, sha: Digest)
  {
    Truthy(u.passwordHash) && VerifyPassword(password, u.passwordHash.value, sha)
  }

  /**
   * The checks of `login_basic`, giving the user's id: a body, an email and a password; then
   * an unknown user, an account without a password hash, a wrong password and an inactive
   * account are refused, in that order, all with 401.
   */
  function LoginCheck(data: Option<Form>, users: map<string, User>, sha: Digest): (r: Reply<string>)
    requires UniqueEmails(users)
    ensures data.None? ==> r == Refused(400, NoData)
    ensures data.Some? && (NormalEmail(data.value.email) == [] || data.value.password == []) ==>
      r == Refused(400, CredentialsRequired)
    ensures data.Some? && NormalEmail(data.value.email) != [] && data.value.password != []
            && WithEmail(users, NormalEmail(data.value.email)) == {} ==>
      r == Refused(401, BadLogin)
    ensures r.Done? <==>
      data.Some? && NormalEmail(data.value.email) != [] && data.value.password != []
      && exists id :: id in WithEmail(users, NormalEmail(data.value.email))
                      && PasswordMatches(users[id], data.value.password, sha) && users[id].isActive
    ensures r.Done? ==> r.value in WithEmail(users, NormalEmail(data.value.email))
    ensures r.Refused? && r.message == Deactivated ==>
      exists id :: id in WithEmail(users, NormalEmail(data.value.email))
                   && PasswordMatches(users[id], data.value.password, sha)
  {
    if data.None? then Refused(400, NoData)
    else
      var f := data.value;
      var email := NormalEmail(f.email);
      if email == [] || f.password == [] then Refused(400, CredentialsRequired)
      else match Lookup(users, email)
        case None => Refused(401, BadLogin)
        case Some(id) =>
          var u := users[id];
          if !Truthy(u.passwordHash) then Refused(401, UseGoogle)
          else if !PasswordMatches(u, f.password, sha) then Refused(401, BadLogin)
          else if !u.isActive then Refused(401, Deactivated)
          else Done(id)
  }

  /** A successful login: the session token, the user after the login, and when the session ends. */
  datatype LoggedIn = LoggedIn(sessionToken: string, user: User, expiresAt: int)

  /** `login_basic`: after the checks, the login time is set and a session is added. */
  method LoginBasic(db: AuthStore, data: Option<Form>, sha: Digest, now: int, token: string, configured: Option<nat>)
    returns (r: Reply<LoggedIn>)
    requires UniqueEmails(db.users) && token !in db.sessions
    modifies db`users, db`sessions
    ensures UniqueEmails(db.users)
    ensures LoginCheck(data, old(db.users), sha).Refused? ==>
      r == Refused(LoginCheck(data, old(db.users), sha).status, LoginCheck(data, old(db.users), sha).message)
      && db.users == old(db.users) && db.sessions == old(db.sessions)
    ensures LoginCheck(data, old(db.users), sha).Done? ==>
      var id := LoginCheck(data, old(db.users), sha).value;
      var u := old(db.users)[id].(lastLogin := Some(now));
      db.users == old(db.users)[id := u]
      && db.sessions == old(db.sessions)[token := Session(id, now + M.Timeout(configured), true)]
      && r == Done(LoggedIn(token, u, now + M.Timeout(configured)))
  {
    var check := LoginCheck(data, db.users, sha);
    if check.Refused? {
      return Refused(check.status, check.message);
    }
    var id := check.value;
    var u := db.users[id].(lastLogin := Some(now));
    UpdateKeepsUnique(db.users, id, u);
    db.users := db.users[id := u];
    db.sessions := db.sessions[token := Session(id, now + M.Timeout(configured), true)];
    r := Done(LoggedIn(token, u, now + M.Timeout(configured)));
  }

  /** A user who just registered can log in with the same form. */
  lemma RegisterThenLogin(users: map<string, User>, f: Form, salt: string, sha: Digest, newId: string)
    requires UniqueEmails(users) && newId !in users
    requires RegisterCheck(Some(f), users).Done?
    requires IsSalt(salt) && ':' !in sha(f.password + salt)
    ensures UniqueEmails(users[newId := Registered(f, salt, sha)])
    ensures LoginCheck(Some(f), users[newId := Registered(f, salt, sha)], sha) == Done(newId)
  {
    var u := Registered(f, salt, sha);
    AddKeepsUnique(users, newId, u);
    var after := users[newId := u];
    assert newId in WithEmail(after, u.email);
    VerifyRoundTrip(f.password, salt, sha);
    assert Lookup(after, u.email) == Some(newId);
  }

  /** The registration route's accounts never pass the service's unsalted basic-auth check. */
  lemma RegisteredFailsBasicAuth(f: Form, salt: string, sha: Digest, password: string)
    requires IsSalt(salt) && ':' !in sha(password)
    ensures !AS.Credentials(Registered(f, salt, sha), password, sha)
  {
    AS.SaltedHashNeverMatches(Registered(f, salt, sha), password, salt, f.password, sha);
  }
}
