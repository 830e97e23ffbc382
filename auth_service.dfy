// The authentication service used by the API: its own domain allow-list (with 'gmail.com'
// always allowed and no lower-casing of the address), role selection for new users, session
// validation and logout, and the unsalted basic-auth accounts.
module AuthService {
  import opened Wrappers
  import opened Base
  import Text
  import opened Accounts
  import M = AuthModule

  // ---------------------------------------------------------------- domain allow-list

  /** The check is skipped when the configured list is empty or is exactly `['']`. */
  predicate Skipped(configured: seq<string>)
  {
    configured == [] || configured == [""]
  }

  /** The configured domains that are not blank, stripped and lower-cased, in order. */
  function Cleaned(configured: seq<string>): (r: seq<string>)
    ensures |r| <= |configured|
  {
    if configured == [] then []
    else
      var d := Text.Strip(configured[0]);
      (if d != [] then [Text.Lower(d)] else []) + Cleaned(configured[1..])
  }

  /** Every configured domain that is not blank is in the cleaned list, stripped and lower-cased. */
  lemma {:induction false} CleanedHas(configured: seq<string>, k: nat)
    requires k < |configured| && Text.Strip(configured[k]) != []
    ensures Text.Lower(Text.Strip(configured[k])) in Cleaned(configured)
  {
    if k == 0 {
      var d := Text.Strip(configured[0]);
      assert Cleaned(configured) == [Text.Lower(d)] + Cleaned(configured[1..]);
    } else {
      var rest := configured[1..];
      assert configured[k] == rest[k - 1];
      CleanedHas(rest, k - 1);
      CleanedKeepsTail(configured, Text.Lower(Text.Strip(rest[k - 1])));
    }
  }

  /** What the rest of the list contributes stays in the cleaned list. */
  lemma CleanedKeepsTail(configured: seq<string>, x: string)
    requires configured != [] && x in Cleaned(configured[1..])
    ensures x in Cleaned(configured)
  {
    var d := Text.Strip(configured[0]);
    var head := if d != [] then [Text.Lower(d)] else [];
    assert Cleaned(configured) == head + Cleaned(configured[1..]);
  }

  /** No entry of the cleaned list holds a capital letter. */
  lemma {:induction false} CleanedLower(configured: seq<string>, x: string)
    requires x in Cleaned(configured)
    ensures forall i :: 0 <= i < |x| ==> !('A' <= x[i] <= 'Z')
  {
    var d := Text.Strip(configured[0]);
    if d != [] && x == Text.Lower(d) {
    } else {
      CleanedLower(configured[1..], x);
    }
  }

  /** `allowed`: the cleaned list with 'gmail.com' appended. */
  function AllowedList(configured: seq<string>): (r: seq<string>)
    ensures r != [] && r[|r| - 1] == "gmail.com"
  {
    Cleaned(configured) + ["gmail.com"]
  }

  /** `email.split('@')[1] if '@' in email else ''`, taken as it is, without lower-casing. */
  function EmailDomain(email: string): (d: string)
    ensures '@' !in d
    ensures '@' !in email ==> d == []
  {
    if '@' in email then M.DomainField(email) else []
  }

  /** The sign-in's domain step: None when allowed, else the message naming the allowed domains. */
  function DomainError(email: string, configured: seq<string>): (r: Option<string>)
    ensures Skipped(configured) ==> r.None?
    ensures !Skipped(configured) ==> (r.None? <==> EmailDomain(email) in AllowedList(configured))
    ensures r.Some? ==>
      r.value == "Email domain '" + EmailDomain(email) + "' not allowed. Allowed domains: "
        + Text.Join(AllowedList(configured), ", ")
  {
    if Skipped(configured) then None
    else
      var domain := EmailDomain(email);
      var allowed := AllowedList(configured);
      if domain !in allowed then
        Some("Email domain '" + domain + "' not allowed. Allowed domains: " + Text.Join(allowed, ", "))
      else None
  }

  /** A gmail.com address always passes. */
  lemma GmailAlwaysAllowed(local: string, configured: seq<string>)
    requires '@' !in local
    ensures DomainError(local + "@" + "gmail.com", configured).None?
  {
    M.DomainFieldOf(local, "gmail.com");
    assert "gmail.com" == AllowedList(configured)[|AllowedList(configured)| - 1];
  }

  /** An address at a configured domain, written in lower case, passes. */
  lemma ConfiguredDomainAllowed(local: string, configured: seq<string>, k: nat)
    requires '@' !in local && k < |configured| && Text.Strip(configured[k]) != []
    requires '@' !in Text.Lower(Text.Strip(configured[k]))
    ensures DomainError(local + "@" + Text.Lower(Text.Strip(configured[k])), configured).None?
  {
    M.DomainFieldOf(local, Text.Lower(Text.Strip(configured[k])));
    CleanedHas(configured, k);
  }

  /** Since the address is not lower-cased, a domain with a capital letter is always refused. */
  lemma CapitalisedDomainRefused(email: string, configured: seq<string>, i: nat)
    requires !Skipped(configured)
    requires i < |EmailDomain(email)| && 'A' <= EmailDomain(email)[i] <= 'Z'
    ensures DomainError(email, configured).Some?
  {
    var d := EmailDomain(email);
    var c := Cleaned(configured);
    if d in c {
      CleanedLower(configured, d);
    }
    assert d !in c;
    assert d != "gmail.com" by {
      if d == "gmail.com" {
        GmailLower();
      }
    }
    assert d !in c + ["gmail.com"];
  }

  /** The domain that is always allowed is written in lower case. */
  lemma GmailLower()
    ensures forall i :: 0 <= i < |"gmail.com"| ==> !('A' <= "gmail.com"[i] <= 'Z')
  {
  }

  // ---------------------------------------------------------------- role and sign-in

  /** The role a new user gets: PROFESSOR iff the `user_type` (default 'professor') is 'professor'. */
  function RoleFor(userType: Option<string>): (role: UserRole)
    ensures role == Professor <==> userType.None? || userType == Some("professor")
    ensures role != Admin
  {
    if userType.GetOr("professor") == "professor" then Professor else Student
  }

  /** For any `user_type` other than the two names, the two copies assign opposite roles. */
  lemma RoleCopiesDisagree(t: string)
    requires t != "professor" && t != "student"
    ensures M.RoleFor(Some(t)) == Professor && RoleFor(Some(t)) == Student
  {
  }

  /** The sign-in session lasts 7 days. */
  const Week := 7 * 86400

  /**
   * The user part of the sign-in callback: a new user gets the role; an existing one gets
   * the new name, Google id, picture and login time but keeps its role and active flag. A
   * 7-day session is then added. Returns the user's id.
   */
  method SignIn(db: AuthStore, email: string, name: string, googleId: Option<string>, picture: Option<string>,
                userType: Option<string>, now: int, newId: string, token: string)
    returns (id: string)
    requires UniqueEmails(db.users) && newId !in db.users && token !in db.sessions
    modifies db`users, db`sessions
    ensures UniqueEmails(db.users)
    ensures WithEmail(old(db.users), email) == {} ==>
      id == newId && db.users == old(db.users)[id := User(email, name, None, RoleFor(userType), googleId, picture, None, true)]
    ensures WithEmail(old(db.users), email) != {} ==>
      id in WithEmail(old(db.users), email)
      && db.users == old(db.users)[id := old(db.users)[id].(name := name, googleId := googleId,
                                                           profilePicture := picture, lastLogin := Some(now))]
    ensures db.sessions == old(db.sessions)[token := Session(id, now + Week, true)]
  {
    var ids := WithEmail(db.users, email);
    if ids == {} {
      id := newId;
      var created := User(email, name, None, RoleFor(userType), googleId, picture, None, true);
      AddKeepsUnique(db.users, id, created);
      db.users := db.users[id := created];
    } else {
      id :| id in ids;
      var updated := db.users[id].(name := name, googleId := googleId, profilePicture := picture, lastLogin := Some(now));
      UpdateKeepsUnique(db.users, id, updated);
      db.users := db.users[id := updated];
    }
    db.sessions := db.sessions[token := Session(id, now + Week, true)];
  }

  // ---------------------------------------------------------------- sessions

  const InactiveUser := "User not found or inactive"

  /**
   * `validate_session`: a missing token, an unknown token, an expired session and a missing
   * or inactive user are refused in that order. The session's own active flag is not read.
   */
  function ValidateSession(users: map<string, User>, sessions: map<string, Session>, token: Option<string>, now: int)
    : (r: Result<M.SessionUser>)
    ensures !Truthy(token) ==> r == Err(M.NoSessionToken)
    ensures Truthy(token) && token.value !in sessions ==> r == Err(M.InvalidSessionToken)
    ensures Truthy(token) && token.value in sessions && sessions[token.value].expiresAt < now ==> r == Err(M.SessionExpired)
    ensures r.Ok? <==>
      Truthy(token) && token.value in sessions && now <= sessions[token.value].expiresAt
      && sessions[token.value].userId in users && users[sessions[token.value].userId].isActive
    ensures r.Err? && Truthy(token) && token.value in sessions && now <= sessions[token.value].expiresAt ==>
      r == Err(InactiveUser)
    ensures r.Ok? ==>
      r.value.session == sessions[token.value] && r.value.userId == r.value.session.userId
      && r.value.user == users[r.value.userId]
  {
    if !Truthy(token) then Err(M.NoSessionToken)
    else if token.value !in sessions then Err(M.InvalidSessionToken)
    else
      var s := sessions[token.value];
      if s.expiresAt < now then Err(M.SessionExpired)
      else if !(s.userId in users && users[s.userId].isActive) then Err(InactiveUser)
      else Ok(M.SessionUser(s.userId, users[s.userId], s))
  }

  /** A deactivated but unexpired session is still accepted here, unlike in the module copy. */
  lemma InactiveSessionStillValid(users: map<string, User>, sessions: map<string, Session>, token: string, now: int)
    requires token != [] && token in sessions && !sessions[token].isActive && now <= sessions[token].expiresAt
    requires sessions[token].userId in users && users[sessions[token].userId].isActive
    ensures ValidateSession(users, sessions, Some(token), now).Ok?
    ensures !M.ActiveSession(sessions, token)
  {
  }

  /** `logout`: the session row is deleted if there is one; the call always succeeds. */
  method Logout(db: AuthStore, token: string) returns (ok: bool, error: Option<string>)
    modifies db`sessions
    ensures ok && error.None?
    ensures db.sessions == old(db.sessions) - {token}
  {
    if token in db.sessions {
      db.sessions := db.sessions - {token};
    } else {
      assert db.sessions - {token} == db.sessions;
    }
    return true, None;
  }

  // ---------------------------------------------------------------- basic-auth accounts

  const UserExists := "User already exists"
  const InvalidCredentials := "Invalid credentials"
  const InactiveAccount := "User account is inactive"

  /** The account has a password hash and it is the plain digest of the password. */
  predicate Credentials(u: User, password: string, sha: Digest)
  {
    Truthy(u.passwordHash) && sha(password) == u.passwordHash.value
  }

  /** `create_basic_auth_user`: a new active professor whose hash is the unsalted digest. */
  method CreateBasicAuthUser(db: AuthStore, email: string, password: string, name: string, sha: Digest, newId: string)
    returns (r: Result<string>)
    requires UniqueEmails(db.users) && newId !in db.users
    modifies db`users
    ensures UniqueEmails(db.users)
    ensures WithEmail(old(db.users), email) != {} ==> r == Err(UserExists) && db.users == old(db.users)
    ensures WithEmail(old(db.users), email) == {} ==>
      r == Ok(newId) && db.users == old(db.users)[newId := User(email, name, Some(sha(password)), Professor, None, None, None, true)]
  {
    if WithEmail(db.users, email) != {} {
      return Err(UserExists);
    }
    var u := User(email, name, Some(sha(password)), Professor, None, None, None, true);
    AddKeepsUnique(db.users, newId, u);
    db.users := db.users[newId := u];
    r := Ok(newId);
  }

  /** A basic-auth account's own password matches it, as long as the digest is not empty. */
  lemma CreatedAccountMatches(email: string, password: string, name: string, sha: Digest)
    requires sha(password) != []
    ensures Credentials(User(email, name, Some(sha(password)), Professor, None, None, None, true), password, sha)
  {
  }

  /**
   * The salted hashes the registration route stores never match here: a hex digest has no
   * ':', while a salted hash has one.
   */
  lemma SaltedHashNeverMatches(u: User, password: string, salt: string, other: string, sha: Digest)
    requires IsSalt(salt) && u.passwordHash == Some(HashPassword(other, salt, sha))
    requires ':' !in sha(password)
    ensures !Credentials(u, password, sha)
  {
    var h := HashPassword(other, salt, sha);
    assert h[32] == ':';
  }

  /** The result of a basic-auth login: the user's id, its token and when the session ends. */
  datatype Login = Login(userId: string, sessionToken: string, expiresAt: int)

  /**
   * `validate_basic_auth`: an unknown user, a missing hash and a wrong password all give
   * "Invalid credentials", then an inactive account is refused; otherwise a 7-day session is
   * added and the login time is set.
   */
  method ValidateBasicAuth(db: AuthStore, email: string, password: string, sha: Digest, now: int, token: string)
    returns (r: Result<Login>)
    requires UniqueEmails(db.users) && token !in db.sessions
    modifies db`users, db`sessions
    ensures UniqueEmails(db.users)
    ensures r.Ok? <==>
      exists id :: id in WithEmail(old(db.users), email) && Credentials(old(db.users)[id], password, sha)
                   && old(db.users)[id].isActive
    ensures r.Err? ==> db.users == old(db.users) && db.sessions == old(db.sessions)
    ensures r.Err? ==> r.error == InvalidCredentials || r.error == InactiveAccount
    ensures r.Err? && r.error == InactiveAccount ==>
      exists id :: id in WithEmail(old(db.users), email) && Credentials(old(db.users)[id], password, sha)
    ensures r.Ok? ==>
      r.value.userId in WithEmail(old(db.users), email) && r.value.sessionToken == token
      && r.value.expiresAt == now + Week
      && db.sessions == old(db.sessions)[token := Session(r.value.userId, now + Week, true)]
      && db.users == old(db.users)[r.value.userId := old(db.users)[r.value.userId].(lastLogin := Some(now))]
  {
    var ids := WithEmail(db.users, email);
    OneWithEmail(db.users, email);
    if ids == {} {
      return Err(InvalidCredentials);
    }
    var id :| id in ids;
    var u := db.users[id];
    if !Truthy(u.passwordHash) || sha(password) != u.passwordHash.value {
      return Err(InvalidCredentials);
    }
    if !u.isActive {
      return Err(InactiveAccount);
    }
    db.sessions := db.sessions[token := Session(id, now + Week, true)];
    var updated := u.(lastLogin := Some(now));
    UpdateKeepsUnique(db.users, id, updated);
    db.users := db.users[id := updated];
    r := Ok(Login(id, token, now + Week));
  }
}
