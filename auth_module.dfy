// The Google sign-in module: the e-mail domain allow-list, the role a sign-in gives, creating
// or refreshing the user, and the session checks behind every authenticated request.
module AuthModule {
  import opened Wrappers
  import opened Base
  import Text
  import opened Accounts

  // ---------------------------------------------------------------- domain allow-list

  /** `email.split('@')[1]`: the text between the first '@' and the next one (or the end). */
  function DomainField(email: string): (d: string)
    requires '@' in email
    ensures '@' !in d
  {
    Text.SplitOnSome(email, {'@'});
    var parts := Text.SplitOn(email, {'@'});
    assert Text.Avoids(parts[1], {'@'});
    parts[1]
  }

  /** With one '@', the domain field is everything after it. */
  lemma DomainFieldOf(local: string, domain: string)
    requires '@' !in local && '@' !in domain
    ensures DomainField(local + "@" + domain) == domain
  {
    assert local + "@" + domain == local + ['@'] + domain;
    Text.SplitOnPair(local, '@', domain, {'@'});
  }

  /** The lower-cased domain is an allowed domain or a sub-domain of one, ignoring case. */
  predicate Permits(allowed: seq<string>, domain: string)
  {
    exists k :: 0 <= k < |allowed| && (domain == Text.Lower(allowed[k]) || Text.EndsWith(domain, "." + Text.Lower(allowed[k])))
  }

  /** Python's message for a missing second field of `split('@')`. */
  const IndexErrorText := "list index out of range"

  /**
   * The domain step of the sign-in callback: with no allow-list every address passes;
   * otherwise an address without '@' raises inside `_is_domain_allowed` and the callback
   * reports the error, and an address outside the list gets the restriction message.
   */
  function DomainCheck(email: string, allowed: seq<string>): (r: Option<string>)
    ensures allowed == [] ==> r.None?
    ensures allowed != [] && '@' !in email ==> r == Some("Authentication error: " + IndexErrorText)
    ensures allowed != [] && '@' in email ==>
      (r.None? <==> Permits(allowed, Text.Lower(DomainField(email))))
    ensures r.Some? && '@' in email ==> r == Some("Access restricted to domains: " + Text.Join(allowed, ", "))
  {
    if allowed == [] then None
    else if '@' !in email then Some("Authentication error: " + IndexErrorText)
    else if Permits(allowed, Text.Lower(DomainField(email))) then None
    else Some("Access restricted to domains: " + Text.Join(allowed, ", "))
  }

  /** Lower-casing works character by character, so it distributes over concatenation. */
  lemma LowerAppend(a: string, b: string)
    ensures Text.Lower(a + b) == Text.Lower(a) + Text.Lower(b)
  {
    var l := Text.Lower(a + b);
    var r := Text.Lower(a) + Text.Lower(b);
    forall i | 0 <= i < |l| ensures l[i] == r[i] {
      if i < |a| {
        assert (a + b)[i] == a[i];
      } else {
        assert (a + b)[i] == b[i - |a|];
      }
    }
  }

  /** An address at an allowed domain, in any letter case, passes. */
  lemma AllowedDomainPasses(local: string, domain: string, allowed: seq<string>, k: nat)
    requires '@' !in local && '@' !in domain && k < |allowed|
    requires Text.Lower(domain) == Text.Lower(allowed[k])
    ensures DomainCheck(local + "@" + domain, allowed).None?
  {
    DomainFieldOf(local, domain);
  }

  /** The lower-cased text ends with the lower-cased suffix. */
  lemma LowerKeepsSuffix(x: string, y: string)
    ensures Text.EndsWith(Text.Lower(x + y), Text.Lower(y))
  {
    LowerAppend(x, y);
    var l := Text.Lower(x + y);
    assert l[|l| - |y|..] == Text.Lower(y);
  }

  /** Lower-casing keeps a leading '.'. */
  lemma LowerAfterDot(y: string)
    ensures Text.Lower("." + y) == "." + Text.Lower(y)
  {
    var s := "." + y;
    assert forall i :: 0 < i < |s| ==> s[i] == y[i - 1];
  }

  /** An address at a sub-domain of an allowed domain passes too. */
  lemma SubdomainPasses(local: string, sub: string, domain: string, allowed: seq<string>, k: nat)
    requires '@' !in local && '@' !in sub && '@' !in domain && k < |allowed|
    requires Text.Lower(domain) == Text.Lower(allowed[k])
    ensures DomainCheck(local + "@" + (sub + "." + domain), allowed).None?
  {
    var d := sub + ("." + domain);
    assert d == sub + "." + domain;
    DomainFieldOf(local, d);
    LowerKeepsSuffix(sub, "." + domain);
    LowerAfterDot(domain);
    assert Text.EndsWith(Text.Lower(d), "." + Text.Lower(allowed[k]));
    assert Permits(allowed, Text.Lower(d));
  }

  // ---------------------------------------------------------------- role

  /** The role a sign-in gives: STUDENT iff the session's `user_type` (default 'professor') is 'student'. */
  function RoleFor(userType: Option<string>): (role: UserRole)
    ensures role == Student <==> userType == Some("student")
    ensures role != Admin
  {
    if userType.GetOr("professor") == "student" then Student else Professor
  }

  // ---------------------------------------------------------------- users

  /**
   * `_create_or_update_user`: the user with this email gets the new Google id, name,
   * picture, login time, role and is made active; without one a new user is added.
   * Returns the user's id.
   */
  method CreateOrUpdateUser(db: AuthStore, email: string, name: string, googleId: Option<string>,
                            picture: Option<string>, userType: Option<string>, now: int, newId: string)
    returns (id: string)
    requires UniqueEmails(db.users) && newId !in db.users
    modifies db`users
    ensures UniqueEmails(db.users)
    ensures WithEmail(old(db.users), email) != {} ==> id in WithEmail(old(db.users), email)
    ensures WithEmail(old(db.users), email) == {} ==> id == newId
    ensures db.users == old(db.users)[id := User(email, name,
      if id in old(db.users) then old(db.users)[id].passwordHash else None,
      RoleFor(userType), googleId, picture, Some(now), true)]
  {
    var ids := WithEmail(db.users, email);
    var role := RoleFor(userType);
    if ids != {} {
      id :| id in ids;
      var u := db.users[id];
      var updated := u.(googleId := googleId, name := name, profilePicture := picture,
                        lastLogin := Some(now), isActive := true, role := role);
      UpdateKeepsUnique(db.users, id, updated);
      db.users := db.users[id := updated];
    } else {
      id := newId;
      var created := User(email, name, None, role, googleId, picture, Some(now), true);
      AddKeepsUnique(db.users, id, created);
      db.users := db.users[id := created];
    }
  }

  // ---------------------------------------------------------------- sessions

  /** A session row with this token exists and is active: `filter_by(session_token=..., is_active=True)`. */
  predicate ActiveSession(sessions: map<string, Session>, token: string)
  {
    token in sessions && sessions[token].isActive
  }

  /** A validated session: the user's id and row, and the session row. */
  datatype SessionUser = SessionUser(userId: string, user: User, session: Session)

  const NoSessionToken := "No session token provided"
  const InvalidSessionToken := "Invalid session token"
  const SessionExpired := "Session expired"
  const InactiveAccount := "User account not found or inactive"

  /** The session timeout, `SESSION_TIMEOUT` (default 3600 seconds). */
  function Timeout(configured: Option<nat>): nat
  {
    configured.GetOr(3600)
  }

  /** `_create_user_session`: a new active session for the user that ends after the timeout. */
  method CreateUserSession(db: AuthStore, userId: string, token: string, now: int, configured: Option<nat>)
    requires token !in db.sessions
    modifies db`sessions
    ensures db.sessions == old(db.sessions)[token := Session(userId, now + Timeout(configured), true)]
    ensures ActiveSession(db.sessions, token)
  {
    db.sessions := db.sessions[token := Session(userId, now + Timeout(configured), true)];
  }

  /**
   * `validate_session`: a missing token, a token without an active session, an expired
   * session (which is then deactivated) and a missing or inactive user are refused in that
   * order; otherwise the user and the session are returned.
   */
  method ValidateSession(db: AuthStore, token: Option<string>, now: int) returns (r: Result<SessionUser>)
    modifies db`sessions
    ensures !Truthy(token) ==> r == Err(NoSessionToken)
    ensures Truthy(token) && !ActiveSession(old(db.sessions), token.value) ==> r == Err(InvalidSessionToken)
    ensures Truthy(token) && ActiveSession(old(db.sessions), token.value) ==>
      var s := old(db.sessions)[token.value];
      (s.expiresAt < now ==> r == Err(SessionExpired) && db.sessions == old(db.sessions)[token.value := s.(isActive := false)])
      && (now <= s.expiresAt && !(s.userId in db.users && db.users[s.userId].isActive) ==> r == Err(InactiveAccount))
    ensures r.Err? && r.error != SessionExpired ==> db.sessions == old(db.sessions)
    ensures r.Ok? <==>
      Truthy(token) && ActiveSession(old(db.sessions), token.value)
      && now <= old(db.sessions)[token.value].expiresAt
      && old(db.sessions)[token.value].userId in db.users && db.users[old(db.sessions)[token.value].userId].isActive
    ensures r.Ok? ==>
      db.sessions == old(db.sessions) && r.value.session == db.sessions[token.value]
      && r.value.userId == r.value.session.userId && r.value.user == db.users[r.value.userId]
  {
    if !Truthy(token) {
      return Err(NoSessionToken);
    }
    var t := token.value;
    if !ActiveSession(db.sessions, t) {
      return Err(InvalidSessionToken);
    }
    var s := db.sessions[t];
    if s.expiresAt < now {
      db.sessions := db.sessions[t := s.(isActive := false)];
      return Err(SessionExpired);
    }
    if !(s.userId in db.users && db.users[s.userId].isActive) {
      return Err(InactiveAccount);
    }
    r := Ok(SessionUser(s.userId, db.users[s.userId], s));
  }

  const SessionNotFound := "Session not found"

  /** `logout_user`: an active session is deactivated and kept; otherwise "Session not found". */
  method LogoutUser(db: AuthStore, token: string) returns (ok: bool, error: Option<string>)
    modifies db`sessions
    ensures ok <==> ActiveSession(old(db.sessions), token)
    ensures ok ==> error.None? && db.sessions == old(db.sessions)[token := old(db.sessions)[token].(isActive := false)]
    ensures !ok ==> error == Some(SessionNotFound) && db.sessions == old(db.sessions)
    ensures !ActiveSession(db.sessions, token)
  {
    if ActiveSession(db.sessions, token) {
      db.sessions := db.sessions[token := db.sessions[token].(isActive := false)];
      return true, None;
    }
    return false, Some(SessionNotFound);
  }
}
