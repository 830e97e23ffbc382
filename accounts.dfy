// The users and sessions tables the authentication code reads and changes, and the salted
// password hash both authentication copies use.
module Accounts {
  import opened Wrappers
  import opened Base
  import Text

  /** A `users` row. */
  datatype User = User(
    email: string,
    name: string,
    passwordHash: Option<string>,
    role: UserRole,
    googleId: Option<string>,
    profilePicture: Option<string>,
    lastLogin: Option<int>,
    isActive: bool)

  /** A `user_sessions` row, keyed by its session token. */
  datatype Session = Session(userId: string, expiresAt: int, isActive: bool)

  /** The tables: users by id, sessions by token. */
  class AuthStore {
    var users: map<string, User>
    var sessions: map<string, Session>

    constructor ()
      ensures users == map[] && sessions == map[]
    {
      users := map[];
      sessions := map[];
    }
  }

  /** The `email` column is unique. */
  predicate UniqueEmails(users: map<string, User>)
  {
    forall a, b :: a in users && b in users && users[a].email == users[b].email ==> a == b
  }

  /** The ids of the users with this email: `User.query.filter_by(email=...)`. */
  function WithEmail(users: map<string, User>, email: string): (ids: set<string>)
    ensures forall id :: id in ids <==> id in users && users[id].email == email
  {
    set id | id in users && users[id].email == email
  }

  /** With unique emails, a lookup by email finds at most one user. */
  lemma OneWithEmail(users: map<string, User>, email: string)
    requires UniqueEmails(users)
    ensures forall a, b :: a in WithEmail(users, email) && b in WithEmail(users, email) ==> a == b
  {
  }

  /** Adding a user whose email is new keeps emails unique. */
  lemma AddKeepsUnique(users: map<string, User>, id: string, u: User)
    requires UniqueEmails(users) && id !in users && WithEmail(users, u.email) == {}
    ensures UniqueEmails(users[id := u])
  {
    assert forall b :: b in users ==> users[b].email != u.email by {
      forall b | b in users ensures users[b].email != u.email {
        assert b !in WithEmail(users, u.email);
      }
    }
  }

  /** Changing a user without changing its email keeps emails unique. */
  lemma UpdateKeepsUnique(users: map<string, User>, id: string, u: User)
    requires UniqueEmails(users) && id in users && u.email == users[id].email
    ensures UniqueEmails(users[id := u])
  {
    var m := users[id := u];
    forall a, b | a in m && b in m && m[a].email == m[b].email
      ensures a == b
    {
      assert m[a].email == users[a].email && m[b].email == users[b].email;
    }
  }

  // ---------------------------------------------------------------- salted password hash

  /** `hashlib.sha256(text.encode()).hexdigest()`, left uninterpreted. */
  type Digest = string -> string

  predicate HexChar(c: char)
  {
    '0' <= c <= '9' || 'a' <= c <= 'f'
  }

  /** What `secrets.token_hex(16)` gives: 32 lower-case hex characters. */
  predicate IsSalt(salt: string)
  {
    |salt| == 32 && forall i :: 0 <= i < |salt| ==> HexChar(salt[i])
  }

  /** `hash_password`: the salt, ':', and the digest of the password followed by the salt. */
  function HashPassword(password: string, salt: string, sha: Digest): (h: string)
    ensures IsSalt(salt) ==> |h| > 32 && h[..32] == salt && h[32] == ':' && h[33..] == sha(password + salt)
  {
    salt + ":" + sha(password + salt)
  }

  /**
   * `verify_password`: the stored text must split at ':' into exactly two parts, a salt and
   * a digest (anything else raises and gives False), and the digest must be that of the
   * password followed by the salt.
   */
  function VerifyPassword(password: string, stored: string, sha: Digest): (ok: bool)
    ensures ok ==> Text.CountIn(stored, {':'}) == 1
  {
    Text.SplitOnCount(stored, {':'});
    var parts := Text.SplitOn(stored, {':'});
    |parts| == 2 && sha(password + parts[0]) == parts[1]
  }

  /** The salted hash splits back into the salt and the digest. */
  lemma HashSplits(password: string, salt: string, sha: Digest)
    requires IsSalt(salt) && ':' !in sha(password + salt)
    ensures Text.SplitOn(HashPassword(password, salt, sha), {':'}) == [salt, sha(password + salt)]
  {
    assert Text.Avoids(salt, {':'}) by {
      forall k | 0 <= k < |salt| ensures salt[k] !in {':'} {
        assert HexChar(salt[k]);
      }
    }
    Text.SplitOnPair(salt, ':', sha(password + salt), {':'});
  }

  /** A password verifies against its own salted hash. */
  lemma VerifyRoundTrip(password: string, salt: string, sha: Digest)
    requires IsSalt(salt) && ':' !in sha(password + salt)
    ensures VerifyPassword(password, HashPassword(password, salt, sha), sha)
  {
    HashSplits(password, salt, sha);
  }

  /** Another password verifies only if its digest with that salt is the same. */
  lemma WrongPasswordRefused(password: string, other: string, salt: string, sha: Digest)
    requires IsSalt(salt) && ':' !in sha(password + salt)
    requires sha(other + salt) != sha(password + salt)
    ensures !VerifyPassword(other, HashPassword(password, salt, sha), sha)
  {
    HashSplits(password, salt, sha);
  }

  /** A stored hash that does not have exactly one ':' never verifies. */
  lemma MalformedHashRefused(password: string, stored: string, sha: Digest)
    requires Text.CountIn(stored, {':'}) != 1
    ensures !VerifyPassword(password, stored, sha)
  {
  }
}
