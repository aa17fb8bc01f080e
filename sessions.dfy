/**
 * The `users` and `sessions` tables as values, and the three statements the
 * session lifecycle runs against them: the credential lookup and the INSERT of
 * `/login` (backend/src/auth.ts:18-35), the DELETE of `/logout`
 * (backend/src/auth.ts:64) and the validity query of `authMiddleware`
 * (backend/src/middleware.ts:6). Times are milliseconds since the epoch.
 */
module Sessions {
  import opened Wrappers

  /** `7 * 24 * 60 * 60 * 1000`: how long a new session lives. */
  const SessionLifetimeMs: int := 604800000

  /** A row of `users`; `passwordHash` is compared to the submitted password as it is. */
  datatype UserRow = UserRow(id: int, username: string, passwordHash: string)

  /** A row of `sessions`, keyed by its id (the token carried in the cookie). */
  datatype SessionRow = SessionRow(userId: int, expiresAt: int)

  /** The identity attached to a request and returned by `/login`: `{ id, username }`. */
  datatype User = User(id: int, username: string)

  type SessionTable = map<string, SessionRow>

  /** `users.id` is the primary key. */
  predicate UniqueIds(users: seq<UserRow>)
  {
    forall i, j :: 0 <= i < j < |users| ==> users[i].id != users[j].id
  }

  /** `username = ? AND password_hash = ?`. */
  predicate Matches(row: UserRow, username: string, password: string)
  {
    row.username == username && row.passwordHash == password
  }

  /**
   * `SELECT id, username FROM users WHERE username = ? AND password_hash = ?`
   * with `.first()`: the first matching row in table order, or None.
   */
  function FindUser(users: seq<UserRow>, username: string, password: string): (r: Option<UserRow>)
    ensures r.Some? ==> r.value in users && Matches(r.value, username, password)
  {
    if users == [] then None
    else if Matches(users[0], username, password) then Some(users[0])
    else FindUser(users[1..], username, password)
  }

  /** The lookup fails exactly when no row matches, and otherwise returns the first row that does. */
  lemma {:induction false} FindUserFirstMatch(users: seq<UserRow>, username: string, password: string)
    ensures FindUser(users, username, password).None? <==> forall i :: 0 <= i < |users| ==> !Matches(users[i], username, password)
    ensures FindUser(users, username, password).Some? ==>
              exists i :: (0 <= i < |users| && users[i] == FindUser(users, username, password).value
                           && forall j :: 0 <= j < i ==> !Matches(users[j], username, password))
  {
    if users != [] && !Matches(users[0], username, password) {
      var tail := users[1..];
      FindUserFirstMatch(tail, username, password);
      assert forall i :: 0 < i < |users| ==> users[i] == tail[i - 1];
      if FindUser(tail, username, password).Some? {
        var i :| 0 <= i < |tail| && tail[i] == FindUser(tail, username, password).value
          && forall j :: 0 <= j < i ==> !Matches(tail[j], username, password);
        assert users[i + 1] == tail[i];
      }
    }
  }

  /** The row of `users` that the join `ON s.user_id = u.id` pairs with a session: the first with that id. */
  function UserById(users: seq<UserRow>, id: int): (r: Option<UserRow>)
    ensures r.Some? ==> r.value in users && r.value.id == id
  {
    if users == [] then None
    else if users[0].id == id then Some(users[0])
    else UserById(users[1..], id)
  }

  /** The join finds a row exactly when some row carries the id. */
  lemma {:induction false} UserByIdFound(users: seq<UserRow>, id: int)
    ensures UserById(users, id).Some? <==> exists i :: 0 <= i < |users| && users[i].id == id
  {
    if users != [] && users[0].id != id {
      UserByIdFound(users[1..], id);
      assert forall i :: 0 < i < |users| ==> users[i] == users[1..][i - 1];
      if exists i :: 0 <= i < |users[1..]| && users[1..][i].id == id {
        var i :| 0 <= i < |users[1..]| && users[1..][i].id == id;
        assert users[i + 1].id == id;
      }
    } else if users != [] {
      assert users[0].id == id;
    }
  }

  /** In a table with a primary key, the join finds the one row with that id. */
  lemma {:induction false} UserByIdUnique(users: seq<UserRow>, i: int)
    requires UniqueIds(users)
    requires 0 <= i < |users|
    ensures UserById(users, users[i].id) == Some(users[i])
  {
    if i > 0 {
      assert users[0].id != users[i].id;
      assert UniqueIds(users[1..]) by {
        forall a, b | 0 <= a < b < |users[1..]| ensures users[1..][a].id != users[1..][b].id {
          assert users[1..][a] == users[a + 1] && users[1..][b] == users[b + 1];
        }
      }
      assert users[1..][i - 1] == users[i];
      UserByIdUnique(users[1..], i - 1);
    }
  }

  /** `INSERT INTO sessions (id, user_id, expires_at) VALUES (?, ?, now + 7 days)`. */
  function IssueSession(sessions: SessionTable, id: string, userId: int, now: int): (r: SessionTable)
    ensures r.Keys == sessions.Keys + {id}
    ensures r[id] == SessionRow(userId, now + SessionLifetimeMs)
    ensures forall t :: t in sessions && t != id ==> r[t] == sessions[t]
  {
    sessions[id := SessionRow(userId, now + SessionLifetimeMs)]
  }

  /** `DELETE FROM sessions WHERE id = ?`: a no-op for an unknown id. */
  function RevokeSession(sessions: SessionTable, id: string): (r: SessionTable)
    ensures r.Keys == sessions.Keys - {id}
    ensures forall t :: t in r ==> r[t] == sessions[t]
    ensures id !in sessions ==> r == sessions
  {
    sessions - {id}
  }

  /**
   * `SELECT s.user_id, u.username FROM sessions s JOIN users u ON s.user_id = u.id
   *  WHERE s.id = ? AND s.expires_at > ?`: the identity the token stands for now.
   */
  function Authenticate(sessions: SessionTable, users: seq<UserRow>, token: string, now: int): (r: Option<User>)
    ensures r.Some? ==> token in sessions && now < sessions[token].expiresAt
    ensures r.Some? ==> r.value.id == sessions[token].userId
    ensures r.Some? ==> exists row :: row in users && row.id == r.value.id && row.username == r.value.username
  {
    if token in sessions && now < sessions[token].expiresAt then
      match UserById(users, sessions[token].userId)
      case None => None
      case Some(row) => Some(User(row.id, row.username))
    else None
  }

  /**
   * A token is accepted exactly when its row exists, has not expired
   * (`expires_at > now`, strictly), and its user row exists.
   */
  lemma AuthenticateAcceptsIff(sessions: SessionTable, users: seq<UserRow>, token: string, now: int)
    ensures Authenticate(sessions, users, token, now).Some? <==>
      && token in sessions
      && now < sessions[token].expiresAt
      && exists i :: 0 <= i < |users| && users[i].id == sessions[token].userId
  {
    if token in sessions {
      UserByIdFound(users, sessions[token].userId);
    }
  }

  /** A session issued at `t` is accepted before `t + 7 days` and rejected from then on. */
  lemma IssuedSessionLifetime(sessions: SessionTable, users: seq<UserRow>, id: string, i: int, t: int, now: int)
    requires UniqueIds(users)
    requires 0 <= i < |users|
    ensures Authenticate(IssueSession(sessions, id, users[i].id, t), users, id, now)
      == if now < t + SessionLifetimeMs then Some(User(users[i].id, users[i].username)) else None
  {
    UserByIdUnique(users, i);
  }

  /** Once its row is deleted, a token is rejected at every time. */
  lemma RevokedSessionRejected(sessions: SessionTable, users: seq<UserRow>, id: string, now: int)
    ensures Authenticate(RevokeSession(sessions, id), users, id, now) == None
  {
  }

  /** Deleting one session leaves every other token's answer as it was. */
  lemma RevokeKeepsOtherSessions(sessions: SessionTable, users: seq<UserRow>, id: string, token: string, now: int)
    requires token != id
    ensures Authenticate(RevokeSession(sessions, id), users, token, now) == Authenticate(sessions, users, token, now)
  {
  }

  /** Inserting a session under a fresh id leaves every other token's answer as it was. */
  lemma IssueKeepsOtherSessions(sessions: SessionTable, users: seq<UserRow>, id: string, userId: int, t: int, token: string, now: int)
    requires token != id
    ensures Authenticate(IssueSession(sessions, id, userId, t), users, token, now) == Authenticate(sessions, users, token, now)
  {
  }

  /** Acceptance only ends: a token accepted at `later` was accepted, as the same user, at every earlier time. */
  lemma AcceptanceOnlyEnds(sessions: SessionTable, users: seq<UserRow>, token: string, earlier: int, later: int)
    requires earlier <= later
    requires Authenticate(sessions, users, token, later).Some?
    ensures Authenticate(sessions, users, token, earlier) == Authenticate(sessions, users, token, later)
  {
  }
}
