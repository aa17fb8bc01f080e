/**
 * The request handlers of the session lifecycle: `/auth/login` and
 * `/auth/logout` (backend/src/auth.ts:15-77), `authMiddleware`
 * (backend/src/middleware.ts:4-9), the `/auth/session` route that sits behind
 * it (backend/src/auth.ts:80-83) and the guard in front of the admin routes
 * (backend/src/index.ts:31-32).
 *
 * `Backend` holds the database and the environment; a `Context` is one
 * request: what it carries in, and the identity and cookies set on it.
 */
module Server {
  import opened Wrappers
  import opened Json
  import opened Sessions
  import opened CookieDomain
  import Schemas

  /** The name of the session cookie. */
  const SessionCookieName: string := "auth_session"

  /** A `Set-Cookie` header written on the response. */
  datatype CookieOp =
    | SetCookie(name: string, value: string, expires: int, domain: Option<string>,
                path: string, httpOnly: bool, secure: bool, sameSite: string)
    | DeleteCookie(name: string, path: string, domain: Option<string>)

  /** A JSON response: status code and body. */
  datatype Response = Response(status: int, body: Json)

  /** What a middleware does with a request: hand it on with `await next()`, or answer it. */
  datatype Step = Next | Halt(response: Response)

  /** A JavaScript truthiness test on an optional string: present and not empty. */
  predicate Truthy(s: Option<string>)
  {
    s.Some? && s.value != ""
  }

  /** The session cookie `/login` sets: secure, HTTP-only, cross-site, whole site, same expiry as the row. */
  function SessionCookie(id: string, expires: int, domain: Option<string>): CookieOp
  {
    SetCookie(SessionCookieName, id, expires, domain, "/", true, true, "None")
  }

  /** `{ id, username }`. */
  function UserJson(u: User): Json
  {
    JObj(map["id" := JNum(u.id), "username" := JStr(u.username)])
  }

  /** The 400 answer of the JSON validator: `{ success: false, ... }`. */
  const ValidationFailed: Response := Response(400, JObj(map["success" := JBool(false)]))

  const InvalidCredentials: Response := Response(401, ErrorBody("Invalid credentials"))
  const SecretMissing: Response := Response(500, ErrorBody("Session secret not configured"))
  const LoggedOut: Response := Response(200, JObj(map["message" := JStr("Logged out")]))
  const NoSessionCookie: Response := Response(401, ErrorBody("Unauthorized: No session cookie"))
  const InvalidSession: Response := Response(401, ErrorBody("Unauthorized: Invalid or expired session"))

  /**
   * The session a successful login issues at `now` lets the middleware through
   * as that user on every request before `now + 7 days`, and on none from then on.
   */
  lemma LoginSessionLifetime(users: seq<UserRow>, sessions: SessionTable, req: Schemas.LoginRequest,
                             freshId: string, now: int, later: int)
    requires UniqueIds(users)
    requires FindUser(users, req.username, req.password).Some?
    ensures var row := FindUser(users, req.username, req.password).value;
      Authenticate(IssueSession(sessions, freshId, row.id, now), users, freshId, later)
        == if later < now + SessionLifetimeMs then Some(User(row.id, row.username)) else None
  {
    var row := FindUser(users, req.username, req.password).value;
    var i :| 0 <= i < |users| && users[i] == row;
    IssuedSessionLifetime(sessions, users, freshId, i, now, later);
  }

  /** One request as Hono's context `c` sees it. */
  class Context {
    /** The `auth_session` cookie sent with the request. */
    const sessionCookie: Option<string>
    /** The hostname of the `Origin` header; None when the header is absent or empty. */
    const originHost: Option<string>
    /** The parsed JSON body. */
    const body: Json
    /** `c.get('user')`, set by the middleware. */
    var user: Option<User>
    /** The `Set-Cookie` headers written so far, in order. */
    var cookieOps: seq<CookieOp>

    constructor (sessionCookie: Option<string>, originHost: Option<string>, body: Json)
      ensures this.sessionCookie == sessionCookie && this.originHost == originHost && this.body == body
      ensures user == None && cookieOps == []
    {
      this.sessionCookie := sessionCookie;
      this.originHost := originHost;
      this.body := body;
      user := None;
      cookieOps := [];
    }
  }

  /** The worker: the D1 tables and the `SESSION_SECRET` binding. */
  class Backend {
    /** The `users` table, in table order; it is not changed by this core. */
    const users: seq<UserRow>
    /** The `SESSION_SECRET` binding. */
    const sessionSecret: Option<string>
    /** The `sessions` table. */
    var sessions: SessionTable
    /** How many SQL statements have been run, to state which paths touch the database. */
    ghost var statementsRun: nat

    constructor (users: seq<UserRow>, sessionSecret: Option<string>, sessions: SessionTable)
      ensures this.users == users && this.sessionSecret == sessionSecret && this.sessions == sessions
      ensures statementsRun == 0
    {
      this.users := users;
      this.sessionSecret := sessionSecret;
      this.sessions := sessions;
      statementsRun := 0;
    }

    /**
     * `POST /auth/login`. `freshId` is the `crypto.randomUUID()` of the call:
     * never empty, and assumed not to collide with a live session id.
     */
    method Login(ctx: Context, now: int, freshId: string) returns (resp: Response)
      requires freshId != "" && freshId !in sessions
      modifies this`sessions, this`statementsRun, ctx`cookieOps
      ensures ctx.user == old(ctx.user)
      ensures match Schemas.ParseLogin(ctx.body)
        case None =>
          && resp == ValidationFailed
          && sessions == old(sessions) && ctx.cookieOps == old(ctx.cookieOps)
          && statementsRun == old(statementsRun)
        case Some(req) =>
          match FindUser(users, req.username, req.password)
          case None =>
            && resp == InvalidCredentials
            && sessions == old(sessions) && ctx.cookieOps == old(ctx.cookieOps)
          case Some(row) =>
            if !Truthy(sessionSecret) then
              && resp == SecretMissing
              && sessions == old(sessions) && ctx.cookieOps == old(ctx.cookieOps)
            else
              && sessions == IssueSession(old(sessions), freshId, row.id, now)
              && ctx.cookieOps == old(ctx.cookieOps)
                   + [SessionCookie(freshId, now + SessionLifetimeMs, CookieDomainFor(ctx.originHost))]
              && resp == Response(200, UserJson(User(row.id, row.username)))
    {
      var parsed := Schemas.ParseLogin(ctx.body);
      if parsed.None? {
        return ValidationFailed;
      }
      var req := parsed.value;
      statementsRun := statementsRun + 1;
      var found := FindUser(users, req.username, req.password);
      if found.None? {
        return InvalidCredentials;
      }
      var row := found.value;
      var expires := now + SessionLifetimeMs;
      if !Truthy(sessionSecret) {
        return SecretMissing;
      }
      statementsRun := statementsRun + 1;
      sessions := sessions[freshId := SessionRow(row.id, expires)];
      var domain := CookieDomainFor(ctx.originHost);
      ctx.cookieOps := ctx.cookieOps + [SessionCookie(freshId, expires, domain)];
      resp := Response(200, UserJson(User(row.id, row.username)));
    }

    /** `POST /auth/logout`: delete the cookie's session, if any, and always clear the cookie. */
    method Logout(ctx: Context) returns (resp: Response)
      modifies this`sessions, this`statementsRun, ctx`cookieOps
      ensures sessions == if Truthy(ctx.sessionCookie) then RevokeSession(old(sessions), ctx.sessionCookie.value)
                          else old(sessions)
      ensures !Truthy(ctx.sessionCookie) ==> statementsRun == old(statementsRun)
      ensures ctx.cookieOps == old(ctx.cookieOps)
                + [DeleteCookie(SessionCookieName, "/", CookieDomainFor(ctx.originHost))]
      ensures ctx.user == old(ctx.user)
      ensures resp == LoggedOut
    {
      if Truthy(ctx.sessionCookie) {
        statementsRun := statementsRun + 1;
        sessions := sessions - {ctx.sessionCookie.value};
      }
      var domain := CookieDomainFor(ctx.originHost);
      ctx.cookieOps := ctx.cookieOps + [DeleteCookie(SessionCookieName, "/", domain)];
      resp := LoggedOut;
    }

    /**
     * `authMiddleware`: reject a request without a cookie before any query;
     * otherwise look the token up, clear the cookie and reject when the query
     * finds nothing, or set the user and hand on. It never writes `sessions`.
     */
    method AuthMiddleware(ctx: Context, now: int) returns (step: Step)
      modifies this`statementsRun, ctx`user, ctx`cookieOps
      ensures !Truthy(ctx.sessionCookie) ==>
        && step == Halt(NoSessionCookie)
        && statementsRun == old(statementsRun)
        && ctx.user == old(ctx.user) && ctx.cookieOps == old(ctx.cookieOps)
      ensures Truthy(ctx.sessionCookie) ==>
        match Authenticate(sessions, users, ctx.sessionCookie.value, now)
        case None =>
          && step == Halt(InvalidSession)
          && ctx.user == old(ctx.user)
          && ctx.cookieOps == old(ctx.cookieOps) + [DeleteCookie(SessionCookieName, "/", None)]
        case Some(u) =>
          && step == Next
          && ctx.user == Some(u)
          && ctx.cookieOps == old(ctx.cookieOps)
    {
      if !Truthy(ctx.sessionCookie) {
        return Halt(NoSessionCookie);
      }
      statementsRun := statementsRun + 1;
      var found := Authenticate(sessions, users, ctx.sessionCookie.value, now);
      if found.None? {
        ctx.cookieOps := ctx.cookieOps + [DeleteCookie(SessionCookieName, "/", None)];
        return Halt(InvalidSession);
      }
      ctx.user := found;
      step := Next;
    }

    /** `GET /auth/session` behind the middleware: `{ user }` when the session is valid. */
    method GetSession(ctx: Context, now: int) returns (resp: Response)
      modifies this`statementsRun, ctx`user, ctx`cookieOps
      ensures !Truthy(ctx.sessionCookie) ==> resp == NoSessionCookie
      ensures Truthy(ctx.sessionCookie) ==>
        match Authenticate(sessions, users, ctx.sessionCookie.value, now)
        case None => resp == InvalidSession
        case Some(u) => resp == Response(200, JObj(map["user" := UserJson(u)]))
    {
      var step := AuthMiddleware(ctx, now);
      if step.Halt? {
        return step.response;
      }
      resp := Response(200, JObj(map["user" := UserJson(ctx.user.value)]));
    }

    /**
     * A request under the admin routes: the middleware runs first, and the admin
     * app (outside this model; its answer is `adminResponse`) is reached only
     * through its `next`, exactly when the session is valid.
     */
    method ServeAdmin(ctx: Context, now: int, adminResponse: Response) returns (resp: Response, reachedAdmin: bool)
      modifies this`statementsRun, ctx`user, ctx`cookieOps
      ensures reachedAdmin <==>
        Truthy(ctx.sessionCookie) && Authenticate(sessions, users, ctx.sessionCookie.value, now).Some?
      ensures reachedAdmin ==> resp == adminResponse
      ensures reachedAdmin ==> ctx.user == Authenticate(sessions, users, ctx.sessionCookie.value, now)
      ensures !reachedAdmin ==> resp.status == 401
    {
      var step := AuthMiddleware(ctx, now);
      match step
      case Halt(r) =>
        resp, reachedAdmin := r, false;
      case Next =>
        resp, reachedAdmin := adminResponse, true;
    }
  }
}
