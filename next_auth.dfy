/** The Next.js route handlers' side of sessions: how a `getSessionUser`
    failure is answered, the admin check, and the logout and `me` handlers,
    whose behaviour differs from their Express counterparts. */
module NextAuth {
  import opened Common
  import opened Tokens
  import opened Store
  import opened Http
  import opened AuthServer
  import opened Middleware
  import opened AuthRoutes

  /** The `catch` of the organization and admin handlers: only "Authentication
      required" is a 401; every other session error, an expired token
      included, becomes a 500 carrying the error's message and no code. */
  function SessionFailure(e: SessionError): (r: Response)
    ensures r.status == 401 <==> e == AuthenticationRequired
    ensures r.status != 401 ==> r.status == 500
    ensures r == Response(r.status, Error(e.Message(), None), [])
  {
    Response(if e.Message() == "Authentication required" then 401 else 500, Error(e.Message(), None), [])
  }

  /** The handler prologue `const user = await getSessionUser()`. */
  function NextSession(users: map<Uid, User>, access: Option<Token>, nowMs: nat): (g: Gate)
    ensures g.Pass? <==> ResolveSession(users, access, nowMs).Session?
    ensures g.Pass? ==> g.user == ResolveSession(users, access, nowMs).principal
    ensures g.Halt? ==> g.response == SessionFailure(GetSessionUser(users, access, nowMs).error)
  {
    match GetSessionUser(users, access, nowMs)
    case Signed(user) => Pass(user)
    case Thrown(e) => Halt(SessionFailure(e))
  }

  /** The admin handlers' prologue: a session, then `user.role !== 'admin'`
      answered with 403. */
  function NextAdminSession(users: map<Uid, User>, access: Option<Token>, nowMs: nat): (g: Gate)
    ensures g.Pass? <==> var s := ResolveSession(users, access, nowMs);
                         s.Session? && s.principal.role == "admin"
    ensures g.Pass? ==> g.user == ResolveSession(users, access, nowMs).principal
    ensures ResolveSession(users, access, nowMs).NoSession? ==>
              g == Halt(SessionFailure(GetSessionUser(users, access, nowMs).error))
    ensures ResolveSession(users, access, nowMs).Session? && g.Halt? ==> g.response == Fail(403, "Admin access required")
  {
    match NextSession(users, access, nowMs)
    case Pass(user) => if user.role != "admin" then Halt(Fail(403, "Admin access required")) else Pass(user)
    case Halt(r) => Halt(r)
  }

  /** AS WRITTEN, an expired access token reaches an organization or admin
      handler as a 500 without the `TOKEN_EXPIRED` code, so the client's
      interceptor, which refreshes only on a 401 carrying that code, does
      not refresh; Express answers the same token with exactly that 401. */
  lemma ExpiredTokenNotRefreshable(users: map<Uid, User>, c: Claims, issuedMs: nat, nowMs: nat)
    requires Seconds(nowMs) >= Seconds(issuedMs) + ACCESS_TTL
    ensures var g := NextSession(users, Some(GenerateAccessToken(c, issuedMs)), nowMs);
            g == Halt(Response(500, Error("Token expired", None), []))
    ensures var r := Unauthorized(ResolveSession(users, Some(GenerateAccessToken(c, issuedMs)), nowMs).failure);
            r.status == 401 && r.body.code == Some(TOKEN_EXPIRED)
  {
    AccessTokenLifetime(c, issuedMs, nowMs);
  }

  /** The answer the Express middleware and the Next.js `me` route give:
      every session failure is a 401, and an expired token carries the
      `TOKEN_EXPIRED` marker the client's interceptor looks for. */
  function IntendedSessionFailure(e: SessionError): (r: Response)
    ensures r.status == 401 && r.body.Error? && r.body.error == e.Message() && r.cookies == []
    ensures r.body.code == Some(TOKEN_EXPIRED) <==> e == TokenExpired
  {
    Response(401, Error(e.Message(), e.Code()), [])
  }

  /** With the intended answer, an expired token on the Next.js side is
      refreshable exactly as on Express, and both servers agree on the
      status and the code of every session failure. */
  lemma IntendedFailureMatchesExpress(users: map<Uid, User>, access: Option<Token>, nowMs: nat)
    requires ResolveSession(users, access, nowMs).NoSession?
    ensures var e := GetSessionUser(users, access, nowMs).error;
            var f := ResolveSession(users, access, nowMs).failure;
            && IntendedSessionFailure(e).status == Unauthorized(f).status
            && IntendedSessionFailure(e).body.code == Unauthorized(f).body.code
  {
  }

  /** Next.js `POST /api/auth/logout`: always answers 200 and clears both
      cookies; the refresh record goes only when a session resolves. */
  method Logout(db: Database, cookies: Cookies, nowMs: nat) returns (res: Response)
    modifies db`refreshTokens
    ensures var s := GetSessionUser(db.users, cookies.accessToken, nowMs);
            && (s.Signed? ==>
                  && db.refreshTokens == old(db.refreshTokens) - {s.user.uid}
                  && res == Response(200, Info("Logged out successfully"), CLEAR_SESSION))
            && (s.Thrown? ==>
                  && db.refreshTokens == old(db.refreshTokens)
                  && res == Response(200, Info("Logged out"), CLEAR_SESSION))
  {
    var session := GetSessionUser(db.users, cookies.accessToken, nowMs);
    if session.Thrown? {
      return Response(200, Info("Logged out"), CLEAR_SESSION);
    }
    db.refreshTokens := db.refreshTokens - {session.user.uid};
    res := Response(200, Info("Logged out successfully"), CLEAR_SESSION);
  }

  /** Next.js `GET /api/auth/me`: every session failure is a 401; only the
      expired case carries the code. */
  function Me(users: map<Uid, User>, access: Option<Token>, nowMs: nat): (r: Response)
    ensures r.status == 200 <==> ResolveSession(users, access, nowMs).Session?
    ensures r.status != 200 ==> r.status == 401 && r.body.Error?
    ensures r.body.Error? ==>
              (r.body.code == Some(TOKEN_EXPIRED) <==> ResolveSession(users, access, nowMs) == NoSession(Expired))
  {
    match GetSessionUser(users, access, nowMs)
    case Signed(user) => Reply(200, CurrentUser(user))
    case Thrown(e) =>
      if e.Code() == Some(TOKEN_EXPIRED) then Response(401, Error("Token expired", Some(TOKEN_EXPIRED)), [])
      else Response(401, Error(e.Message(), None), [])
  }

  /** The two `me` endpoints answer alike except in two messages: a missing
      cookie reads "Authentication required" on Next.js and "Access token
      required" on Express, and a token naming a deleted user reads
      "Invalid token" on Next.js and "User not found" on Express. */
  lemma MeServersAgree(users: map<Uid, User>, access: Option<Token>, nowMs: nat)
    ensures ResolveSession(users, access, nowMs) !in {NoSession(NoToken), NoSession(UserNotFound)} ==>
              Me(users, access, nowMs) == MeReply(ResolveSession(users, access, nowMs))
    ensures ResolveSession(users, access, nowMs) == NoSession(NoToken) ==>
              && Me(users, access, nowMs) == Fail(401, "Authentication required")
              && MeReply(ResolveSession(users, access, nowMs)) == Fail(401, "Access token required")
    ensures ResolveSession(users, access, nowMs) == NoSession(UserNotFound) ==>
              && Me(users, access, nowMs) == Fail(401, "Invalid token")
              && MeReply(ResolveSession(users, access, nowMs)) == Fail(401, "User not found")
  {
  }
}
