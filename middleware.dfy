/** The Express route guards: `verifyToken` resolves the `accessToken`
    cookie to a principal (the `req.user` it assigns) or answers 401 without
    calling `next`; `requireRole` lets through only principals whose stored
    role is in the allowed list. */
module Middleware {
  import opened Common
  import opened Tokens
  import opened Store
  import opened Http
  import opened AuthServer

  /** Either `next()` runs with `req.user` set, or the chain stops with a
      response. */
  datatype Gate = Pass(user: Principal) | Halt(response: Response)

  /** The 401 answers of `verifyToken`; only an expired token carries the
      `TOKEN_EXPIRED` code. */
  function Unauthorized(f: AuthFailure): (r: Response)
    ensures r.status == 401 && r.body.Error? && r.cookies == []
    ensures r.body.code == Some(TOKEN_EXPIRED) <==> f == Expired
    ensures r.body.code.None? <==> f != Expired
    ensures f == Expired <==> r.body.error == "Token expired"
  {
    match f
    case NoToken => Fail(401, "Access token required")
    case Expired => Response(401, Error("Token expired", Some(TOKEN_EXPIRED)), [])
    case InvalidToken => Fail(401, "Invalid token")
    case UserNotFound => Fail(401, "User not found")
  }

  /** `verifyToken`: reads the cookie and the caller's record and writes
      nothing. */
  method VerifyToken(db: Database, cookies: Cookies, nowMs: nat) returns (gate: Gate)
    ensures gate.Pass? <==> ResolveSession(db.users, cookies.accessToken, nowMs).Session?
    ensures gate.Pass? ==>
              && cookies.accessToken.Some? && cookies.accessToken.value.Jwt?
              && gate.user.uid == cookies.accessToken.value.claims.uid
              && gate.user.uid in db.users
              && gate.user == Hydrate(gate.user.uid, db.users[gate.user.uid])
    ensures cookies.accessToken.None? ==> gate == Halt(Fail(401, "Access token required"))
    ensures gate.Halt? ==> gate.response == Unauthorized(ResolveSession(db.users, cookies.accessToken, nowMs).failure)
  {
    if cookies.accessToken.None? {
      return Halt(Unauthorized(NoToken));
    }
    var token := cookies.accessToken.value;
    var decoded := VerifyAccessToken(token, nowMs);
    if decoded.Failed? {
      var failure := if decoded.error == TokenExpiredError then Expired else InvalidToken;
      return Halt(Unauthorized(failure));
    }
    var uid := decoded.claims.uid;
    if uid !in db.users {
      return Halt(Unauthorized(UserNotFound));
    }
    var userData := db.users[uid];
    gate := Pass(Principal(uid, userData.email, userData.name, userData.role, userData.state));
  }

  /** `requireRole(...roles)`: `None` means `next()` runs. */
  function RequireRole(user: Option<Principal>, roles: seq<string>): (r: Option<Response>)
    ensures r.None? <==> user.Some? && user.value.role in roles
    ensures user.None? ==> r == Some(Fail(401, "Authentication required"))
    ensures user.Some? && user.value.role !in roles ==> r == Some(Fail(403, "Insufficient permissions"))
  {
    if user.None? then Some(Fail(401, "Authentication required"))
    else if user.value.role !in roles then Some(Fail(403, "Insufficient permissions"))
    else None
  }

  /** `router.use(verifyToken, requireRole('admin'))` in front of every
      admin route. */
  method AdminGate(db: Database, cookies: Cookies, nowMs: nat) returns (gate: Gate)
    ensures gate.Pass? <==> var s := ResolveSession(db.users, cookies.accessToken, nowMs);
                            s.Session? && s.principal.role == "admin"
    ensures gate.Pass? ==> gate.user == ResolveSession(db.users, cookies.accessToken, nowMs).principal
    ensures ResolveSession(db.users, cookies.accessToken, nowMs).NoSession? ==>
              gate == Halt(Unauthorized(ResolveSession(db.users, cookies.accessToken, nowMs).failure))
    ensures ResolveSession(db.users, cookies.accessToken, nowMs).Session? && gate.Halt? ==>
              gate.response == Fail(403, "Insufficient permissions")
  {
    gate := VerifyToken(db, cookies, nowMs);
    if gate.Pass? {
      var denied := RequireRole(Some(gate.user), ["admin"]);
      if denied.Some? {
        gate := Halt(denied.value);
      }
    }
  }
}
