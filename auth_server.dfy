/** Session resolution. Both the route middleware and the server-side helper
    read the `accessToken` cookie, verify it, and hydrate the principal from
    the CURRENT `users/{uid}` record: only the uid is taken from the token.
    `ResolveSession` is that shared algorithm with its four outcomes;
    `GetSessionUser` is the helper's rendering of it, which folds a missing
    user record into "Invalid token". */
module AuthServer {
  import opened Common
  import opened Tokens
  import opened Store

  datatype AuthFailure = NoToken | Expired | InvalidToken | UserNotFound

  datatype SessionOutcome = Session(principal: Principal) | NoSession(failure: AuthFailure)

  /** The principal built from a stored record; it carries no status. */
  function Hydrate(uid: Uid, u: User): Principal {
    Principal(uid, u.email, u.name, u.role, u.state)
  }

  function ResolveSession(users: map<Uid, User>, access: Option<Token>, nowMs: nat): (r: SessionOutcome)
    ensures r == NoSession(NoToken) <==> access.None?
    ensures r == NoSession(Expired) <==>
              access.Some? && VerifyAccessToken(access.value, nowMs) == Failed(TokenExpiredError)
    ensures r == NoSession(InvalidToken) <==>
              access.Some? && VerifyAccessToken(access.value, nowMs) == Failed(JsonWebTokenError)
    ensures r == NoSession(UserNotFound) <==>
              access.Some? && VerifyAccessToken(access.value, nowMs).Ok? &&
              VerifyAccessToken(access.value, nowMs).claims.uid !in users
    ensures r.Session? ==>
              && access.Some? && access.value.Jwt?
              && r.principal.uid == access.value.claims.uid
              && r.principal.uid in users
              && r.principal == Hydrate(r.principal.uid, users[r.principal.uid])
  {
    if access.None? then NoSession(NoToken)
    else match VerifyAccessToken(access.value, nowMs)
      case Failed(TokenExpiredError) => NoSession(Expired)
      case Failed(JsonWebTokenError) => NoSession(InvalidToken)
      case Ok(claims) =>
        if claims.uid !in users then NoSession(UserNotFound)
        else Session(Hydrate(claims.uid, users[claims.uid]))
  }

  /** Account status is never consulted: a pending or rejected user holding
      a valid access token resolves exactly as an approved one. */
  lemma SessionIgnoresStatus(users: map<Uid, User>, uid: Uid, status: string, access: Option<Token>, nowMs: nat)
    requires uid in users
    ensures ResolveSession(users[uid := users[uid].(status := status)], access, nowMs)
         == ResolveSession(users, access, nowMs)
  {
  }

  /** Role and profile come from the store, not from the token: a token
      whose embedded role is stale still yields the stored role. */
  lemma SessionReadsStoredRole(users: map<Uid, User>, c: Claims, issuedMs: nat, nowMs: nat)
    requires c.uid in users
    requires Seconds(nowMs) < Seconds(issuedMs) + ACCESS_TTL
    ensures var r := ResolveSession(users, Some(GenerateAccessToken(c, issuedMs)), nowMs);
            r.Session? && r.principal.role == users[c.uid].role && r.principal.email == users[c.uid].email
  {
    AccessTokenLifetime(c, issuedMs, nowMs);
  }

  /** The errors `getSessionUser` throws. */
  datatype SessionError = AuthenticationRequired | TokenExpired | InvalidTokenError {
    function Message(): string {
      match this
      case AuthenticationRequired => "Authentication required"
      case TokenExpired => "Token expired"
      case InvalidTokenError => "Invalid token"
    }
    /** Only the expired case carries `code = 'TOKEN_EXPIRED'`. */
    function Code(): Option<string> {
      if TokenExpired? then Some("TOKEN_EXPIRED") else None
    }
  }

  datatype SessionResult = Signed(user: Principal) | Thrown(error: SessionError)

  /** `getSessionUser()`: "User not found" is thrown inside the `try` and
      re-thrown as "Invalid token". */
  function GetSessionUser(users: map<Uid, User>, access: Option<Token>, nowMs: nat): (r: SessionResult)
    ensures r.Signed? <==> ResolveSession(users, access, nowMs).Session?
    ensures r.Signed? ==> r.user == ResolveSession(users, access, nowMs).principal
    ensures r == Thrown(AuthenticationRequired) <==> access.None?
    ensures r == Thrown(TokenExpired) <==> ResolveSession(users, access, nowMs) == NoSession(Expired)
    ensures r == Thrown(InvalidTokenError) <==>
              ResolveSession(users, access, nowMs) in {NoSession(InvalidToken), NoSession(UserNotFound)}
  {
    match ResolveSession(users, access, nowMs)
    case Session(p) => Signed(p)
    case NoSession(NoToken) => Thrown(AuthenticationRequired)
    case NoSession(Expired) => Thrown(TokenExpired)
    case NoSession(_) => Thrown(InvalidTokenError)
  }
}
