/** The account endpoints under `/api/auth`. Registration, login and refresh
    run the same steps on both servers and are modelled once; logout and
    `me` differ and have an Express form here and a Next.js form in
    NextAuth. The fresh push key, the bcrypt salt and the clock are
    parameters. */
module AuthRoutes {
  import opened Common
  import opened Tokens
  import opened Store
  import opened Http
  import opened Ordering
  import opened AuthServer
  import opened Middleware
  import opened Accounts

  const REGISTER_FIELDS_REQUIRED := "Name, email, and password are required"
  const LOGIN_FIELDS_REQUIRED := "Email and password are required"

  /** The claims both tokens of a fresh session carry. */
  function SessionClaims(uid: Uid, email: string, role: string): Claims {
    Claims(uid, email, role)
  }

  /** The access token a registration or login hands out resolves, for its
      15 minutes, to the stored record of the user it names. */
  lemma {:induction false} IssuedSessionResolves(users: map<Uid, User>, c: Claims, issuedMs: nat, nowMs: nat)
    requires c.uid in users
    requires issuedMs <= nowMs && Seconds(nowMs) < Seconds(issuedMs) + ACCESS_TTL
    ensures ResolveSession(users, Some(GenerateAccessToken(c, issuedMs)), nowMs)
         == Session(Hydrate(c.uid, users[c.uid]))
  {
    AccessTokenLifetime(c, issuedMs, nowMs);
  }

  /** `POST /register`: a new pending account with role 'user', a stored
      refresh token and both session cookies. An email already on record is
      refused. */
  method Register(db: Database, name: string, email: string, password: string, state: string,
                  uid: Uid, salt: nat, nowMs: nat, production: bool) returns (res: Response)
    requires uid !in db.users   // `push().key` is a fresh key
    modifies db`users, db`refreshTokens
    ensures name == "" || email == "" || password == "" ==>
              res == Fail(400, REGISTER_FIELDS_REQUIRED) && unchanged(db)
    ensures name != "" && email != "" && password != "" && WithEmail(old(db.users), email) != {} ==>
              res == Fail(409, "Email already registered") && unchanged(db)
    ensures name != "" && email != "" && password != "" && WithEmail(old(db.users), email) == {} ==>
              var c := SessionClaims(uid, email, "user");
              var refresh := GenerateRefreshToken(c, nowMs);
              && db.users == old(db.users)[uid := NewUser(name, email, HashPassword(password, salt), "user",
                                                          state, "pending", nowMs)]
              && db.refreshTokens == old(db.refreshTokens)[uid := RefreshRecord(refresh, nowMs)]
              && res == Response(201, Registered(UserView(uid, name, email, "user", state, "pending"), true),
                                 SessionCookies(GenerateAccessToken(c, nowMs), refresh, production))
    ensures old(db.PrimaryOrgConsistent()) ==> db.PrimaryOrgConsistent()
  {
    if name == "" || email == "" || password == "" {
      return Fail(400, REGISTER_FIELDS_REQUIRED);
    }
    var existing := FirstMatch(db.users, email);
    if existing.Some? {
      return Fail(409, "Email already registered");
    }
    var passwordHash := HashPassword(password, salt);
    db.users := db.users[uid := NewUser(name, email, passwordHash, "user", state, "pending", nowMs)];
    var payload := SessionClaims(uid, email, "user");
    var accessToken := GenerateAccessToken(payload, nowMs);
    var refreshToken := GenerateRefreshToken(payload, nowMs);
    db.refreshTokens := db.refreshTokens[uid := RefreshRecord(refreshToken, nowMs)];
    res := Response(201, Registered(UserView(uid, name, email, "user", state, "pending"), true),
                    SessionCookies(accessToken, refreshToken, production));
  }

  /** `POST /login`: the decision of `LoginDecision`, carried out. Only an
      admitted login writes, and it writes only the caller's refresh
      record. */
  method Login(db: Database, email: string, password: string, nowMs: nat, production: bool)
    returns (res: Response)
    modifies db`refreshTokens
    ensures var d := LoginDecision(db.users, email, password);
            && (d == MissingCredentials ==> res == Fail(400, LOGIN_FIELDS_REQUIRED))
            && (d == BadCredentials ==> res == Fail(401, BAD_CREDENTIALS))
            && (d == NoPasswordHash ==> res == Fail(500, INTERNAL_ERROR))
            && (d.Gated? ==> res == Fail(403, d.message))
            && (!d.Admitted? ==> db.refreshTokens == old(db.refreshTokens))
    ensures var d := LoginDecision(db.users, email, password);
            d.Admitted? ==>
              var u := db.users[d.uid];
              var c := SessionClaims(d.uid, email, u.role);
              && db.refreshTokens == old(db.refreshTokens)[d.uid := RefreshRecord(GenerateRefreshToken(c, nowMs), nowMs)]
              && res == Response(200, LoggedIn(LoginView(d.uid, email, u)),
                                 SessionCookies(GenerateAccessToken(c, nowMs), GenerateRefreshToken(c, nowMs), production))
  {
    if email == "" || password == "" {
      return Fail(400, LOGIN_FIELDS_REQUIRED);
    }
    var found := LastMatch(db.users, email);
    if found.None? {
      return Fail(401, BAD_CREDENTIALS);
    }
    var uid := found.value;
    var userData := db.users[uid];
    if userData.passwordHash.None? {
      return Fail(500, INTERNAL_ERROR);
    }
    var isMatch := ComparePassword(password, userData.passwordHash.value);
    if !isMatch {
      return Fail(401, BAD_CREDENTIALS);
    }
    if userData.role != "admin" {
      if userData.status == "pending" {
        return Fail(403, PENDING_MESSAGE);
      }
      if userData.status == "rejected" {
        return Fail(403, REJECTED_MESSAGE);
      }
    }
    var payload := SessionClaims(uid, email, userData.role);
    var accessToken := GenerateAccessToken(payload, nowMs);
    var refreshToken := GenerateRefreshToken(payload, nowMs);
    db.refreshTokens := db.refreshTokens[uid := RefreshRecord(refreshToken, nowMs)];
    res := Response(200, LoggedIn(LoginView(uid, email, userData)),
                    SessionCookies(accessToken, refreshToken, production));
  }

  /** `POST /refresh`: reads the store and writes nothing; the answer is the
      one `RefreshDecision` and `RefreshReply` give. A token that fails to
      verify lands in the `catch`, which answers like a stale one. */
  method Refresh(db: Database, cookies: Cookies, nowMs: nat, production: bool) returns (res: Response)
    ensures res == RefreshReply(RefreshDecision(db.refreshTokens, db.users, cookies.refreshToken, nowMs),
                                nowMs, production)
    ensures res.status == 200 ==> cookies.refreshToken.Some? && cookies.refreshToken.value.Jwt?
                                  && cookies.refreshToken.value.claims.uid in db.refreshTokens
  {
    if cookies.refreshToken.None? {
      return Fail(401, "Refresh token required");
    }
    var token := cookies.refreshToken.value;
    var decoded := VerifyRefreshToken(token, nowMs);
    if decoded.Failed? {
      return Fail(401, "Invalid refresh token");
    }
    var uid := decoded.claims.uid;
    if uid !in db.refreshTokens || db.refreshTokens[uid].token != token {
      return Fail(401, "Invalid refresh token");
    }
    if uid !in db.users {
      return Fail(401, "User not found");
    }
    var userData := db.users[uid];
    var accessToken := GenerateAccessToken(Claims(uid, userData.email, userData.role), nowMs);
    res := Response(200, Info("Token refreshed"),
                    [SetCookie(ACCESS_COOKIE, accessToken, Options(production), ACCESS_MAX_AGE)]);
  }

  /** The cookies a logout clears. */
  const CLEAR_SESSION := [ClearCookie(ACCESS_COOKIE), ClearCookie(REFRESH_COOKIE)]

  /** Express `POST /logout`, behind `verifyToken`: without a session it is
      the middleware's 401 and nothing changes; with one, the caller's
      refresh record goes and both cookies are cleared. */
  method Logout(db: Database, cookies: Cookies, nowMs: nat) returns (res: Response)
    modifies db`refreshTokens
    ensures var s := ResolveSession(db.users, cookies.accessToken, nowMs);
            && (s.NoSession? ==> res == Unauthorized(s.failure) && db.refreshTokens == old(db.refreshTokens))
            && (s.Session? ==>
                  && db.refreshTokens == old(db.refreshTokens) - {s.principal.uid}
                  && res == Response(200, Info("Logged out successfully"), CLEAR_SESSION))
  {
    var gate := VerifyToken(db, cookies, nowMs);
    if gate.Halt? {
      return gate.response;
    }
    db.refreshTokens := db.refreshTokens - {gate.user.uid};
    res := Response(200, Info("Logged out successfully"), CLEAR_SESSION);
  }

  /** The answer of Express `GET /me` for a resolved session. */
  function MeReply(s: SessionOutcome): (r: Response)
    ensures r.status == 200 <==> s.Session?
    ensures s.Session? ==> r.body == CurrentUser(s.principal)
    ensures s.NoSession? ==> r == Unauthorized(s.failure)
  {
    match s
    case Session(p) => Reply(200, CurrentUser(p))
    case NoSession(f) => Unauthorized(f)
  }

  /** Express `GET /me`: the principal `verifyToken` hydrated, as is. */
  method Me(db: Database, cookies: Cookies, nowMs: nat) returns (res: Response)
    ensures res == MeReply(ResolveSession(db.users, cookies.accessToken, nowMs))
  {
    var gate := VerifyToken(db, cookies, nowMs);
    if gate.Halt? {
      return gate.response;
    }
    res := Reply(200, CurrentUser(gate.user));
  }
}
