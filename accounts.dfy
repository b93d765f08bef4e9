/** The account logic that the Express routes and the Next.js route handlers
    share: looking users up by email, the new-user record, the login
    decision with its status gate, and the refresh decision. Both servers
    run the same sequence of checks; each handler module applies it to its
    own request and response. */
module Accounts {
  import opened Common
  import opened Tokens
  import opened Store
  import opened Ordering
  import opened Snapshot
  import opened Http

  /** `orderByChild('email').equalTo(email)`: the users whose stored email
      is exactly `email`. */
  function WithEmail(users: map<Uid, User>, email: string): set<Uid> {
    set u | u in users && users[u].email == email
  }

  /** The login loop `usersSnap.forEach(child => { uid = child.key; ... })`:
      every match is assigned in turn, so the last one enumerated wins. */
  method LastMatch(users: map<Uid, User>, email: string) returns (found: Option<Uid>)
    ensures found.None? <==> WithEmail(users, email) == {}
    ensures found.Some? ==> found.value == Greatest(WithEmail(users, email))
  {
    var matches := WithEmail(users, email);
    var ks := SnapshotKeys(matches);
    found := None;
    for i := 0 to |ks|
      invariant found == if i == 0 then None else Some(ks[i - 1])
    {
      found := Some(ks[i]);
    }
    AscendingEnumerates(matches);
    if matches != {} {
      AscendingEnds(matches);
    }
  }

  /** `Object.keys(snap.val())[0]`: the first match enumerated. */
  method FirstMatch(users: map<Uid, User>, email: string) returns (found: Option<Uid>)
    ensures found.None? <==> WithEmail(users, email) == {}
    ensures found.Some? ==> found.value == Least(WithEmail(users, email))
  {
    var matches := WithEmail(users, email);
    var ks := SnapshotKeys(matches);
    AscendingEnumerates(matches);
    if ks == [] {
      found := None;
    } else {
      AscendingEnds(matches);
      found := Some(ks[0]);
    }
  }

  /** A freshly created account record: no primary organization yet. */
  function NewUser(name: string, email: string, hash: PasswordHash, role: string, state: string,
                   status: string, nowMs: nat): (u: User)
    ensures u.passwordHash == Some(hash) && u.organizationId.None? && u.orgRole == ""
    ensures u.createdAt == Some(nowMs as int)
  {
    User(name, email, Some(hash), role, state, status, None, "", Some(nowMs))
  }

  /** The profile a successful login reports; a missing status reads as
      'approved'. */
  function LoginView(uid: Uid, email: string, u: User): UserView {
    UserView(uid, u.name, email, u.role, u.state, OrDefault(u.status, "approved"))
  }

  const PENDING_MESSAGE := "Your account is pending admin approval."
  const REJECTED_MESSAGE := "Your application has been rejected."
  const BAD_CREDENTIALS := "Invalid email or password"

  /** What a login attempt comes to, before any write. */
  datatype LoginOutcome =
    | MissingCredentials
    | BadCredentials
    | NoPasswordHash          // `bcrypt.compare` throws on a record without a digest
    | Gated(message: string)
    | Admitted(uid: Uid)

  /** Steps 72-100 of the login handler: the credential check against the
      last user enumerated with that email, then the status gate, which an
      admin bypasses. */
  ghost function LoginDecision(users: map<Uid, User>, email: string, password: string): LoginOutcome {
    if email == "" || password == "" then MissingCredentials
    else if WithEmail(users, email) == {} then BadCredentials
    else
      var uid := Greatest(WithEmail(users, email));
      var u := users[uid];
      if u.passwordHash.None? then NoPasswordHash
      else if !ComparePassword(password, u.passwordHash.value) then BadCredentials
      else if u.role != "admin" && u.status == "pending" then Gated(PENDING_MESSAGE)
      else if u.role != "admin" && u.status == "rejected" then Gated(REJECTED_MESSAGE)
      else Admitted(uid)
  }

  /** A login goes through exactly when the password matches the digest of
      the user it picks and that user is an admin or neither pending nor
      rejected. */
  lemma LoginSucceedsIff(users: map<Uid, User>, email: string, password: string)
    ensures LoginDecision(users, email, password).Admitted? <==>
              && email != "" && password != ""
              && WithEmail(users, email) != {}
              && var u := users[Greatest(WithEmail(users, email))];
                 && u.passwordHash.Some? && ComparePassword(password, u.passwordHash.value)
                 && (u.role == "admin" || (u.status != "pending" && u.status != "rejected"))
    ensures LoginDecision(users, email, password).Admitted? ==>
              var uid := LoginDecision(users, email, password).uid;
              uid in users && users[uid].email == email
  {
  }

  /** An unknown email and a wrong password are indistinguishable to the
      caller: both are `BadCredentials`. */
  lemma UnknownEmailLikeWrongPassword(users: map<Uid, User>, email: string, password: string)
    requires email != "" && password != ""
    requires WithEmail(users, email) == {}
    ensures LoginDecision(users, email, password) == BadCredentials
  {
  }

  /** Right after registration the new account cannot log in: its status is
      'pending', whatever password is offered. */
  lemma {:induction false} RegisteredIsPending(users: map<Uid, User>, uid: Uid, name: string, email: string,
                                               password: string, state: string, salt: nat, nowMs: nat)
    requires uid !in users && email != "" && password != ""
    requires WithEmail(users, email) == {}
    ensures var after := users[uid := NewUser(name, email, HashPassword(password, salt), "user", state, "pending", nowMs)];
            LoginDecision(after, email, password) == Gated(PENDING_MESSAGE)
  {
    var after := users[uid := NewUser(name, email, HashPassword(password, salt), "user", state, "pending", nowMs)];
    assert WithEmail(after, email) == {uid};
  }

  /** Once an application is approved, its owner logs in with the password
      they registered with (the email being theirs alone). */
  lemma {:induction false} ApprovedCanLogIn(users: map<Uid, User>, uid: Uid, email: string, password: string, salt: nat)
    requires email != "" && password != ""
    requires WithEmail(users, email) == {uid}
    requires users[uid].passwordHash == Some(HashPassword(password, salt))
    ensures LoginDecision(users[uid := users[uid].(status := "approved")], email, password) == Admitted(uid)
  {
    var after := users[uid := users[uid].(status := "approved")];
    assert WithEmail(after, email) == {uid};
  }

  /** What a refresh attempt comes to. */
  datatype RefreshOutcome =
    | NoRefreshCookie
    | RefreshRejected
    | RefreshUserMissing
    | Refreshed(claims: Claims)

  /** Steps 124-142 of the refresh handler: the presented token must verify
      under the refresh secret and be byte-for-byte the one stored for its
      uid; the new access token carries the role stored NOW. */
  function RefreshDecision(refreshTokens: map<Uid, RefreshRecord>, users: map<Uid, User>,
                           presented: Option<Token>, nowMs: nat): (r: RefreshOutcome)
    ensures r == NoRefreshCookie <==> presented.None?
    ensures r.Refreshed? <==>
              && presented.Some?
              && VerifyRefreshToken(presented.value, nowMs).Ok?
              && var uid := presented.value.claims.uid;
                 uid in refreshTokens && refreshTokens[uid].token == presented.value && uid in users
    ensures r.Refreshed? ==>
              var uid := presented.value.claims.uid;
              r.claims == Claims(uid, users[uid].email, users[uid].role)
  {
    if presented.None? then NoRefreshCookie
    else match VerifyRefreshToken(presented.value, nowMs)
      case Failed(_) => RefreshRejected
      case Ok(decoded) =>
        if decoded.uid !in refreshTokens || refreshTokens[decoded.uid].token != presented.value then RefreshRejected
        else if decoded.uid !in users then RefreshUserMissing
        else
          var u := users[decoded.uid];
          Refreshed(Claims(decoded.uid, u.email, u.role))
  }

  /** The refresh token stored at login or registration is accepted for
      7 days, and the access token it yields carries the CURRENT role. */
  lemma StoredRefreshAccepted(refreshTokens: map<Uid, RefreshRecord>, users: map<Uid, User>,
                              c: Claims, issuedMs: nat, nowMs: nat)
    requires c.uid in refreshTokens && refreshTokens[c.uid].token == GenerateRefreshToken(c, issuedMs)
    requires c.uid in users
    requires Seconds(nowMs) < Seconds(issuedMs) + REFRESH_TTL
    ensures RefreshDecision(refreshTokens, users, Some(GenerateRefreshToken(c, issuedMs)), nowMs)
         == Refreshed(Claims(c.uid, users[c.uid].email, users[c.uid].role))
  {
    RefreshTokenLifetime(c, issuedMs, nowMs);
  }

  /** After logout removed the record, no token of that user refreshes. */
  lemma RevokedRefreshRejected(refreshTokens: map<Uid, RefreshRecord>, users: map<Uid, User>,
                               t: Token, nowMs: nat)
    requires t.Jwt?
    ensures RefreshDecision(refreshTokens - {t.claims.uid}, users, Some(t), nowMs) == RefreshRejected
  {
  }

  /** A later login replaces the stored record, after which the earlier
      token is refused, unless both were issued in the same second and so
      are the same token. */
  lemma RotatedRefreshRejected(refreshTokens: map<Uid, RefreshRecord>, users: map<Uid, User>,
                               c: Claims, c2: Claims, firstMs: nat, secondMs: nat, nowMs: nat)
    requires c2.uid == c.uid
    requires GenerateRefreshToken(c2, secondMs) != GenerateRefreshToken(c, firstMs)
    ensures var stored := refreshTokens[c.uid := RefreshRecord(GenerateRefreshToken(c2, secondMs), secondMs)];
            RefreshDecision(stored, users, Some(GenerateRefreshToken(c, firstMs)), nowMs) == RefreshRejected
  {
  }

  /** A refresh token past its 7 days is refused even while still stored. */
  lemma ExpiredRefreshRejected(refreshTokens: map<Uid, RefreshRecord>, users: map<Uid, User>,
                               c: Claims, issuedMs: nat, nowMs: nat)
    requires Seconds(nowMs) >= Seconds(issuedMs) + REFRESH_TTL
    ensures RefreshDecision(refreshTokens, users, Some(GenerateRefreshToken(c, issuedMs)), nowMs) == RefreshRejected
  {
    RefreshTokenLifetime(c, issuedMs, nowMs);
  }

  /** The answer to a refresh attempt: only success sets a cookie, and that
      cookie is the access cookie alone. */
  function RefreshReply(outcome: RefreshOutcome, nowMs: nat, production: bool): (r: Response)
    ensures r.status == 200 <==> outcome.Refreshed?
    ensures r.status != 200 ==> r.status == 401 && r.cookies == []
    ensures outcome.Refreshed? ==>
              r.cookies == [SetCookie(ACCESS_COOKIE, GenerateAccessToken(outcome.claims, nowMs),
                                      Options(production), ACCESS_MAX_AGE)]
  {
    match outcome
    case NoRefreshCookie => Fail(401, "Refresh token required")
    case RefreshRejected => Fail(401, "Invalid refresh token")
    case RefreshUserMissing => Fail(401, "User not found")
    case Refreshed(claims) =>
      Response(200, Info("Token refreshed"),
               [SetCookie(ACCESS_COOKIE, GenerateAccessToken(claims, nowMs), Options(production), ACCESS_MAX_AGE)])
  }
}
