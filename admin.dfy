/** The admin console under `/api/admin`: dashboard counters, the user
    table, admin-created accounts, edits and deletions, and the review of
    pending applications. The bodies below run after the admin gate
    (`AdminGate` on Express, `NextAdmin` on Next.js). */
module Admin {
  import opened Common
  import opened Tokens
  import opened Store
  import opened Http
  import opened Ordering
  import opened Snapshot
  import opened AuthServer
  import opened Accounts

  const CREATE_FIELDS_REQUIRED := "Name, email and password are required"
  const USER_NOT_FOUND := "User not found"

  predicate IsAdminRecord(u: User) { u.role == "admin" }
  predicate IsPendingRecord(u: User) { u.status == "pending" }
  /** `u.status === 'approved' || !u.status`. */
  predicate IsApprovedRecord(u: User) { u.status == "approved" || u.status == "" }

  /** `GET /stats`: one pass over the users bumping four counters, one pass
      over the organizations. */
  method ComputeStats(users: map<Uid, User>, orgs: map<OrgId, Org>) returns (stats: Stats)
    ensures stats.totalUsers == |users| && stats.totalOrgs == |orgs|
    ensures stats.pendingUsers == |Where(users, IsPendingRecord)|
    ensures stats.approvedUsers == |Where(users, IsApprovedRecord)|
    ensures stats.admins == |Where(users, IsAdminRecord)|
  {
    var ks := SnapshotKeys(users.Keys);
    KeysPresent(users);
    var totalUsers, pendingUsers, approvedUsers, admins := 0, 0, 0, 0;
    for i := 0 to |ks|
      invariant totalUsers == i
      invariant pendingUsers == Count(ks[..i], users, IsPendingRecord)
      invariant approvedUsers == Count(ks[..i], users, IsApprovedRecord)
      invariant admins == Count(ks[..i], users, IsAdminRecord)
    {
      assert ks[..i + 1][..i] == ks[..i];
      assert ks[i] in ks;
      var u := users[ks[i]];
      totalUsers := totalUsers + 1;
      if u.role == "admin" {
        admins := admins + 1;
      }
      if u.status == "pending" {
        pendingUsers := pendingUsers + 1;
      }
      if u.status == "approved" || u.status == "" {
        approvedUsers := approvedUsers + 1;
      }
    }
    assert ks[..|ks|] == ks;
    var oks := SnapshotKeys(orgs.Keys);
    var totalOrgs := 0;
    for i := 0 to |oks|
      invariant totalOrgs == i
    {
      totalOrgs := totalOrgs + 1;
    }
    SnapshotCounts(users, orgs);
    stats := Stats(totalUsers, pendingUsers, approvedUsers, admins, totalOrgs);
  }

  lemma SnapshotCounts(users: map<Uid, User>, orgs: map<OrgId, Org>)
    ensures |Ascending(users.Keys)| == |users| && |Ascending(orgs.Keys)| == |orgs|
    ensures Count(Ascending(users.Keys), users, IsPendingRecord) == |Where(users, IsPendingRecord)|
    ensures Count(Ascending(users.Keys), users, IsApprovedRecord) == |Where(users, IsApprovedRecord)|
    ensures Count(Ascending(users.Keys), users, IsAdminRecord) == |Where(users, IsAdminRecord)|
  {
    AscendingEnumerates(users.Keys);
    AscendingEnumerates(orgs.Keys);
    CountSnapshot(users, IsPendingRecord);
    CountSnapshot(users, IsApprovedRecord);
    CountSnapshot(users, IsAdminRecord);
  }

  lemma {:induction false} SubsetCard(a: set<Uid>, b: set<Uid>)
    requires a <= b
    ensures |a| <= |b|
    decreases |b|
  {
    if a != {} {
      var x :| x in a;
      SubsetCard(a - {x}, b - {x});
    }
  }

  /** Pending and approved accounts never add up to more than all accounts,
      nor do admins: a status is one or the other. */
  lemma StatsBounds(users: map<Uid, User>)
    ensures |Where(users, IsPendingRecord)| + |Where(users, IsApprovedRecord)| <= |users|
    ensures |Where(users, IsAdminRecord)| <= |users|
  {
    var p := Where(users, IsPendingRecord);
    var a := Where(users, IsApprovedRecord);
    assert p * a == {};
    assert |p + a| == |p| + |a|;
    SubsetCard(p + a, users.Keys);
    SubsetCard(Where(users, IsAdminRecord), users.Keys);
  }

  /** The figures the dashboard shows: every account and organization
      counted once, and each category counted by its stored record. */
  ghost function StatsOf(users: map<Uid, User>, orgs: map<OrgId, Org>): Stats {
    Stats(|users|, |Where(users, IsPendingRecord)|, |Where(users, IsApprovedRecord)|,
          |Where(users, IsAdminRecord)|, |orgs|)
  }

  /** `GET /stats`. */
  method GetStats(db: Database) returns (res: Response)
    ensures res == Reply(200, StatsBody(StatsOf(db.users, db.orgs)))
  {
    var stats := ComputeStats(db.users, db.orgs);
    res := Reply(200, StatsBody(stats));
  }

  /** A row of the user table: missing role, state and status read as
      'user', '' and 'approved'. */
  function UserRowOf(uid: nat, u: User): UserRow {
    UserRow(uid, u.name, u.email, OrDefault(u.role, "user"), u.state, OrDefault(u.status, "approved"), u.createdAt)
  }

  function UserRowUid(r: UserRow): nat { r.uid }

  /** `(b.createdAt || 0) - (a.createdAt || 0)` under a stable sort of the
      key-ordered rows: newest first, then by key. */
  function NewestUserFirst(r: UserRow): SortKey { (-OrZero(r.createdAt), r.uid) }

  function ApplicationRowOf(uid: nat, u: User): ApplicationRow {
    ApplicationRow(uid, u.name, u.email, u.state, u.createdAt)
  }

  function ApplicationRowUid(r: ApplicationRow): nat { r.uid }

  function NewestApplicationFirst(r: ApplicationRow): SortKey { (-OrZero(r.createdAt), r.uid) }

  /** The user table: every account in key order, then newest first. */
  ghost function UserRows(users: map<Uid, User>): seq<UserRow> {
    SortBy(Collect(Ascending(users.Keys), users, (k: nat, u: User) => true, UserRowOf), NewestUserFirst)
  }

  /** The applications table: the pending accounts, newest first. */
  ghost function ApplicationRows(users: map<Uid, User>): seq<ApplicationRow> {
    SortBy(Collect(Ascending(users.Keys), users, (k: nat, u: User) => u.status == "pending", ApplicationRowOf),
           NewestApplicationFirst)
  }

  /** `GET /users`: every account, newest first. */
  method ListUsers(db: Database) returns (res: Response)
    ensures res == Reply(200, UserList(UserRows(db.users)))
    ensures var rows := res.body.userRows;
            && |rows| == |db.users|
            && StrictlySorted(rows, NewestUserFirst)
            && (forall r :: r in rows ==> r.uid in db.users && r == UserRowOf(r.uid, db.users[r.uid]))
            && (forall uid :: uid in db.users ==> UserRowOf(uid, db.users[uid]) in rows)
  {
    var ks := SnapshotKeys(db.users.Keys);
    KeysPresent(db.users);
    var all := (k: nat, u: User) => true;
    var rows: seq<UserRow> := [];
    for i := 0 to |ks|
      invariant rows == Collect(ks[..i], db.users, all, UserRowOf)
    {
      assert ks[..i + 1][..i] == ks[..i];
      assert ks[i] in ks;
      rows := rows + [UserRowOf(ks[i], db.users[ks[i]])];
    }
    assert ks[..|ks|] == ks;
    UserRowsExact(db.users);
    res := Reply(200, UserList(SortBy(rows, NewestUserFirst)));
  }

  lemma UserRowsExact(users: map<Uid, User>)
    ensures var rows := UserRows(users);
            && |rows| == |users|
            && StrictlySorted(rows, NewestUserFirst)
            && (forall r :: r in rows ==> r.uid in users && r == UserRowOf(r.uid, users[r.uid]))
            && (forall uid :: uid in users ==> UserRowOf(uid, users[uid]) in rows)
  {
    var all := (k: nat, u: User) => true;
    AscendingEnumerates(users.Keys);
    CollectAll(Ascending(users.Keys), users, all, UserRowOf);
    SortedCollectOrder(users.Keys, users, all, UserRowOf, UserRowUid, NewestUserFirst);
    SortedCollectMembers(users.Keys, users, all, UserRowOf, UserRowUid, NewestUserFirst);
  }

  /** `GET /applications`: the pending accounts, newest first. */
  method Applications(db: Database) returns (res: Response)
    ensures res == Reply(200, ApplicationList(ApplicationRows(db.users)))
    ensures var rows := res.body.applications;
            && StrictlySorted(rows, NewestApplicationFirst)
            && (forall r :: r in rows ==>
                  r.uid in db.users && db.users[r.uid].status == "pending" && r == ApplicationRowOf(r.uid, db.users[r.uid]))
            && (forall uid :: uid in db.users && db.users[uid].status == "pending" ==>
                  ApplicationRowOf(uid, db.users[uid]) in rows)
  {
    // `orderByChild('status').equalTo('pending')` enumerates the matches by key.
    var ks := SnapshotKeys(db.users.Keys);
    KeysPresent(db.users);
    var pending := (k: nat, u: User) => u.status == "pending";
    var rows: seq<ApplicationRow> := [];
    for i := 0 to |ks|
      invariant rows == Collect(ks[..i], db.users, pending, ApplicationRowOf)
    {
      assert ks[..i + 1][..i] == ks[..i];
      assert ks[i] in ks;
      var u := db.users[ks[i]];
      if u.status == "pending" {
        rows := rows + [ApplicationRowOf(ks[i], u)];
      }
    }
    assert ks[..|ks|] == ks;
    ApplicationRowsExact(db.users);
    res := Reply(200, ApplicationList(SortBy(rows, NewestApplicationFirst)));
  }

  lemma ApplicationRowsExact(users: map<Uid, User>)
    ensures var rows := ApplicationRows(users);
            && StrictlySorted(rows, NewestApplicationFirst)
            && (forall r :: r in rows ==>
                  r.uid in users && users[r.uid].status == "pending" && r == ApplicationRowOf(r.uid, users[r.uid]))
            && (forall uid :: uid in users && users[uid].status == "pending" ==> ApplicationRowOf(uid, users[uid]) in rows)
  {
    var pending := (k: nat, u: User) => u.status == "pending";
    SortedCollectOrder(users.Keys, users, pending, ApplicationRowOf, ApplicationRowUid, NewestApplicationFirst);
    SortedCollectMembers(users.Keys, users, pending, ApplicationRowOf, ApplicationRowUid, NewestApplicationFirst);
  }

  /** `POST /users`: an account created by an admin is approved at once;
      the role defaults to 'user'. */
  method CreateUser(db: Database, name: string, email: string, password: string, role: string, state: string,
                    uid: Uid, salt: nat, nowMs: nat) returns (res: Response)
    requires uid !in db.users   // `push().key` is a fresh key
    modifies db`users
    ensures name == "" || email == "" || password == "" ==>
              res == Fail(400, CREATE_FIELDS_REQUIRED) && db.users == old(db.users)
    ensures name != "" && email != "" && password != "" && WithEmail(old(db.users), email) != {} ==>
              res == Fail(409, "Email already registered") && db.users == old(db.users)
    ensures name != "" && email != "" && password != "" && WithEmail(old(db.users), email) == {} ==>
              var r := OrDefault(role, "user");
              && db.users == old(db.users)[uid := NewUser(name, email, HashPassword(password, salt), r, state,
                                                          "approved", nowMs)]
              && res == Reply(201, UserCreated(UserView(uid, name, email, r, state, "approved")))
    ensures old(db.PrimaryOrgConsistent()) ==> db.PrimaryOrgConsistent()
  {
    if name == "" || email == "" || password == "" {
      return Fail(400, CREATE_FIELDS_REQUIRED);
    }
    var existing := FirstMatch(db.users, email);
    if existing.Some? {
      return Fail(409, "Email already registered");
    }
    var passwordHash := HashPassword(password, salt);
    var r := if role != "" then role else "user";
    db.users := db.users[uid := NewUser(name, email, passwordHash, r, state, "approved", nowMs)];
    res := Reply(201, UserCreated(UserView(uid, name, email, r, state, "approved")));
  }

  /** An account an admin created logs in straight away with its password. */
  lemma {:induction false} CreatedUserCanLogIn(users: map<Uid, User>, uid: Uid, name: string, email: string,
                                               password: string, role: string, state: string, salt: nat, nowMs: nat)
    requires uid !in users && email != "" && password != ""
    requires WithEmail(users, email) == {}
    ensures var after := users[uid := NewUser(name, email, HashPassword(password, salt), OrDefault(role, "user"),
                                              state, "approved", nowMs)];
            LoginDecision(after, email, password) == Admitted(uid)
  {
    var after := users[uid := NewUser(name, email, HashPassword(password, salt), OrDefault(role, "user"),
                                      state, "approved", nowMs)];
    assert WithEmail(after, email) == {uid};
  }

  /** `field !== undefined ? field : current`. */
  function Given(field: Option<string>, current: string): string {
    if field.Some? then field.value else current
  }

  /** `update(updates)` with the four editable fields: only the fields
      given change. */
  function Patched(u: User, name: Option<string>, role: Option<string>, state: Option<string>,
                   status: Option<string>): (r: User)
    ensures r.email == u.email && r.passwordHash == u.passwordHash && r.createdAt == u.createdAt
    ensures r.organizationId == u.organizationId && r.orgRole == u.orgRole
    ensures r.name == Given(name, u.name) && r.role == Given(role, u.role)
    ensures r.state == Given(state, u.state) && r.status == Given(status, u.status)
    ensures name.None? && role.None? && state.None? && status.None? ==> r == u
  {
    u.(name := Given(name, u.name), role := Given(role, u.role), state := Given(state, u.state),
       status := Given(status, u.status))
  }

  /** `PUT /users/:uid`. */
  method EditUser(db: Database, uid: Uid, name: Option<string>, role: Option<string>, state: Option<string>,
                  status: Option<string>) returns (res: Response)
    modifies db`users
    ensures uid !in old(db.users) ==> res == Fail(404, USER_NOT_FOUND) && db.users == old(db.users)
    ensures uid in old(db.users) ==>
              && db.users == old(db.users)[uid := Patched(old(db.users)[uid], name, role, state, status)]
              && res == Reply(200, Info("User updated"))
    ensures old(db.PrimaryOrgConsistent()) ==> db.PrimaryOrgConsistent()
  {
    if uid !in db.users {
      return Fail(404, USER_NOT_FOUND);
    }
    var u := db.users[uid];
    if name.Some? {
      u := u.(name := name.value);
    }
    if role.Some? {
      u := u.(role := role.value);
    }
    if state.Some? {
      u := u.(state := state.value);
    }
    if status.Some? {
      u := u.(status := status.value);
    }
    db.users := db.users[uid := u];
    res := Reply(200, Info("User updated"));
  }

  /** `DELETE /users/:uid`: the self-check comes first; the account and its
      refresh record go. */
  method DeleteUser(db: Database, caller: Principal, uid: Uid) returns (res: Response)
    modifies db`users, db`refreshTokens
    ensures uid == caller.uid ==> res == Fail(400, "Cannot delete your own account") && unchanged(db)
    ensures uid != caller.uid && uid !in old(db.users) ==> res == Fail(404, USER_NOT_FOUND) && unchanged(db)
    ensures uid != caller.uid && uid in old(db.users) ==>
              && db.users == old(db.users) - {uid}
              && db.refreshTokens == old(db.refreshTokens) - {uid}
              && res == Reply(200, Info("User deleted"))
    ensures old(db.PrimaryOrgConsistent()) ==> db.PrimaryOrgConsistent()
  {
    if uid == caller.uid {
      return Fail(400, "Cannot delete your own account");
    }
    if uid !in db.users {
      return Fail(404, USER_NOT_FOUND);
    }
    db.users := db.users - {uid};
    db.refreshTokens := db.refreshTokens - {uid};
    res := Reply(200, Info("User deleted"));
  }

  /** A deleted account's access token, even one still within its 15
      minutes, no longer resolves to a session. */
  lemma DeletedUserLosesSession(users: map<Uid, User>, c: Claims, issuedMs: nat, nowMs: nat)
    requires Seconds(nowMs) < Seconds(issuedMs) + ACCESS_TTL
    ensures ResolveSession(users - {c.uid}, Some(GenerateAccessToken(c, issuedMs)), nowMs) == NoSession(UserNotFound)
  {
    AccessTokenLifetime(c, issuedMs, nowMs);
  }

  /** `POST /applications/:uid/approve` and `.../reject`: set the status of
      an existing account. */
  method SetStatus(db: Database, uid: Uid, status: string, message: string) returns (res: Response)
    modifies db`users
    ensures uid !in old(db.users) ==> res == Fail(404, USER_NOT_FOUND) && db.users == old(db.users)
    ensures uid in old(db.users) ==>
              && db.users == old(db.users)[uid := old(db.users)[uid].(status := status)]
              && res == Reply(200, Info(message))
    ensures old(db.PrimaryOrgConsistent()) ==> db.PrimaryOrgConsistent()
  {
    if uid !in db.users {
      return Fail(404, USER_NOT_FOUND);
    }
    db.users := db.users[uid := db.users[uid].(status := status)];
    res := Reply(200, Info(message));
  }

  method ApproveApplication(db: Database, uid: Uid) returns (res: Response)
    modifies db`users
    ensures uid !in old(db.users) ==> res == Fail(404, USER_NOT_FOUND) && db.users == old(db.users)
    ensures uid in old(db.users) ==>
              && db.users == old(db.users)[uid := old(db.users)[uid].(status := "approved")]
              && res == Reply(200, Info("Application approved"))
  {
    res := SetStatus(db, uid, "approved", "Application approved");
  }

  method RejectApplication(db: Database, uid: Uid) returns (res: Response)
    modifies db`users
    ensures uid !in old(db.users) ==> res == Fail(404, USER_NOT_FOUND) && db.users == old(db.users)
    ensures uid in old(db.users) ==>
              && db.users == old(db.users)[uid := old(db.users)[uid].(status := "rejected")]
              && res == Reply(200, Info("Application rejected"))
  {
    res := SetStatus(db, uid, "rejected", "Application rejected");
  }

  /** A rejected non-admin account is turned away at login even with the
      right password. */
  lemma {:induction false} RejectedCannotLogIn(users: map<Uid, User>, uid: Uid, email: string, password: string, salt: nat)
    requires email != "" && password != ""
    requires WithEmail(users, email) == {uid}
    requires users[uid].passwordHash == Some(HashPassword(password, salt)) && users[uid].role != "admin"
    ensures LoginDecision(users[uid := users[uid].(status := "rejected")], email, password) == Gated(REJECTED_MESSAGE)
  {
    var after := users[uid := users[uid].(status := "rejected")];
    assert WithEmail(after, email) == {uid};
  }

  /** An approved application leaves the applications list. */
  lemma ApprovedLeavesApplications(users: map<Uid, User>, uid: Uid)
    requires uid in users
    ensures uid !in Where(users[uid := users[uid].(status := "approved")], IsPendingRecord)
    ensures Where(users[uid := users[uid].(status := "approved")], IsPendingRecord)
         == Where(users, IsPendingRecord) - {uid}
  {
  }
}
