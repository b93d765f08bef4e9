/** The organization handlers. Each runs behind `verifyToken` and receives
    its principal (`req.user`); the Next.js handlers in NextOrgs resolve the
    principal with `getSessionUser` instead and then run the same bodies.
    Owner-only operations look the organization up first (404) and compare
    its `createdBy` with the caller second (403). */
module Organizations {
  import opened Common
  import opened Tokens
  import opened Store
  import opened Http
  import opened Snapshot

  /** A user's primary organization after `set(organizationId)` and
      `set(orgRole)` when the user has none yet, and unchanged otherwise:
      first claim wins. */
  function ClaimPrimary(users: map<Uid, User>, uid: Uid, orgId: OrgId, orgRole: string): (r: map<Uid, User>)
    ensures uid in r && r[uid].organizationId.Some?
    ensures uid in users && users[uid].organizationId.Some? ==> r == users
    ensures !(uid in users && users[uid].organizationId.Some?) ==>
              r[uid].organizationId == Some(orgId) && r[uid].orgRole == orgRole
    ensures forall u :: u in users && u != uid ==> u in r && r[u] == users[u]
    ensures r.Keys == users.Keys + {uid}
  {
    if uid in users && users[uid].organizationId.Some? then users
    else WithPrimaryOrg(users, uid, orgId, orgRole)
  }

  /** Clearing a user's primary organization only when it is `orgId`. */
  function ClearPrimaryIfAt(users: map<Uid, User>, uid: Uid, orgId: OrgId): (r: map<Uid, User>)
    ensures uid in users && users[uid].organizationId == Some(orgId) ==>
              (uid in r ==> r[uid].organizationId.None?)
    ensures !(uid in users && users[uid].organizationId == Some(orgId)) ==> r == users
    ensures forall u :: u in users && u != uid ==> u in r && r[u] == users[u]
    ensures r.Keys <= users.Keys
  {
    if uid in users && users[uid].organizationId == Some(orgId) then WithoutPrimaryOrg(users, uid) else users
  }

  /** Removing `uid` from the members of `orgId` and then clearing the
      primary organization only where it pointed at `orgId` keeps every
      primary-organization reference pointing at an organization its user
      belongs to. */
  lemma GuardedRemoveConsistent(users: map<Uid, User>, orgs: map<OrgId, Org>, uid: Uid, orgId: OrgId)
    requires orgId in orgs
    requires forall u :: u in users && users[u].organizationId.Some? ==>
               users[u].organizationId.value in orgs && u in orgs[users[u].organizationId.value].members
    ensures var orgs' := orgs[orgId := orgs[orgId].(members := orgs[orgId].members - {uid})];
            var users' := ClearPrimaryIfAt(users, uid, orgId);
            forall u :: u in users' && users'[u].organizationId.Some? ==>
              users'[u].organizationId.value in orgs' && u in orgs'[users'[u].organizationId.value].members
  {
  }

  /** The removal AS WRITTEN clears the primary organization of the removed
      user even when it points at a different organization that they still
      belong to: removing a user whose primary organization is `o1` from
      `o2` leaves them a member of `o1` with no primary organization. */
  lemma RemoveForgetsOtherPrimary(users: map<Uid, User>, orgs: map<OrgId, Org>, uid: Uid, o1: OrgId, o2: OrgId)
    requires o1 != o2 && o1 in orgs && o2 in orgs
    requires uid in users && users[uid].organizationId == Some(o1) && uid in orgs[o1].members
    ensures var users' := WithoutPrimaryOrg(users, uid);
            var orgs' := orgs[o2 := orgs[o2].(members := orgs[o2].members - {uid})];
            uid in orgs'[o1].members && (uid !in users' || users'[uid].organizationId.None?)
  {
  }

  /** The guarded removal leaves a primary organization elsewhere alone. */
  lemma GuardedRemoveKeepsOtherPrimary(users: map<Uid, User>, uid: Uid, o1: OrgId, o2: OrgId)
    requires o1 != o2
    requires uid in users && users[uid].organizationId == Some(o1)
    ensures var users' := ClearPrimaryIfAt(users, uid, o2);
            uid in users' && users'[uid] == users[uid]
  {
  }

  /** The approval AS WRITTEN moves a user's primary organization to the
      approving organization even when they already had one. */
  lemma ApproveOverwritesPrimary(users: map<Uid, User>, uid: Uid, o1: OrgId, o2: OrgId)
    requires o1 != o2
    requires uid in users && users[uid].organizationId == Some(o1)
    ensures WithPrimaryOrg(users, uid, o2, "user")[uid].organizationId == Some(o2)
  {
  }

  /** With first-claim approval an existing primary organization survives,
      and a user without one gets the approving organization. */
  lemma {:induction false} FirstClaimApprove(users: map<Uid, User>, uid: Uid, orgId: OrgId)
    ensures var users' := ClaimPrimary(users, uid, orgId, "user");
            && (uid in users && users[uid].organizationId.Some? ==> users'[uid] == users[uid])
            && (!(uid in users && users[uid].organizationId.Some?) ==> users'[uid].organizationId == Some(orgId))
  {
  }

  function OrgRowOf(id: nat, o: Org): OrgRow {
    OrgRow(id, o.name, o.state, |o.members|, o.createdAt)
  }

  function MyOrgRowOf(id: nat, o: Org): MyOrgRow {
    MyOrgRow(id, o.name, o.state, o.joiningCode, o.createdBy, o.createdAt, |o.members|, |o.pendingRequests|)
  }

  function MemberRowOf(uid: nat, u: User): MemberRow {
    MemberRow(uid, u.name, u.email, OrDefault(u.orgRole, "user"))
  }

  function PendingRowOf(uid: nat, u: User): PendingRow {
    PendingRow(uid, u.name, u.email)
  }

  function OrgRowId(r: OrgRow): nat { r.id }
  function MyOrgRowId(r: MyOrgRow): nat { r.id }
  function MemberRowId(r: MemberRow): nat { r.uid }
  function PendingRowId(r: PendingRow): nat { r.uid }

  /** The rows of `GET /`: one per organization, in key order. */
  ghost function AllOrgRows(orgs: map<OrgId, Org>): seq<OrgRow> {
    Collect(Ascending(orgs.Keys), orgs, (k: nat, o: Org) => true, OrgRowOf)
  }

  lemma AllOrgRowsExact(orgs: map<OrgId, Org>)
    ensures |AllOrgRows(orgs)| == |orgs|
    ensures forall r :: r in AllOrgRows(orgs) ==> r.id in orgs && r == OrgRowOf(r.id, orgs[r.id])
    ensures forall id :: id in orgs ==> OrgRowOf(id, orgs[id]) in AllOrgRows(orgs)
    ensures forall i, j :: 0 <= i < j < |AllOrgRows(orgs)| ==> AllOrgRows(orgs)[i].id < AllOrgRows(orgs)[j].id
  {
    var all := (k: nat, o: Org) => true;
    AscendingEnumerates(orgs.Keys);
    CollectAll(Ascending(orgs.Keys), orgs, all, OrgRowOf);
    CollectExact(orgs.Keys, orgs, all, OrgRowOf, OrgRowId);
  }

  /** The rows of `GET /my`: the organizations whose members include `uid`. */
  ghost function MyOrgRows(orgs: map<OrgId, Org>, uid: Uid): seq<MyOrgRow> {
    Collect(Ascending(orgs.Keys), orgs, (k: nat, o: Org) => uid in o.members, MyOrgRowOf)
  }

  lemma MyOrgRowsExact(orgs: map<OrgId, Org>, uid: Uid)
    ensures forall r :: r in MyOrgRows(orgs, uid) ==>
              r.id in orgs && uid in orgs[r.id].members && r == MyOrgRowOf(r.id, orgs[r.id])
    ensures forall id :: id in orgs && uid in orgs[id].members ==> MyOrgRowOf(id, orgs[id]) in MyOrgRows(orgs, uid)
    ensures forall i, j :: 0 <= i < j < |MyOrgRows(orgs, uid)| ==> MyOrgRows(orgs, uid)[i].id < MyOrgRows(orgs, uid)[j].id
  {
    CollectExact(orgs.Keys, orgs, (k: nat, o: Org) => uid in o.members, MyOrgRowOf, MyOrgRowId);
  }

  /** The member rows of `GET /:id`: members without a user record are
      filtered out. */
  ghost function MemberRowsOf(members: set<Uid>, users: map<Uid, User>): seq<MemberRow> {
    Collect(Ascending(members), users, (k: nat, u: User) => true, MemberRowOf)
  }

  lemma MemberRowsExact(members: set<Uid>, users: map<Uid, User>)
    ensures forall r :: r in MemberRowsOf(members, users) ==>
              r.uid in members && r.uid in users && r == MemberRowOf(r.uid, users[r.uid])
    ensures forall u :: u in members && u in users ==> MemberRowOf(u, users[u]) in MemberRowsOf(members, users)
    ensures forall i, j :: 0 <= i < j < |MemberRowsOf(members, users)| ==>
              MemberRowsOf(members, users)[i].uid < MemberRowsOf(members, users)[j].uid
  {
    CollectExact(members, users, (k: nat, u: User) => true, MemberRowOf, MemberRowId);
  }

  ghost function PendingRowsOf(pending: set<Uid>, users: map<Uid, User>): seq<PendingRow> {
    Collect(Ascending(pending), users, (k: nat, u: User) => true, PendingRowOf)
  }

  lemma PendingRowsExact(pending: set<Uid>, users: map<Uid, User>)
    ensures forall r :: r in PendingRowsOf(pending, users) ==>
              r.uid in pending && r.uid in users && r == PendingRowOf(r.uid, users[r.uid])
    ensures forall u :: u in pending && u in users ==> PendingRowOf(u, users[u]) in PendingRowsOf(pending, users)
    ensures forall i, j :: 0 <= i < j < |PendingRowsOf(pending, users)| ==>
              PendingRowsOf(pending, users)[i].uid < PendingRowsOf(pending, users)[j].uid
  {
    CollectExact(pending, users, (k: nat, u: User) => true, PendingRowOf, PendingRowId);
  }

  /** The list loop of `GET /`. */
  method ListOrgs(orgs: map<OrgId, Org>) returns (rows: seq<OrgRow>)
    ensures rows == AllOrgRows(orgs)
    ensures |rows| == |orgs|
    ensures forall r :: r in rows ==> r.id in orgs && r == OrgRowOf(r.id, orgs[r.id])
    ensures forall id :: id in orgs ==> OrgRowOf(id, orgs[id]) in rows
  {
    var ks := SnapshotKeys(orgs.Keys);
    KeysPresent(orgs);
    var all := (k: nat, o: Org) => true;
    rows := [];
    for i := 0 to |ks|
      invariant rows == Collect(ks[..i], orgs, all, OrgRowOf)
    {
      assert ks[..i + 1][..i] == ks[..i];
      assert ks[i] in ks;
      rows := rows + [OrgRowOf(ks[i], orgs[ks[i]])];
    }
    assert ks[..|ks|] == ks;
    AllOrgRowsExact(orgs);
  }

  /** The list loop of `GET /my`. */
  method MyOrgs(orgs: map<OrgId, Org>, uid: Uid) returns (rows: seq<MyOrgRow>)
    ensures rows == MyOrgRows(orgs, uid)
    ensures forall r :: r in rows ==> r.id in orgs && uid in orgs[r.id].members && r == MyOrgRowOf(r.id, orgs[r.id])
    ensures forall id :: id in orgs && uid in orgs[id].members ==> MyOrgRowOf(id, orgs[id]) in rows
  {
    var ks := SnapshotKeys(orgs.Keys);
    KeysPresent(orgs);
    var mine := (k: nat, o: Org) => uid in o.members;
    rows := [];
    for i := 0 to |ks|
      invariant rows == Collect(ks[..i], orgs, mine, MyOrgRowOf)
    {
      assert ks[..i + 1][..i] == ks[..i];
      assert ks[i] in ks;
      var data := orgs[ks[i]];
      if uid in data.members {
        rows := rows + [MyOrgRowOf(ks[i], data)];
      }
    }
    assert ks[..|ks|] == ks;
    MyOrgRowsExact(orgs, uid);
  }

  /** `memberIds.map(...)` then `filter(m => m !== null)`. */
  method MemberRows(members: set<Uid>, users: map<Uid, User>) returns (rows: seq<MemberRow>)
    ensures rows == MemberRowsOf(members, users)
  {
    var ks := SnapshotKeys(members);
    var all := (k: nat, u: User) => true;
    rows := [];
    for i := 0 to |ks|
      invariant rows == Collect(ks[..i], users, all, MemberRowOf)
    {
      assert ks[..i + 1][..i] == ks[..i];
      if ks[i] in users {
        rows := rows + [MemberRowOf(ks[i], users[ks[i]])];
      }
    }
    assert ks[..|ks|] == ks;
  }

  /** `pendingIds.map(...)` then `filter(m => m !== null)`. */
  method PendingRows(pending: set<Uid>, users: map<Uid, User>) returns (rows: seq<PendingRow>)
    ensures rows == PendingRowsOf(pending, users)
  {
    var ks := SnapshotKeys(pending);
    var all := (k: nat, u: User) => true;
    rows := [];
    for i := 0 to |ks|
      invariant rows == Collect(ks[..i], users, all, PendingRowOf)
    {
      assert ks[..i + 1][..i] == ks[..i];
      if ks[i] in users {
        rows := rows + [PendingRowOf(ks[i], users[ks[i]])];
      }
    }
    assert ks[..|ks|] == ks;
  }

  /** `GET /`: every organization, to any authenticated caller. */
  method List(db: Database) returns (res: Response)
    ensures res == Reply(200, OrgList(AllOrgRows(db.orgs)))
    ensures |res.body.organizations| == |db.orgs|
    ensures forall r :: r in res.body.organizations ==> r.id in db.orgs && r == OrgRowOf(r.id, db.orgs[r.id])
    ensures forall id :: id in db.orgs ==> OrgRowOf(id, db.orgs[id]) in res.body.organizations
  {
    var orgs := ListOrgs(db.orgs);
    res := Reply(200, OrgList(orgs));
  }

  /** `GET /my`: the organizations the caller belongs to. */
  method My(db: Database, user: Principal) returns (res: Response)
    ensures res == Reply(200, MyOrgList(MyOrgRows(db.orgs, user.uid)))
    ensures forall r :: r in res.body.myOrganizations ==>
              r.id in db.orgs && user.uid in db.orgs[r.id].members && r == MyOrgRowOf(r.id, db.orgs[r.id])
    ensures forall id :: id in db.orgs && user.uid in db.orgs[id].members ==>
              MyOrgRowOf(id, db.orgs[id]) in res.body.myOrganizations
  {
    var orgs := MyOrgs(db.orgs, user.uid);
    res := Reply(200, MyOrgList(orgs));
  }

  /** `GET /:id`: any authenticated caller, member or not, sees the detail,
      joining code included. */
  method Get(db: Database, id: OrgId) returns (res: Response)
    ensures id !in db.orgs ==> res == Fail(404, "Organization not found")
    ensures id in db.orgs ==>
              && res.status == 200 && res.body.OrgDetailBody?
              && var d := res.body.detail;
                 var o := db.orgs[id];
                 && d.id == id && d.name == o.name && d.state == o.state && d.joiningCode == o.joiningCode
                 && d.createdBy == o.createdBy && d.createdAt == o.createdAt
                 && d.members == MemberRowsOf(o.members, db.users)
                 && d.pendingRequests == PendingRowsOf(o.pendingRequests, db.users)
                 && (forall r :: r in d.members ==>
                       r.uid in o.members && r.uid in db.users && r == MemberRowOf(r.uid, db.users[r.uid]))
                 && (forall u :: u in o.members && u in db.users ==> MemberRowOf(u, db.users[u]) in d.members)
                 && (forall r :: r in d.pendingRequests ==>
                       r.uid in o.pendingRequests && r.uid in db.users && r == PendingRowOf(r.uid, db.users[r.uid]))
                 && (forall u :: u in o.pendingRequests && u in db.users ==>
                       PendingRowOf(u, db.users[u]) in d.pendingRequests)
  {
    if id !in db.orgs {
      return Fail(404, "Organization not found");
    }
    var data := db.orgs[id];
    var members := MemberRows(data.members, db.users);
    var pendingRequests := PendingRows(data.pendingRequests, db.users);
    MemberRowsExact(data.members, db.users);
    PendingRowsExact(data.pendingRequests, db.users);
    res := Reply(200, OrgDetailBody(OrgDetail(id, data.name, data.state, data.joiningCode, data.createdBy,
                                           data.createdAt, members, pendingRequests)));
  }

  /** `POST /`: the caller founds an organization and is its only member; the
      caller's primary organization is claimed only if they have none. The
      fresh push key and the random joining code are parameters. */
  method Create(db: Database, user: Principal, name: string, state: string, orgId: OrgId,
                joiningCode: string, nowMs: nat) returns (res: Response)
    requires orgId !in db.orgs
    modifies db
    ensures name == "" ==> res == Fail(400, "Organization name is required") && unchanged(db)
    ensures name != "" ==>
              var org := Org(name, state, joiningCode, user.uid, nowMs, {user.uid}, {});
              && db.orgs == old(db.orgs)[orgId := org]
              && db.users == ClaimPrimary(old(db.users), user.uid, orgId, "admin")
              && db.refreshTokens == old(db.refreshTokens) && db.messages == old(db.messages)
              && res == Reply(201, OrgCreated(orgId, joiningCode, org))
    ensures old(db.PrimaryOrgConsistent()) ==> db.PrimaryOrgConsistent()
  {
    if name == "" {
      return Fail(400, "Organization name is required");
    }
    var orgData := Org(name, state, joiningCode, user.uid, nowMs, {user.uid}, {});
    db.orgs := db.orgs[orgId := orgData];
    if !(user.uid in db.users && db.users[user.uid].organizationId.Some?) {
      db.users := WithPrimaryOrg(db.users, user.uid, orgId, "admin");
    }
    res := Reply(201, OrgCreated(orgId, joiningCode, orgData));
  }

  /** The organization after a join request is filed. */
  function FileRequest(o: Org, uid: Uid): (r: Org)
    ensures r.members == o.members && uid in r.pendingRequests
    ensures r.pendingRequests - {uid} == o.pendingRequests - {uid}
    ensures r.(pendingRequests := o.pendingRequests) == o
  {
    o.(pendingRequests := o.pendingRequests + {uid})
  }

  /** The organization after a direct join: the caller is a member and no
      longer pending; nobody else's standing changes. */
  function AdmitDirect(o: Org, uid: Uid): (r: Org)
    ensures uid in r.members && uid !in r.pendingRequests
    ensures r.members - {uid} == o.members - {uid}
    ensures r.pendingRequests + {uid} == o.pendingRequests + {uid}
    ensures r.(members := o.members, pendingRequests := o.pendingRequests) == o
  {
    o.(members := o.members + {uid}, pendingRequests := o.pendingRequests - {uid})
  }

  /** Whether a join passes the code check: no code, or exactly the
      organization's code. */
  predicate CodeAccepted(o: Org, joiningCode: string) {
    joiningCode == "" || joiningCode == o.joiningCode
  }

  /** `POST /:id/join` AS WRITTEN: a passing request only ever files a
      pending request, with or without the right code, and the answer never
      says `direct`. */
  method Join(db: Database, user: Principal, id: OrgId, joiningCode: string) returns (res: Response)
    modifies db`orgs
    ensures id !in old(db.orgs) ==> res == Fail(404, "Organization not found") && db.orgs == old(db.orgs)
    ensures id in old(db.orgs) && !CodeAccepted(old(db.orgs)[id], joiningCode) ==>
              res == Fail(400, "Invalid joining code") && db.orgs == old(db.orgs)
    ensures id in old(db.orgs) && CodeAccepted(old(db.orgs)[id], joiningCode) &&
            user.uid in old(db.orgs)[id].members ==>
              res == Fail(400, "Already a member") && db.orgs == old(db.orgs)
    ensures id in old(db.orgs) && CodeAccepted(old(db.orgs)[id], joiningCode) &&
            user.uid !in old(db.orgs)[id].members ==>
              && db.orgs == old(db.orgs)[id := FileRequest(old(db.orgs)[id], user.uid)]
              && res == Reply(200, Info("Join request sent"))
    ensures old(db.PrimaryOrgConsistent()) ==> db.PrimaryOrgConsistent()
  {
    if id !in db.orgs {
      return Fail(404, "Organization not found");
    }
    var org := db.orgs[id];
    if joiningCode != "" && joiningCode != org.joiningCode {
      return Fail(400, "Invalid joining code");
    }
    if user.uid in org.members {
      return Fail(400, "Already a member");
    }
    db.orgs := db.orgs[id := org.(pendingRequests := org.pendingRequests + {user.uid})];
    res := Reply(200, Info("Join request sent"));
  }

  /** AS WRITTEN, a caller who supplies the organization's exact joining
      code is still not a member after the join: they only wait in the
      pending requests, and the answer carries no `direct` flag. */
  lemma ExactCodeStaysPending(o: Org, uid: Uid)
    requires o.joiningCode != "" && uid !in o.members
    ensures CodeAccepted(o, o.joiningCode)
    ensures uid !in FileRequest(o, uid).members && uid in FileRequest(o, uid).pendingRequests
    ensures !Reply(200, Info("Join request sent")).body.JoinReply?
  {
  }

  /** The direct join of the Next.js route `POST /api/organizations/[id]/join`,
      past its session check: membership is checked before the code; the
      exact code admits the caller at once (clearing a pending request), no
      code files a request, and the reply says which happened. Only the
      organization is written. */
  method JoinDirect(db: Database, user: Principal, id: OrgId, joiningCode: string) returns (res: Response)
    modifies db`orgs
    ensures id !in old(db.orgs) ==> res == Fail(404, "Organization not found") && db.orgs == old(db.orgs)
    ensures id in old(db.orgs) && user.uid in old(db.orgs)[id].members ==>
              res == Fail(400, "Already a member") && db.orgs == old(db.orgs)
    ensures id in old(db.orgs) && user.uid !in old(db.orgs)[id].members &&
            !CodeAccepted(old(db.orgs)[id], joiningCode) ==>
              res == Fail(400, "Invalid joining code") && db.orgs == old(db.orgs)
    ensures id in old(db.orgs) && user.uid !in old(db.orgs)[id].members && joiningCode == "" ==>
              && db.orgs == old(db.orgs)[id := FileRequest(old(db.orgs)[id], user.uid)]
              && res == Reply(200, JoinReply("Join request sent", false))
    ensures id in old(db.orgs) && user.uid !in old(db.orgs)[id].members &&
            joiningCode != "" && joiningCode == old(db.orgs)[id].joiningCode ==>
              && db.orgs == old(db.orgs)[id := AdmitDirect(old(db.orgs)[id], user.uid)]
              && res == Reply(200, JoinReply("Joined organization successfully", true))
    ensures db.users == old(db.users)
    ensures old(db.PrimaryOrgConsistent()) ==> db.PrimaryOrgConsistent()
  {
    if id !in db.orgs {
      return Fail(404, "Organization not found");
    }
    var org := db.orgs[id];
    if user.uid in org.members {
      return Fail(400, "Already a member");
    }
    if joiningCode != "" {
      if joiningCode != org.joiningCode {
        return Fail(400, "Invalid joining code");
      }
      db.orgs := db.orgs[id := AdmitDirect(org, user.uid)];
      return Reply(200, JoinReply("Joined organization successfully", true));
    }
    db.orgs := db.orgs[id := FileRequest(org, user.uid)];
    res := Reply(200, JoinReply("Join request sent", false));
  }

  /** `POST /:id/approve/:uid` AS WRITTEN: the target need not be pending,
      and its primary organization is overwritten. */
  method Approve(db: Database, user: Principal, id: OrgId, target: Uid) returns (res: Response)
    modifies db`orgs, db`users
    ensures id !in old(db.orgs) ==> res == Fail(404, "Organization not found") && unchanged(db)
    ensures id in old(db.orgs) && old(db.orgs)[id].createdBy != user.uid ==>
              res == Fail(403, "Only admin can approve requests") && unchanged(db)
    ensures id in old(db.orgs) && old(db.orgs)[id].createdBy == user.uid ==>
              var o := old(db.orgs)[id];
              && db.orgs == old(db.orgs)[id := o.(pendingRequests := o.pendingRequests - {target},
                                                   members := o.members + {target})]
              && db.users == WithPrimaryOrg(old(db.users), target, id, "user")
              && res == Reply(200, Info("Member approved"))
    ensures old(db.PrimaryOrgConsistent()) ==> db.PrimaryOrgConsistent()
  {
    if id !in db.orgs {
      return Fail(404, "Organization not found");
    }
    var org := db.orgs[id];
    if org.createdBy != user.uid {
      return Fail(403, "Only admin can approve requests");
    }
    db.orgs := db.orgs[id := org.(pendingRequests := org.pendingRequests - {target})];
    db.orgs := db.orgs[id := db.orgs[id].(members := org.members + {target})];
    db.users := WithPrimaryOrg(db.users, target, id, "user");
    res := Reply(200, Info("Member approved"));
  }

  /** Approval with first-claim primary organization. */
  method ApproveFirstClaim(db: Database, user: Principal, id: OrgId, target: Uid) returns (res: Response)
    modifies db`orgs, db`users
    ensures id !in old(db.orgs) ==> res == Fail(404, "Organization not found") && unchanged(db)
    ensures id in old(db.orgs) && old(db.orgs)[id].createdBy != user.uid ==>
              res == Fail(403, "Only admin can approve requests") && unchanged(db)
    ensures id in old(db.orgs) && old(db.orgs)[id].createdBy == user.uid ==>
              var o := old(db.orgs)[id];
              && db.orgs == old(db.orgs)[id := o.(pendingRequests := o.pendingRequests - {target},
                                                   members := o.members + {target})]
              && db.users == ClaimPrimary(old(db.users), target, id, "user")
              && res == Reply(200, Info("Member approved"))
    ensures old(db.PrimaryOrgConsistent()) ==> db.PrimaryOrgConsistent()
  {
    if id !in db.orgs {
      return Fail(404, "Organization not found");
    }
    var org := db.orgs[id];
    if org.createdBy != user.uid {
      return Fail(403, "Only admin can approve requests");
    }
    db.orgs := db.orgs[id := org.(pendingRequests := org.pendingRequests - {target}, members := org.members + {target})];
    db.users := ClaimPrimary(db.users, target, id, "user");
    res := Reply(200, Info("Member approved"));
  }

  /** `DELETE /:id/members/:uid` AS WRITTEN: the target's primary
      organization is cleared whatever it points at. */
  method RemoveMember(db: Database, user: Principal, id: OrgId, target: Uid) returns (res: Response)
    modifies db`orgs, db`users
    ensures id !in old(db.orgs) ==> res == Fail(404, "Organization not found") && unchanged(db)
    ensures id in old(db.orgs) && old(db.orgs)[id].createdBy != user.uid ==>
              res == Fail(403, "Only admin can remove members") && unchanged(db)
    ensures id in old(db.orgs) && old(db.orgs)[id].createdBy == user.uid ==>
              var o := old(db.orgs)[id];
              && db.orgs == old(db.orgs)[id := o.(members := o.members - {target})]
              && db.users == WithoutPrimaryOrg(old(db.users), target)
              && res == Reply(200, Info("Member removed"))
    ensures old(db.PrimaryOrgConsistent()) ==> db.PrimaryOrgConsistent()
  {
    if id !in db.orgs {
      return Fail(404, "Organization not found");
    }
    var org := db.orgs[id];
    if org.createdBy != user.uid {
      return Fail(403, "Only admin can remove members");
    }
    db.orgs := db.orgs[id := org.(members := org.members - {target})];
    db.users := WithoutPrimaryOrg(db.users, target);
    res := Reply(200, Info("Member removed"));
  }

  /** Removal that clears the primary organization only when it is the
      organization being left. */
  method RemoveMemberGuarded(db: Database, user: Principal, id: OrgId, target: Uid) returns (res: Response)
    modifies db`orgs, db`users
    ensures id !in old(db.orgs) ==> res == Fail(404, "Organization not found") && unchanged(db)
    ensures id in old(db.orgs) && old(db.orgs)[id].createdBy != user.uid ==>
              res == Fail(403, "Only admin can remove members") && unchanged(db)
    ensures id in old(db.orgs) && old(db.orgs)[id].createdBy == user.uid ==>
              var o := old(db.orgs)[id];
              && db.orgs == old(db.orgs)[id := o.(members := o.members - {target})]
              && db.users == ClearPrimaryIfAt(old(db.users), target, id)
              && res == Reply(200, Info("Member removed"))
    ensures old(db.PrimaryOrgConsistent()) ==> db.PrimaryOrgConsistent()
  {
    if id !in db.orgs {
      return Fail(404, "Organization not found");
    }
    var org := db.orgs[id];
    if org.createdBy != user.uid {
      return Fail(403, "Only admin can remove members");
    }
    if db.PrimaryOrgConsistent() {
      GuardedRemoveConsistent(db.users, db.orgs, target, id);
    }
    db.orgs := db.orgs[id := org.(members := org.members - {target})];
    db.users := ClearPrimaryIfAt(db.users, target, id);
    res := Reply(200, Info("Member removed"));
  }

  /** `PUT /:id`: only a non-empty name or state is written. */
  method Edit(db: Database, user: Principal, id: OrgId, name: string, state: string) returns (res: Response)
    modifies db`orgs
    ensures id !in old(db.orgs) ==> res == Fail(404, "Organization not found") && db.orgs == old(db.orgs)
    ensures id in old(db.orgs) && old(db.orgs)[id].createdBy != user.uid ==>
              res == Fail(403, "Only admin can edit organization") && db.orgs == old(db.orgs)
    ensures id in old(db.orgs) && old(db.orgs)[id].createdBy == user.uid ==>
              var o := old(db.orgs)[id];
              && db.orgs == old(db.orgs)[id := o.(name := OrDefault(name, o.name), state := OrDefault(state, o.state))]
              && res == Reply(200, Info("Organization updated"))
    ensures old(db.PrimaryOrgConsistent()) ==> db.PrimaryOrgConsistent()
  {
    if id !in db.orgs {
      return Fail(404, "Organization not found");
    }
    var org := db.orgs[id];
    if org.createdBy != user.uid {
      return Fail(403, "Only admin can edit organization");
    }
    var updated := org;
    if name != "" {
      updated := updated.(name := name);
    }
    if state != "" {
      updated := updated.(state := state);
    }
    db.orgs := db.orgs[id := updated];
    res := Reply(200, Info("Organization updated"));
  }
}
