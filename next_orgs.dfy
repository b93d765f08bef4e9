/** The Next.js organization handlers (`/api/organizations`,
    `/api/organizations/my` and `/api/organizations/[id]/join`). Each
    resolves its caller with `getSessionUser` and answers a failure through
    `SessionFailure`; past that, listing and creation run the same steps as
    their Express counterparts, and the join is the direct join. */
module NextOrgs {
  import opened Tokens
  import opened Store
  import opened Http
  import opened Middleware
  import opened NextAuth
  import Organizations

  /** `GET /api/organizations`: every organization, to any signed-in
      caller. */
  method List(db: Database, cookies: Cookies, nowMs: nat) returns (res: Response)
    ensures var g := NextSession(db.users, cookies.accessToken, nowMs);
            && (g.Halt? ==> res == g.response)
            && (g.Pass? ==> res == Reply(200, OrgList(Organizations.AllOrgRows(db.orgs))))
  {
    var gate := NextSession(db.users, cookies.accessToken, nowMs);
    if gate.Halt? {
      return gate.response;
    }
    res := Organizations.List(db);
  }

  /** `GET /api/organizations/my`: the organizations the caller belongs
      to. */
  method My(db: Database, cookies: Cookies, nowMs: nat) returns (res: Response)
    ensures var g := NextSession(db.users, cookies.accessToken, nowMs);
            && (g.Halt? ==> res == g.response)
            && (g.Pass? ==> res == Reply(200, MyOrgList(Organizations.MyOrgRows(db.orgs, g.user.uid))))
  {
    var gate := NextSession(db.users, cookies.accessToken, nowMs);
    if gate.Halt? {
      return gate.response;
    }
    res := Organizations.My(db, gate.user);
  }

  /** `POST /api/organizations`: without a session nothing is written and
      the session failure is the answer; with one, the Express creation. */
  method Create(db: Database, cookies: Cookies, name: string, state: string, orgId: OrgId,
                joiningCode: string, nowMs: nat) returns (res: Response)
    requires orgId !in db.orgs   // `push().key` is a fresh key
    modifies db
    ensures var g := NextSession(old(db.users), cookies.accessToken, nowMs);
            g.Halt? ==> res == g.response && unchanged(db)
    ensures var g := NextSession(old(db.users), cookies.accessToken, nowMs);
            g.Pass? && name == "" ==> res == Fail(400, "Organization name is required") && unchanged(db)
    ensures var g := NextSession(old(db.users), cookies.accessToken, nowMs);
            g.Pass? && name != "" ==>
              var org := Org(name, state, joiningCode, g.user.uid, nowMs, {g.user.uid}, {});
              && db.orgs == old(db.orgs)[orgId := org]
              && db.users == Organizations.ClaimPrimary(old(db.users), g.user.uid, orgId, "admin")
              && db.refreshTokens == old(db.refreshTokens) && db.messages == old(db.messages)
              && res == Reply(201, OrgCreated(orgId, joiningCode, org))
    ensures old(db.PrimaryOrgConsistent()) ==> db.PrimaryOrgConsistent()
  {
    var gate := NextSession(db.users, cookies.accessToken, nowMs);
    if gate.Halt? {
      return gate.response;
    }
    res := Organizations.Create(db, gate.user, name, state, orgId, joiningCode, nowMs);
  }

  /** `POST /api/organizations/[id]/join`: without a session nothing is
      written; with one, the direct join. */
  method Join(db: Database, cookies: Cookies, id: OrgId, joiningCode: string, nowMs: nat)
    returns (res: Response)
    modifies db`orgs
    ensures var g := NextSession(db.users, cookies.accessToken, nowMs);
            g.Halt? ==> res == g.response && db.orgs == old(db.orgs)
    ensures var g := NextSession(db.users, cookies.accessToken, nowMs);
            g.Pass? && id in old(db.orgs) && g.user.uid !in old(db.orgs)[id].members &&
            joiningCode != "" && joiningCode == old(db.orgs)[id].joiningCode ==>
              && db.orgs == old(db.orgs)[id := Organizations.AdmitDirect(old(db.orgs)[id], g.user.uid)]
              && res == Reply(200, JoinReply("Joined organization successfully", true))
    ensures var g := NextSession(db.users, cookies.accessToken, nowMs);
            g.Pass? && id in old(db.orgs) && g.user.uid !in old(db.orgs)[id].members && joiningCode == "" ==>
              && db.orgs == old(db.orgs)[id := Organizations.FileRequest(old(db.orgs)[id], g.user.uid)]
              && res == Reply(200, JoinReply("Join request sent", false))
    ensures var g := NextSession(db.users, cookies.accessToken, nowMs);
            g.Pass? && id !in old(db.orgs) ==> res == Fail(404, "Organization not found") && db.orgs == old(db.orgs)
    ensures var g := NextSession(db.users, cookies.accessToken, nowMs);
            g.Pass? && id in old(db.orgs) && g.user.uid in old(db.orgs)[id].members ==>
              res == Fail(400, "Already a member") && db.orgs == old(db.orgs)
    ensures var g := NextSession(db.users, cookies.accessToken, nowMs);
            g.Pass? && id in old(db.orgs) && g.user.uid !in old(db.orgs)[id].members &&
            !Organizations.CodeAccepted(old(db.orgs)[id], joiningCode) ==>
              res == Fail(400, "Invalid joining code") && db.orgs == old(db.orgs)
    ensures old(db.PrimaryOrgConsistent()) ==> db.PrimaryOrgConsistent()
  {
    var gate := NextSession(db.users, cookies.accessToken, nowMs);
    if gate.Halt? {
      return gate.response;
    }
    res := Organizations.JoinDirect(db, gate.user, id, joiningCode);
  }
}
