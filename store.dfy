/** The realtime database as the handlers see it: four tables,
    `users/{uid}`, `refreshTokens/{uid}`, `organizations/{id}` and
    `messages/{orgId}/{id}`. Stored strings use "" for a field that is absent
    from the record: every handler treats an absent string field and an
    empty one alike (`||`, `!` and `===` give the same answers). */
module Store {
  import opened Common
  import opened Tokens

  type OrgId = nat
  type MsgId = nat

  datatype User = User(
    name: string,
    email: string,
    passwordHash: Option<PasswordHash>,
    role: string,
    state: string,
    status: string,
    organizationId: Option<OrgId>,
    orgRole: string,
    createdAt: Option<int>)

  /** A record with no field left; the store drops such a node. */
  const EmptyUser := User("", "", None, "", "", "", None, "", None)

  datatype RefreshRecord = RefreshRecord(token: Token, createdAt: int)

  /** `members` and `pendingRequests` are stored as `{uid: true}` objects;
      only the presence of a key matters. */
  datatype Org = Org(
    name: string,
    state: string,
    joiningCode: string,
    createdBy: Uid,
    createdAt: int,
    members: set<Uid>,
    pendingRequests: set<Uid>)

  datatype Message = Message(
    senderId: Uid,
    senderName: string,
    senderRole: string,
    text: string,
    timestamp: int)

  /** `req.user`: the token's uid with the profile read from the store. */
  datatype Principal = Principal(uid: Uid, email: string, name: string, role: string, state: string)

  class Database {
    var users: map<Uid, User>
    var refreshTokens: map<Uid, RefreshRecord>
    var orgs: map<OrgId, Org>
    var messages: map<OrgId, map<MsgId, Message>>

    constructor ()
      ensures users == map[] && refreshTokens == map[] && orgs == map[] && messages == map[]
    {
      users, refreshTokens, orgs, messages := map[], map[], map[], map[];
    }

    /** A user's primary organization, when set, is one they belong to. */
    ghost predicate PrimaryOrgConsistent()
      reads this
    {
      forall u :: u in users && users[u].organizationId.Some? ==>
        users[u].organizationId.value in orgs && u in orgs[users[u].organizationId.value].members
    }
  }

  /** The messages stored under one organization. */
  function MessagesOf(messages: map<OrgId, map<MsgId, Message>>, orgId: OrgId): map<MsgId, Message> {
    if orgId in messages then messages[orgId] else map[]
  }

  /** Writing `users/{uid}/organizationId` and `users/{uid}/orgRole`: on a
      uid with no record, the two writes create a record of just those two
      fields. */
  function WithPrimaryOrg(users: map<Uid, User>, uid: Uid, orgId: OrgId, orgRole: string): (r: map<Uid, User>)
    ensures r.Keys == users.Keys + {uid}
    ensures r[uid].organizationId == Some(orgId) && r[uid].orgRole == orgRole
    ensures uid in users ==> r[uid] == users[uid].(organizationId := Some(orgId), orgRole := orgRole)
  {
    var u := if uid in users then users[uid] else EmptyUser;
    users[uid := u.(organizationId := Some(orgId), orgRole := orgRole)]
  }

  /** Removing `users/{uid}/organizationId` and `users/{uid}/orgRole`: a
      missing record stays missing, and a record left with no field
      disappears. */
  function WithoutPrimaryOrg(users: map<Uid, User>, uid: Uid): (r: map<Uid, User>)
    ensures r.Keys <= users.Keys
    ensures forall k :: k in users && k != uid ==> k in r && r[k] == users[k]
    ensures uid in r ==> r[uid] == users[uid].(organizationId := None, orgRole := "")
    ensures uid in users && uid !in r ==> users[uid].(organizationId := None, orgRole := "") == EmptyUser
  {
    if uid !in users then users
    else
      var u := users[uid].(organizationId := None, orgRole := "");
      if u == EmptyUser then users - {uid} else users[uid := u]
  }
}
