/** What a handler answers: an HTTP status, a JSON body and the cookies it
    sets or clears. Cookies carry the attributes of section 4.1.2 of
    RFC 6265 that the handlers choose: HttpOnly, Secure (production only),
    SameSite=Lax, Path=/ and Max-Age in seconds. */
module Http {
  import opened Common
  import opened Tokens
  import opened Store

  datatype CookieOptions = CookieOptions(httpOnly: bool, secure: bool, sameSite: string, path: string)

  datatype CookieOp =
    | SetCookie(name: string, value: Token, options: CookieOptions, maxAge: nat)
    | ClearCookie(name: string)

  const ACCESS_COOKIE := "accessToken"
  const REFRESH_COOKIE := "refreshToken"

  /** Max-Age of the two cookies in seconds: 15 minutes and 7 days. */
  const ACCESS_MAX_AGE: nat := 15 * 60
  const REFRESH_MAX_AGE: nat := 7 * 24 * 60 * 60

  function Options(production: bool): CookieOptions {
    CookieOptions(true, production, "lax", "/")
  }

  /** The two session cookies a successful registration or login sets. */
  function SessionCookies(access: Token, refresh: Token, production: bool): seq<CookieOp> {
    [SetCookie(ACCESS_COOKIE, access, Options(production), ACCESS_MAX_AGE),
     SetCookie(REFRESH_COOKIE, refresh, Options(production), REFRESH_MAX_AGE)]
  }

  /** The cookies of the incoming request; an empty cookie counts as absent. */
  datatype Cookies = Cookies(accessToken: Option<Token>, refreshToken: Option<Token>)

  datatype UserView = UserView(uid: Uid, name: string, email: string, role: string, state: string, status: string)

  datatype OrgRow = OrgRow(id: OrgId, name: string, state: string, memberCount: nat, createdAt: int)

  datatype MyOrgRow = MyOrgRow(
    id: OrgId, name: string, state: string, joiningCode: string,
    createdBy: Uid, createdAt: int, memberCount: nat, pendingCount: nat)

  datatype MemberRow = MemberRow(uid: Uid, name: string, email: string, role: string)

  datatype PendingRow = PendingRow(uid: Uid, name: string, email: string)

  datatype OrgDetail = OrgDetail(
    id: OrgId, name: string, state: string, joiningCode: string, createdBy: Uid, createdAt: int,
    members: seq<MemberRow>, pendingRequests: seq<PendingRow>)

  datatype MessageRow = MessageRow(id: MsgId, message: Message)

  datatype Stats = Stats(totalUsers: nat, pendingUsers: nat, approvedUsers: nat, admins: nat, totalOrgs: nat)

  datatype UserRow = UserRow(
    uid: Uid, name: string, email: string, role: string, state: string, status: string,
    createdAt: Option<int>)

  datatype ApplicationRow = ApplicationRow(uid: Uid, name: string, email: string, state: string, createdAt: Option<int>)

  datatype Body =
    | Error(error: string, code: Option<string>)
    | Info(message: string)
    | JoinReply(joinMessage: string, direct: bool)
    | Registered(user: UserView, pending: bool)
    | LoggedIn(user: UserView)
    | CurrentUser(principal: Principal)
    | OrgCreated(orgId: OrgId, joiningCode: string, organization: Org)
    | OrgList(organizations: seq<OrgRow>)
    | MyOrgList(myOrganizations: seq<MyOrgRow>)
    | OrgDetailBody(detail: OrgDetail)
    | MessageSent(messageId: MsgId, data: Message)
    | MessageList(messages: seq<MessageRow>)
    | StatsBody(stats: Stats)
    | UserList(userRows: seq<UserRow>)
    | UserCreated(created: UserView)
    | ApplicationList(applications: seq<ApplicationRow>)

  datatype Response = Response(status: nat, body: Body, cookies: seq<CookieOp>)

  function Fail(status: nat, error: string): Response {
    Response(status, Error(error, None), [])
  }

  function Reply(status: nat, body: Body): Response {
    Response(status, body, [])
  }

  const INTERNAL_ERROR := "Internal server error"
  const TOKEN_EXPIRED := "TOKEN_EXPIRED"
}
