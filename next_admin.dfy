/** The Next.js admin handlers (`/api/admin/users`, `/applications`,
    `/stats`). Each checks the session and then the admin role itself; past
    that it runs the same steps as its Express counterpart. */
module NextAdmin {
  import opened Tokens
  import opened Store
  import opened Http
  import opened Middleware
  import opened NextAuth
  import Admin
  import Accounts
  import Common

  /** `GET /api/admin/users`. */
  method ListUsers(db: Database, cookies: Cookies, nowMs: nat) returns (res: Response)
    ensures var g := NextAdminSession(db.users, cookies.accessToken, nowMs);
            && (g.Halt? ==> res == g.response)
            && (g.Pass? ==> res == Reply(200, UserList(Admin.UserRows(db.users))))
  {
    var gate := NextAdminSession(db.users, cookies.accessToken, nowMs);
    if gate.Halt? {
      return gate.response;
    }
    res := Admin.ListUsers(db);
  }

  /** `POST /api/admin/users`: an account created by an admin, approved at
      once. */
  method CreateUser(db: Database, cookies: Cookies, name: string, email: string, password: string,
                    role: string, state: string, uid: Uid, salt: nat, nowMs: nat) returns (res: Response)
    requires uid !in db.users   // `push().key` is a fresh key
    modifies db`users
    ensures var g := NextAdminSession(old(db.users), cookies.accessToken, nowMs);
            g.Halt? ==> res == g.response && db.users == old(db.users)
    ensures var g := NextAdminSession(old(db.users), cookies.accessToken, nowMs);
            g.Pass? && (name == "" || email == "" || password == "") ==>
              res == Fail(400, Admin.CREATE_FIELDS_REQUIRED) && db.users == old(db.users)
    ensures var g := NextAdminSession(old(db.users), cookies.accessToken, nowMs);
            g.Pass? && name != "" && email != "" && password != "" ==>
              if Accounts.WithEmail(old(db.users), email) != {} then
                res == Fail(409, "Email already registered") && db.users == old(db.users)
              else
                var r := Common.OrDefault(role, "user");
                && db.users == old(db.users)[uid := Accounts.NewUser(name, email, HashPassword(password, salt), r,
                                                                     state, "approved", nowMs)]
                && res == Reply(201, UserCreated(UserView(uid, name, email, r, state, "approved")))
    ensures old(db.PrimaryOrgConsistent()) ==> db.PrimaryOrgConsistent()
  {
    var gate := NextAdminSession(db.users, cookies.accessToken, nowMs);
    if gate.Halt? {
      return gate.response;
    }
    res := Admin.CreateUser(db, name, email, password, role, state, uid, salt, nowMs);
  }

  /** `GET /api/admin/applications`. */
  method Applications(db: Database, cookies: Cookies, nowMs: nat) returns (res: Response)
    ensures var g := NextAdminSession(db.users, cookies.accessToken, nowMs);
            && (g.Halt? ==> res == g.response)
            && (g.Pass? ==> res == Reply(200, ApplicationList(Admin.ApplicationRows(db.users))))
  {
    var gate := NextAdminSession(db.users, cookies.accessToken, nowMs);
    if gate.Halt? {
      return gate.response;
    }
    res := Admin.Applications(db);
  }

  /** `GET /api/admin/stats`. */
  method Stats(db: Database, cookies: Cookies, nowMs: nat) returns (res: Response)
    ensures var g := NextAdminSession(db.users, cookies.accessToken, nowMs);
            && (g.Halt? ==> res == g.response)
            && (g.Pass? ==> res == Reply(200, StatsBody(Admin.StatsOf(db.users, db.orgs))))
  {
    var gate := NextAdminSession(db.users, cookies.accessToken, nowMs);
    if gate.Halt? {
      return gate.response;
    }
    res := Admin.GetStats(db);
  }
}
