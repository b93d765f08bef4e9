/** The command-line script that makes an account an administrator: an
    account already holding the email is promoted, otherwise a new
    administrator account is created. The script's arguments arrive as
    strings ("" when missing); the fresh push key, the bcrypt salt and the
    clock are parameters; its exit code is the result. */
module AddAdmin {
  import opened Common
  import opened Tokens
  import opened Store
  import opened Ordering
  import opened Accounts

  const ADMIN_NAME := "Admin User"

  /** The promotion of an existing account: role 'admin', status
      'approved', and nothing else about it or any other account changes,
      its password included. */
  function Promote(users: map<Uid, User>, uid: Uid): (r: map<Uid, User>)
    requires uid in users
    ensures r.Keys == users.Keys
    ensures r[uid].role == "admin" && r[uid].status == "approved"
    ensures r[uid].(role := users[uid].role, status := users[uid].status) == users[uid]
    ensures forall u :: u in users && u != uid ==> r[u] == users[u]
  {
    users[uid := users[uid].(role := "admin", status := "approved")]
  }

  /** The account the script creates when none holds the email. */
  function NewAdmin(email: string, password: string, salt: nat, nowMs: nat): (u: User)
    ensures u.email == email && u.role == "admin" && u.status == "approved"
    ensures u.passwordHash == Some(HashPassword(password, salt))
  {
    NewUser(ADMIN_NAME, email, HashPassword(password, salt), "admin", "", "approved", nowMs)
  }

  /** `addAdmin(email, password)`: exit code 1 without both arguments and
      nothing written; otherwise exit code 0 after exactly one account is
      promoted or created. */
  method Run(db: Database, email: string, password: string, uid: Uid, salt: nat, nowMs: nat)
    returns (exitCode: nat)
    requires uid !in db.users   // `push().key` is a fresh key
    modifies db`users
    ensures email == "" || password == "" ==> exitCode == 1 && db.users == old(db.users)
    ensures email != "" && password != "" && WithEmail(old(db.users), email) != {} ==>
              && exitCode == 0
              && Least(WithEmail(old(db.users), email)) in old(db.users)
              && db.users == Promote(old(db.users), Least(WithEmail(old(db.users), email)))
    ensures email != "" && password != "" && WithEmail(old(db.users), email) == {} ==>
              exitCode == 0 && db.users == old(db.users)[uid := NewAdmin(email, password, salt, nowMs)]
    ensures old(db.PrimaryOrgConsistent()) ==> db.PrimaryOrgConsistent()
  {
    if email == "" || password == "" {
      return 1;
    }
    var existing := FirstMatch(db.users, email);
    if existing.Some? {
      var userId := existing.value;
      LeastIsMatch(db.users, email);
      db.users := db.users[userId := db.users[userId].(role := "admin")];
      db.users := db.users[userId := db.users[userId].(status := "approved")];
      return 0;
    }
    db.users := db.users[uid := NewAdmin(email, password, salt, nowMs)];
    exitCode := 0;
  }

  /** The first match is an account holding the email. */
  lemma LeastIsMatch(users: map<Uid, User>, email: string)
    requires WithEmail(users, email) != {}
    ensures Least(WithEmail(users, email)) in users
    ensures users[Least(WithEmail(users, email))].email == email
  {
    assert Least(WithEmail(users, email)) in WithEmail(users, email);
  }

  /** A promoted account whose email is its own logs in with the password
      it already had, whatever its status was: the password given to the
      script is not used. */
  lemma {:induction false} PromotedCanLogIn(users: map<Uid, User>, uid: Uid, email: string, password: string)
    requires email != "" && password != ""
    requires WithEmail(users, email) == {uid}
    requires users[uid].passwordHash.Some? && ComparePassword(password, users[uid].passwordHash.value)
    ensures LoginDecision(Promote(users, uid), email, password) == Admitted(uid)
  {
    assert uid in WithEmail(users, email);
    var after := Promote(users, uid);
    assert WithEmail(after, email) == {uid};
  }

  /** A created administrator logs in with the password given to the
      script. */
  lemma {:induction false} NewAdminCanLogIn(users: map<Uid, User>, uid: Uid, email: string, password: string,
                                            salt: nat, nowMs: nat)
    requires uid !in users && email != "" && password != ""
    requires WithEmail(users, email) == {}
    ensures LoginDecision(users[uid := NewAdmin(email, password, salt, nowMs)], email, password) == Admitted(uid)
  {
    var after := users[uid := NewAdmin(email, password, salt, nowMs)];
    assert WithEmail(after, email) == {uid};
  }
}
