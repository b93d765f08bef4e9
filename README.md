# Community server: sessions, accounts, organizations, chat, administration

A Dafny model of the server side of a small community-management web
application. Users register and wait for an administrator to approve them.
Approved users found or join organizations and chat inside them. The server
exists twice: an Express API (`server/`) and the Next.js route handlers
(`src/app/api/`). Both keep their data in one hierarchical realtime database
and authenticate with two JWTs carried in cookies: a 15-minute access token
and a 7-day refresh token whose current copy is stored per user.

The model covers:

- the session check of each server (`verifyToken` and `getSessionUser`);
- the account endpoints (register, login, refresh, logout, me);
- the organization endpoints (list, my, detail, create, join, approve,
  remove member, edit);
- the message endpoints (send, read);
- the admin endpoints (stats, users, create, edit, delete, applications,
  approve, reject) and the `add-admin` script.

The database is `Store.Database`, a class with one `map` field per top-level
node (`users`, `refreshTokens`, `organizations`, `messages`). The handlers
are methods that change those fields and say so in `modifies`. Every reply is
a `Response` value (status, JSON body, cookie operations). Throughout:

- Push keys are natural numbers. Their numeric order stands for the
  database's key order, which fixes the enumeration order of snapshots and
  the tie-break of `orderByChild`.
- The empty string stands for a missing string field. JavaScript's `||`,
  `!` and `===` treat the two alike.
- The clock, fresh push keys, bcrypt salts and random joining codes are
  parameters of the handlers.

`Store.Database.PrimaryOrgConsistent` is the store invariant: every user's
primary organization (`organizationId`) is an existing organization that the
user belongs to. Each mutating handler states whether it preserves this
invariant.

Modules:

- `Common`: `Option` and the JavaScript `||` defaults.
- `Tokens`: JWT signing and verification, and bcrypt.
- `Store`: the records and the database.
- `Http`: responses and cookies.
- `JsText`: `String.prototype.trim`.
- `Ordering` and `Snapshot`: sorting, key-ordered enumeration and counting.
- `AuthServer` and `Middleware`: the session checks.
- `Accounts` and `AuthRoutes`: the account endpoints.
- `Organizations`, `Messages`, `Admin` and `AddAdmin`: the Express routes
  and the script, and the body of the Next.js direct join
  (`Organizations.JoinDirect`).
- `NextAuth`, `NextOrgs` and `NextAdmin`: the Next.js handlers where they
  differ from Express.

Register, login and refresh run the same steps on both servers and are
modelled once, in `AuthRoutes`.

## Model

The Next.js join lives under a dynamic route segment
(`src/app/api/organizations/[id]/join/route.js`). Its rows cite the Express
route of the same endpoint and name the Next.js lines in the third column.

| member | source | states |
|---|---|---|
| Tokens.GenerateAccessToken | src/lib/auth-server.js:9-11 | an access token is signed with the access secret, carries the given claims, and expires 900 seconds after its issue second |
| Tokens.GenerateRefreshToken | src/lib/auth-server.js:13-15 | a refresh token is signed with the refresh secret, carries the given claims, and expires 7 days (604800 s) after issue |
| Tokens.Verify | src/lib/auth-server.js:17-23 | a token verifies exactly when it is well formed, signed with the expected secret and not yet expired, and then yields its claims; `TokenExpiredError` is reported exactly for a correctly signed token past its expiry |
| Tokens.AccessTokenLifetime | src/lib/auth-server.js:9-19 | an issued access token verifies to its claims before its 15 minutes are up and is expired from then on |
| Tokens.RefreshTokenLifetime | src/lib/auth-server.js:13-23 | the same for a refresh token and its 7 days |
| Tokens.TokenClassesSeparate | src/lib/auth-server.js:9-23 | a refresh token never passes as an access token, nor the reverse, whatever the clock says |
| Tokens.SameSecondSameToken | src/lib/auth-server.js:9-15 | two tokens issued for the same claims within one second are identical |
| Tokens.CompareHash | src/lib/auth-server.js:25-31 | a password matches its own bcrypt digest, and no other password does |
| AuthServer.ResolveSession | server/middleware/auth.js:4-34 | the outcome of a session check: no cookie, expired, invalid, and unknown user each occur exactly under their own condition; a session carries the token's uid and that user's STORED email, name, role and state |
| AuthServer.SessionIgnoresStatus | server/middleware/auth.js:11-25 | the session check never reads the account status, so a pending or rejected user with a valid token passes it |
| AuthServer.SessionReadsStoredRole | server/middleware/auth.js:18-25 | a valid token resolves to the role and email stored now, not the ones embedded in the token |
| AuthServer.GetSessionUser | src/lib/auth-server.js:37-69 | `getSessionUser` returns the same principal as the Express check; it throws "Authentication required" exactly without a cookie and "Token expired" exactly for an expired token; a token naming a deleted user is re-thrown as "Invalid token" |
| Middleware.Unauthorized | server/middleware/auth.js:28-33 | every session failure is a 401; the `TOKEN_EXPIRED` code is present exactly for an expired token |
| Middleware.VerifyToken | server/middleware/auth.js:4-34 | the middleware passes exactly when the session resolves and then hands on the hydrated stored user; otherwise it answers with the 401 of `Unauthorized` |
| Middleware.RequireRole | server/middleware/auth.js:36-46 | 401 without a user, 403 "Insufficient permissions" for a role outside the list, and passing otherwise |
| Middleware.AdminGate | server/routes/admin.js:9 | an admin route is reached exactly by a resolved session whose stored role is 'admin'; other sessions get 403 and failed ones the session's 401 |
| JsText.FirstNonSpace | server/routes/messages.js:11 | the left scan of `trim()`: the first index holding no white space (the length when there is none), with only white space skipped |
| JsText.EndOfText | server/routes/messages.js:11 | the right scan of `trim()`, bounded by the left one: only white space lies between the end it finds and the end of the input, and the character before it is not white space |
| JsText.TrimIsSlice | server/routes/messages.js:26 | the trimmed text is one contiguous slice of the input with only white space around it and none at either of its ends |
| JsText.TrimEmptyIffBlank | server/routes/messages.js:11 | `!text.trim()` holds exactly when the text is all white space |
| JsText.TrimIdempotent | server/routes/messages.js:26 | trimming a stored message text again changes nothing |
| Store.WithPrimaryOrg | server/routes/organizations.js:198-199 | writing `organizationId` and `orgRole` sets exactly those two fields, and creates a record holding only them for a uid without one |
| Store.WithoutPrimaryOrg | server/routes/organizations.js:220-221 | removing the two fields clears them, touches no other user, and makes a record that is left with no field disappear |
| Accounts.LastMatch | server/routes/auth.js:76-85 | the login loop finds a user exactly when one holds the email, and keeps the LAST one enumerated (the greatest key) |
| Accounts.FirstMatch | server/scripts/add-admin.js:12-16 | `Object.keys(...)[0]` finds a user exactly when one holds the email, and takes the FIRST one enumerated (the least key) |
| Accounts.NewUser | server/routes/auth.js:34-42 | a new account record has its password digest, no primary organization and the creation time |
| Accounts.LoginSucceedsIff | server/routes/auth.js:68-119 | a login is admitted exactly when both fields are given, some user holds the email, the password matches the picked user's digest, and that user is an admin or neither pending nor rejected; the admitted uid holds the email |
| Accounts.UnknownEmailLikeWrongPassword | server/routes/auth.js:76-90 | an unknown email is answered exactly like a wrong password |
| Accounts.RegisteredIsPending | server/routes/auth.js:34-44 | right after registering, an account cannot log in with any password: it is pending |
| Accounts.ApprovedCanLogIn | server/routes/admin.js:187 | once approved, an applicant logs in with the password they registered with |
| Accounts.RefreshDecision | server/routes/auth.js:122-152 | refresh succeeds exactly for a verifying refresh token that equals the one stored for its uid while that user exists; the new claims carry the stored email and role |
| Accounts.StoredRefreshAccepted | server/routes/auth.js:122-147 | the refresh token stored at login is accepted for its 7 days |
| Accounts.RevokedRefreshRejected | server/routes/auth.js:155-160 | after logout removes the record, no token of that user refreshes |
| Accounts.RotatedRefreshRejected | server/routes/auth.js:106 | a later login's record makes the earlier refresh token stale |
| Accounts.ExpiredRefreshRejected | server/routes/auth.js:129-133 | a refresh token past its 7 days is refused even while still stored |
| Accounts.RefreshReply | server/routes/auth.js:141-150 | only a successful refresh answers 200, and it sets the access cookie alone; every failure is a 401 that sets nothing |
| AuthRoutes.IssuedSessionResolves | server/routes/auth.js:46-53 | the access token handed out at registration or login resolves, for its 15 minutes, to the stored record of its user |
| AuthRoutes.Register | server/routes/auth.js:17-65 | 400 without name, email or password; 409 for an email on record; otherwise a pending 'user' account, the stored refresh token and both session cookies, and nothing else written |
| AuthRoutes.Login | server/routes/auth.js:68-119 | each login decision gets its answer: 400, 401, 500 for a record without a digest, 403 with the pending or rejected message; only an admitted login writes, and it writes only the caller's refresh record |
| AuthRoutes.Refresh | server/routes/auth.js:122-152 | refresh writes nothing, answers as `RefreshDecision` decides, and succeeds only for a stored token |
| AuthRoutes.Logout | server/routes/auth.js:155-165 | without a session it answers the middleware's 401 and writes nothing; with one it removes exactly the caller's refresh record and clears both cookies |
| AuthRoutes.MeReply | server/routes/auth.js:168-170 | `/me` answers 200 with the principal exactly when the session resolves, and the middleware's 401 otherwise |
| AuthRoutes.Me | server/routes/auth.js:168-170 | the Express `/me` handler gives the answer of `MeReply` |
| NextAuth.SessionFailure | src/app/api/organizations/route.js:27-29 | the Next.js handlers' `catch`: only "Authentication required" is a 401; every other session error, an expired token included, is a 500 with the error's message and no code |
| NextAuth.NextSession | src/app/api/organizations/route.js:13 | a Next.js handler proceeds exactly when the session resolves, with the same principal as Express |
| NextAuth.NextAdminSession | src/app/api/admin/users/route.js:7-10 | an admin handler proceeds exactly for a resolved admin session; other sessions get 403 "Admin access required" |
| NextAuth.ExpiredTokenNotRefreshable | src/lib/api.js:17 | as written, an expired token reaching an organization or admin handler gets a 500 without `TOKEN_EXPIRED`, which the client's refresh interceptor ignores; Express answers the same token with the 401 it refreshes on |
| NextAuth.IntendedSessionFailure | src/app/api/organizations/route.js:63-65 | the corrected `catch`: every session failure is a 401, carrying `TOKEN_EXPIRED` exactly for an expired token |
| NextAuth.IntendedFailureMatchesExpress | server/middleware/auth.js:28-33 | with the corrected `catch`, both servers agree on the status and the code of every session failure |
| NextAuth.Logout | src/app/api/auth/logout/route.js:6-33 | the Next.js logout always answers 200 and clears both cookies; the refresh record is removed only when the session resolves |
| NextAuth.Me | src/app/api/auth/me/route.js:4-14 | 200 exactly for a resolved session; every failure is a 401, with the code exactly for an expired token |
| NextAuth.MeServersAgree | src/app/api/auth/me/route.js:4-14 | the two `/me` endpoints give the same answer except two messages: a missing cookie and a deleted user |
| Organizations.ClaimPrimary | server/routes/organizations.js:64-68 | a user's primary organization is set only when they have none; otherwise the users are unchanged; no other user changes |
| Organizations.ClearPrimaryIfAt | server/routes/organizations.js:219-221 | the corrected removal clears the primary organization only when it is the one being left |
| Organizations.GuardedRemoveConsistent | server/routes/organizations.js:209-228 | the corrected removal keeps every primary organization pointing at one its user belongs to |
| Organizations.RemoveForgetsOtherPrimary | server/routes/organizations.js:220-221 | as written, removing a user from one organization wipes a primary organization that points at another one they still belong to |
| Organizations.GuardedRemoveKeepsOtherPrimary | server/routes/organizations.js:219-221 | the corrected removal leaves a primary organization elsewhere untouched |
| Organizations.ApproveOverwritesPrimary | server/routes/organizations.js:198-199 | as written, approval moves a user's existing primary organization to the approving one |
| Organizations.FirstClaimApprove | server/routes/organizations.js:64-68 | with the first-claim rule that creation already follows, an existing primary organization survives approval, and a user without one gets the approving organization |
| Organizations.AllOrgRowsExact | server/routes/organizations.js:79-98 | the list has one row per organization, each as stored with its member count, in key order |
| Organizations.MyOrgRowsExact | server/routes/organizations.js:14-42 | `/my` lists exactly the organizations whose members include the caller, in key order |
| Organizations.MemberRowsExact | server/routes/organizations.js:113-122 | the detail's member rows are exactly the members that have a user record, with their organization role defaulting to 'user' |
| Organizations.PendingRowsExact | server/routes/organizations.js:124-133 | the detail's pending rows are exactly the pending uids that have a user record |
| Organizations.ListOrgs | server/routes/organizations.js:81-91 | the enumeration loop builds exactly the rows of `AllOrgRows` |
| Organizations.MyOrgs | server/routes/organizations.js:16-35 | the enumeration loop builds exactly the rows of `MyOrgRows` |
| Organizations.MemberRows | server/routes/organizations.js:114-122 | the member lookup builds exactly `MemberRowsOf` |
| Organizations.PendingRows | server/routes/organizations.js:125-133 | the pending lookup builds exactly `PendingRowsOf` |
| Organizations.List | server/routes/organizations.js:79-98 | `GET /` answers 200 with the rows of every organization |
| Organizations.My | server/routes/organizations.js:14-42 | `GET /my` answers 200 with the caller's organizations |
| Organizations.Get | server/routes/organizations.js:106-156 | 404 for an unknown id; otherwise the stored fields, joining code included, and exactly the member and pending rows that have a user record, each once and in key order, for any signed-in caller |
| Organizations.Create | server/routes/organizations.js:44-76 | 400 without a name; otherwise a new organization whose only member and owner is the caller; the caller's primary organization is claimed only if they have none; the invariant is kept |
| Organizations.FileRequest | server/routes/organizations.js:176 | filing a join request adds the caller to the pending requests and changes nothing else |
| Organizations.AdmitDirect | server/routes/organizations.js:159-182 | a direct join makes the caller a member and no longer pending, and changes nobody else's standing |
| Organizations.Join | server/routes/organizations.js:159-182 | 404, then 400 for a wrong code, then 400 for a member; otherwise, with or without the right code, only a pending request is filed |
| Organizations.ExactCodeStaysPending | server/routes/organizations.js:166-177 | on the Express server, a caller who gives the exact joining code is still not a member, and the reply has no `direct` flag |
| Organizations.JoinDirect | server/routes/organizations.js:159-182 | the join of this endpoint as the Next.js route (`src/app/api/organizations/[id]/join/route.js`, lines 11-40) does it: 404, then 400 for a member, then 400 for a wrong code; the exact code admits the caller at once and clears a pending request, no code files a request, and the reply says which happened; the user records are untouched and the invariant is kept |
| Organizations.Approve | server/routes/organizations.js:185-206 | 404, then 403 for anyone but the owner; otherwise the target moves from pending to members (pending or not) and its primary organization is overwritten |
| Organizations.ApproveFirstClaim | server/routes/organizations.js:185-206 | the corrected approval: the same, with the primary organization claimed only if the target has none |
| Organizations.RemoveMember | server/routes/organizations.js:209-228 | 404, then 403; otherwise the target leaves the members and its primary organization is cleared whatever it pointed at; the invariant is still kept |
| Organizations.RemoveMemberGuarded | server/routes/organizations.js:209-228 | the corrected removal, which clears only a primary organization pointing at this one; the invariant is kept |
| Organizations.Edit | server/routes/organizations.js:231-251 | 404, then 403; otherwise only a non-empty name or state is written |
| Messages.LastN | server/routes/messages.js:51 | `limitToLast(n)` keeps the last `n` elements, or all of them when there are fewer |
| Messages.ThreadExact | server/routes/messages.js:49-50 | the thread holds every stored message once, as stored, strictly ordered by timestamp and then key |
| Messages.WindowOrder | server/routes/messages.js:51 | the kept window of a sorted thread stays sorted, and everything left out comes before everything kept |
| Messages.LatestWindow | server/routes/messages.js:48-57 | a read returns at most `limit` stored messages, oldest first, and no message left out is newer than one returned |
| Messages.NewestIsRead | server/routes/messages.js:21-52 | a message stored with a timestamp and key above every other is in any non-empty window read afterwards |
| Messages.Send | server/routes/messages.js:8-37 | 400 for blank text (checked first), 403 for a non-member; otherwise exactly one message with the trimmed, non-empty text and the sender's profile is stored under the organization |
| Messages.StoredRows | server/routes/messages.js:49-52 | the query reads one row per stored message, and sorting those rows gives the thread |
| Messages.PushEach | server/routes/messages.js:54-57 | the `forEach` copy keeps every child of the snapshot, in the snapshot's order |
| Messages.Window | server/routes/messages.js:48-57 | the query and the copy together answer the last `n` messages of the thread |
| Messages.Read | server/routes/messages.js:40-64 | 403 for a non-member, 500 for a negative limit; otherwise the last `limit` messages of the thread (50 for a missing or zero limit), oldest first |
| Admin.ComputeStats | server/routes/admin.js:14-27 | the counting loops give the number of accounts and organizations, and of pending, approved (status 'approved' or none) and admin records |
| Admin.StatsBounds | server/routes/admin.js:17-24 | the pending and approved counts together, and the admin count, never exceed the number of accounts |
| Admin.GetStats | server/routes/admin.js:12-42 | `/stats` answers 200 with those counts |
| Admin.UserRowsExact | server/routes/admin.js:47-62 | the user table has one row per account with role 'user' and status 'approved' as defaults, newest first, ties in key order |
| Admin.ListUsers | server/routes/admin.js:45-68 | `/users` answers 200 with exactly that table |
| Admin.ApplicationRowsExact | server/routes/admin.js:159-171 | the applications table lists exactly the pending accounts, newest first |
| Admin.Applications | server/routes/admin.js:157-177 | `/applications` answers 200 with exactly that table |
| Admin.CreateUser | server/routes/admin.js:71-105 | 400 without name, email or password; 409 for an email on record; otherwise one approved account with role defaulting to 'user', and nothing else written |
| Admin.CreatedUserCanLogIn | server/routes/admin.js:86-94 | an account created by an admin logs in at once with its password |
| Admin.Patched | server/routes/admin.js:118-124 | only the fields given in the request change; email, digest, creation time and organization are kept |
| Admin.EditUser | server/routes/admin.js:108-130 | 404 for an unknown uid; otherwise the record becomes `Patched`, and the invariant is kept |
| Admin.DeleteUser | server/routes/admin.js:133-154 | 400 for the caller's own uid, then 404; otherwise the account and its refresh record go |
| Admin.DeletedUserLosesSession | server/routes/admin.js:147-148 | a still-valid access token of a deleted user no longer resolves |
| Admin.SetStatus | server/routes/admin.js:180-209 | 404 for an unknown uid; otherwise only the status field changes |
| Admin.ApproveApplication | server/routes/admin.js:180-193 | approval sets status 'approved' |
| Admin.RejectApplication | server/routes/admin.js:196-209 | rejection sets status 'rejected' |
| Admin.RejectedCannotLogIn | server/routes/admin.js:203 | a rejected applicant who is not an admin gets the rejection message at login even with the right password |
| Admin.ApprovedLeavesApplications | server/routes/admin.js:187 | an approved account leaves the applications list, and no other account enters or leaves it |
| NextOrgs.List | src/app/api/organizations/route.js:11-30 | the session failure, or the Express list |
| NextOrgs.My | src/app/api/organizations/my/route.js:5-31 | the session failure, or the Express `/my` list for the caller |
| NextOrgs.Create | src/app/api/organizations/route.js:33-66 | the session failure with nothing written, or the Express creation for the caller |
| NextOrgs.Join | server/routes/organizations.js:159-182 | the Next.js route of this endpoint (`src/app/api/organizations/[id]/join/route.js`, lines 5-44): the session failure with nothing written, or the direct join for the caller, with each of its answers |
| NextAdmin.ListUsers | src/app/api/admin/users/route.js:5-32 | the admin-session failure, or the Express user table |
| NextAdmin.CreateUser | src/app/api/admin/users/route.js:34-72 | the admin-session failure with nothing written, or the Express creation |
| NextAdmin.Applications | src/app/api/admin/applications/route.js:5-29 | the admin-session failure, or the Express applications table |
| NextAdmin.Stats | src/app/api/admin/stats/route.js:5-39 | the admin-session failure, or the Express counts |
| AddAdmin.Promote | server/scripts/add-admin.js:16-18 | promotion sets role 'admin' and status 'approved' on one account and changes nothing else, its password included |
| AddAdmin.NewAdmin | server/scripts/add-admin.js:22-32 | the created account is an approved admin with the given email and the digest of the given password |
| AddAdmin.Run | server/scripts/add-admin.js:4-40 | exit code 1 and nothing written without both arguments; otherwise exit code 0 after promoting the first account holding the email, or creating "Admin User" when none does; the invariant is kept |
| AddAdmin.LeastIsMatch | server/scripts/add-admin.js:16 | the first match holds the email |
| AddAdmin.PromotedCanLogIn | server/scripts/add-admin.js:14-19 | a promoted account logs in with the password it ALREADY had, whatever its status was; the password given to the script is not used |
| AddAdmin.NewAdminCanLogIn | server/scripts/add-admin.js:20-33 | a created admin logs in with the password given to the script |

## Left out

- Store failures and every `catch` that answers 500 for them, and the
  script's exit code 1 for a store error, are not modelled. The model's
  store operations always succeed. The 500 for a negative message limit and
  for a record without a password digest are modelled, because they come
  from the data and not from the store.
- Concurrency is not modelled. Each handler runs alone against one
  snapshot. Interleavings are not captured: two registrations of one email
  racing past the 409 check, the `Promise.all` of the detail handler, and
  the several separate writes of one handler.
- Fresh push keys, the random joining code (`generateJoiningCode`), bcrypt
  salts and the clock are parameters. Their randomness and format (6
  uppercase alphanumerics) are not modelled. One `nowMs` stands for the two
  `Date.now()` calls of a registration or login.
- bcrypt is modelled as an exact digest comparison. Its cost factor 12,
  its 72-byte truncation and its one-wayness are not modelled.
- JWT signatures are modelled as the signing key recorded in the token. The
  secrets' values and the encoding are not modelled.
- Cookies are modelled as set/clear operations with their options. Express
  gives `maxAge` in milliseconds and Next.js in seconds; both mean the same
  lifetime, recorded once in seconds. The options passed when a cookie is
  deleted are not modelled.
- Logging, the debug middleware and the catch-all 404 of the organization
  router are not modelled.
- The client's refresh interceptor (`src/lib/api.js`) is not modelled.
  Only its trigger condition, a 401 with `TOKEN_EXPIRED`, is used in
  `NextAuth.ExpiredTokenNotRefreshable`.
- The Next.js handlers for one organization, its approve and member
  removal, one user, and messages (`src/app/api/organizations/[id]`,
  `src/app/api/admin/users/[uid]`, `src/app/api/messages/[id]`) are not part
  of this model. The Express forms of these operations are modelled. The
  Next.js join is modelled (`NextOrgs.Join`).
- Messages.Read: the window is stated through the sorted thread. Firebase's
  own evaluation order for `limitToLast` is not modelled.

Behaviour kept as written (the model follows the code even where it looks
unintended):

- An Express join with the right code only files a pending request; see
  the finding.
- `GET /organizations/:id` shows the joining code and the pending requests
  to any signed-in caller, member or not.
- A negative `limit` is not clamped. `limitToLast` rejects it, and the
  handler answers 500.
- Removing the two organization fields from a record that holds nothing
  else deletes the record, as the database prunes empty nodes. Because the
  model writes "" for a missing text field, a record whose only remaining
  field is an empty string (say `state: ""`, set by an admin edit of a stub
  record that an approval created) is pruned too, while the database would
  keep it with that empty string.
- Approval does not check that the target has a pending request, or even
  an account.

## Findings

| source | as written | input that shows it | evidently intended | confidence | as-written member | corrected member |
|---|---|---|---|---|---|---|
| server/routes/organizations.js:220-221 | removing a member clears their `organizationId` and `orgRole` whatever organization they point at | user U with primary organization O1, a member of both O1 and O2; O2's owner removes U from O2; U stays in O1 with no primary organization | clear them only when they point at the organization being left | not executed | Organizations.RemoveForgetsOtherPrimary | Organizations.GuardedRemoveKeepsOtherPrimary |
| server/routes/organizations.js:198-199 | approval overwrites the target's primary organization | U with primary organization O1 is approved into O2; U's primary becomes O2 | first claim wins, as in creation (lines 64-68) | not executed | Organizations.ApproveOverwritesPrimary | Organizations.FirstClaimApprove |
| src/app/api/organizations/route.js:28 | the Next.js organization and admin handlers answer any non-"Authentication required" session error with 500 and no code | an access token 15 minutes old sent to `GET /api/organizations`: 500 "Token expired" without `TOKEN_EXPIRED`, so the client interceptor (src/lib/api.js:17) does not refresh | a 401 with `TOKEN_EXPIRED`, as the middleware and `/me` answer | not executed | NextAuth.ExpiredTokenNotRefreshable | NextAuth.IntendedFailureMatchesExpress |
| server/routes/organizations.js:166-177 | on the Express server, a join with the exact joining code only files a pending request, and the reply has no `direct` flag | org O with code "ABC123"; non-member U posts `{joiningCode: "ABC123"}` to the Express route; U is pending, not a member, and the reply carries no `direct` | the exact code makes the caller a member at once and clears a pending request, with `direct: true`, as the Next.js twin already does (src/app/api/organizations/[id]/join/route.js:21-35) and as the explore page expects (src/app/dashboard/explore/page.js:38-40) | not executed | Organizations.ExactCodeStaysPending | Organizations.JoinDirect |
