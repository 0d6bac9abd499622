# A Dafny model of the fastapi-rbac authentication and authorization core

The system is a role-based access control backend. Departments own users and roles. Roles hold permissions, and permissions are grouped by module. Users log in and receive a JWT pair: a short-lived access token and a refresh token. The refresh token is recorded in a server-side ledger, and that ledger can blacklist it. Every guarded route then authenticates the bearer token and checks that the caller's role holds one of the permissions the route names.

This project models:

- **Token ledger** (`Ledger`). Issuing a refresh token appends one `UserToken` row. Decoding an access or refresh token consults the blacklist, and an access token must also match a live ledger row. Blacklisting flips one row, and a revoked `jti` stays revoked.
- **Claims and signing** (`Claims`). These are the claim dictionaries and their expiry rules. The JWT library is an oracle `Codec(sign, verify)` that takes a clock. `Sound(codec)` states the round trip that PyJWT provides. Per PyJWT, a token is expired once `now >= exp`.
- **Guard and permission gate** (`Guard`):
  - `get_current_user`;
  - `has_role_permission`, where superusers bypass the gate and everyone else needs one of the alternatives (OR semantics);
  - the API-key dependency, including Python's `str.replace` on the `"Bearer "` prefix.
- **Response envelope and exception handlers** (`Helper`, `ExceptionHandler`):
  - a route's `error_response` is a plain dict, so it travels with HTTP 200, whatever its `status` field says;
  - raised exceptions are mapped to HTTP 400, 401, 403 or 500 by the handlers;
  - validation errors are joined with `"; "`.
- **Session routes** (`Session`): login, refresh, logout and password reset, over a `Db` session class whose fields are the tables.
- **Permission services** (`Services`, `Grouping`, `Ordering`, `Joins`):
  - each dictionary-filling loop is one generic `Grouping.GroupBy` method, proved equal to a fold, `GroupRows`;
  - `Grouped` states what the grouping promises: one group per key, in first-appearance order, with the header taken from the first row and items in row order;
  - `ORDER BY module id, permission id` is a stable insertion sort over the join.
- **Role routes** (`Roles`):
  - listing with pagination metadata;
  - department scoping;
  - creation, and update with grant replacement, both under the no-escalation subset check;
  - soft deletion of a role together with its live grants.
- **Permission routes** (`Permissions`): the listing grouped by module name, lookup by id, and the superuser-only create, rename and delete.
- **Soft delete** (`AbstractBase`): the shared `soft_delete` and the column defaults.

Oracles and conventions:

- Time is an `int` parameter `now`, in seconds.
- bcrypt's `verify` is a `checkPassword` parameter, and a freshly computed hash is a `newHash` parameter.
- `ilike` matching is a `contains` parameter.
- The id the database assigns to a new row is a `newId` parameter, which must be fresh.
- `get_active` is modelled as the `is_deleted == False` filter. Its defining file is not part of this model.
- Route methods that take `user` receive the caller as `Guard.Authorize` resolves it.
- The schema's constraints form the session invariant `Tables.Db.Valid`:
  - ledger `jti` and `token` are unique;
  - user, role and module ids are unique;
  - permission ids and names are unique;
  - permissions, grants and roles satisfy their foreign keys.

Every state-changing route preserves that invariant.

## Model

| member | source | states |
|---|---|---|
| Helper.SuccessResponse | utils/helper.py:2-7 | The envelope carries exactly the given status, message and data. Data defaults to null. |
| Helper.ErrorResponse | utils/helper.py:9-14 | Same shape as the success envelope. |
| Helper.SameShape | utils/helper.py:2-14 | Success and error envelopes are indistinguishable, and both default `data` to null. |
| Helper.Returned | utils/helper.py:9-14 | A dict returned by a route is sent with HTTP 200, whatever its `status` field. |
| Helper.Offset | utils/helper.py:18 | The number of skipped rows, `(page-1)*limit`, is non-negative and smaller than `page*limit`. |
| Helper.Window | utils/helper.py:18 | At most `limit` rows starting at the offset, each equal to the query row at offset+j. Empty past the end. |
| Helper.PaginateQuery | utils/helper.py:16-19 | The total is the query length. The items are the window at `(page-1)*limit`, and there are at most `limit` of them. |
| Query.Distinct | routes/permissions.py:49 | The uniquing of `Query.all()` on entity rows: the same rows, no row twice, and the kept rows ordered by where each first occurs in the input (`FirstIndex`). |
| Query.DistinctCount | routes/permissions.py:49 | Uniquing leaves one row per distinct row. |
| ExceptionHandler.IssueTexts | handlers/exception_handler.py:13-15 | One text per issue: the last element of `loc`, then ": ", then the message. |
| ExceptionHandler.JoinSnoc | handlers/exception_handler.py:17 | Joining one more part appends "; " and that part. |
| ExceptionHandler.JoinLength | handlers/exception_handler.py:17 | The joined message has the parts' total length plus two characters per separator. |
| ExceptionHandler.Handle | handlers/exception_handler.py:10-75 | Validation gives 400 with the joined message. API-key and JWT errors give 401. Unauthorized gives 403. Anything else gives 500 "Something went wrong!". HTTP status equals envelope status, and data is `{}`. FastAPI's own HTTP errors keep their status and detail. |
| ExceptionHandler.RaisedStatusIgnored | handlers/exception_handler.py:42-75 | The status carried by the raised exception never changes the response. |
| ExceptionHandler.LengthIssues | routes/auth.py:19-21 | The field passes iff its length is within the bounds. Otherwise there is one issue located at ("body", field). |
| AbstractBase.NewBase | models/abstract.py:10-13 | A new row is active, not deleted, and both timestamps are now. |
| AbstractBase.SoftDeleted | models/abstract.py:15-19 | Inactive, deleted, updated_at is now, created_at is kept. |
| AbstractBase.SoftDeleteIdempotent | models/abstract.py:15-19 | Deleting twice equals deleting once at the later time. Flags are unchanged by the second call. |
| AbstractBase.Entity.SoftDelete | models/abstract.py:15-19 | Updates the object's own columns in place to the soft-deleted columns, and returns the same object. |
| Claims.Get | utils/auth.py:99 | `dict.get`: the stored value, or None when the key is absent. |
| Claims.Expiry | utils/auth.py:62-66 | A present, non-zero delta is added to now. Otherwise the configured minutes are added. A zero timedelta is falsy. |
| Claims.WithClaims | utils/auth.py:61-67 | The payload keys are the data keys plus exp, jti and type. The three override the data, and every other key is copied. |
| Claims.CreateAccessToken | utils/auth.py:57-69 | With a sound codec, the token decodes to the access claims until their expiry and is expired from then on. |
| Claims.AccessTokenRoundTrip | utils/auth.py:57-69 | With a sound codec, an access token decodes to its claims before exp and is expired from exp on. Its type is "access" and its jti is the given one. |
| Claims.RefreshTokenRoundTrip | utils/auth.py:72-83 | Same for refresh tokens, with type "refresh". |
| Tables.NewApiKey | models/auth.py:7-15 | A new API key is active and not deleted. |
| Tables.NewUserToken | models/auth.py:21-29 | A new ledger row carries the token, jti, user id and expiry, and is not blacklisted. |
| Tables.Db.Valid | models/permission.py:31-55 | The session invariant: the unique columns (ledger token and jti, ids, permission names) and the foreign keys of permissions and grants hold. |
| Ledger.CheckBlacklistToken | utils/auth.py:170-176 | Succeeds iff no row with this jti is blacklisted. Otherwise 401 "Token has been blacklisted". |
| Ledger.MatchJtiFromDb | utils/auth.py:179-184 | Succeeds iff a non-blacklisted row has this jti and user id, and returns that row. Otherwise 401 "Invalid token". |
| Ledger.DecodeAccessToken | utils/auth.py:93-109 | Accepts iff the token verifies, has type access, its jti is not blacklisted, and a live row matches jti and user id. Each refusal carries its own message, in the source's check order: "Token has expired", "Invalid token", "Invalid token type", "Token has been blacklisted", then "Invalid token" when no live row matches. |
| Ledger.DecodeRefreshToken | utils/auth.py:112-125 | Accepts iff the token verifies, its jti is not blacklisted, and its type is refresh. The blacklist is checked before the type. |
| Ledger.CreateRefreshToken | utils/auth.py:72-90 | Returns the signed refresh token and appends exactly one not-blacklisted ledger row with its jti, user id and expiry. A duplicate token or jti (a unique-constraint failure), or a user id that is not an integer, leaves the ledger unchanged and answers 500. |
| Ledger.RevocationTarget | utils/auth.py:153-167 | Finds a live row iff the token verifies, its jti is not blacklisted, and a non-blacklisted row carries it. Each error case has its own message. |
| Ledger.Revoke | utils/auth.py:161-165 | Exactly the chosen row becomes blacklisted. Every other row is unchanged. |
| Ledger.BlacklistToken | utils/auth.py:153-167 | On success the ledger is the old one with that row revoked. On failure it is unchanged. The ledger only evolves: no row is lost, reordered or un-blacklisted. |
| Ledger.RevokeKeepsLedger | utils/auth.py:161-165 | Revoking keeps jti and token uniqueness, and makes the jti revoked. |
| Ledger.SecondBlacklistFails | utils/auth.py:160 | Blacklisting the same token twice fails with "Token has been blacklisted". |
| Ledger.RevocationKillsAccessTokens | utils/auth.py:102 | Once a refresh token is revoked, every access token with the same jti is refused. |
| Ledger.RevokedStaysRevoked | utils/auth.py:153-176 | Evolution never un-blacklists a jti. |
| Ledger.EvolvesTransitive | utils/auth.py:153-167 | Ledger evolution composes. |
| Ledger.IssuedRefreshTokenDecodes | utils/auth.py:112-125 | A refresh token issued under a sound codec decodes to its claims until it expires, unless its jti has been revoked. |
| Guard.GetCurrentUser | utils/auth.py:136-150 | Returns the stored user iff the access token is accepted, user_id is truthy, and the first user with that id is active and not deleted. Otherwise it raises the decode error, "Invalid token" or "Invalid user". |
| Guard.CurrentUserIsTheStoredRow | utils/auth.py:146-147 | With unique ids, the resolved user is the table row with the token's user id. |
| Guard.DeactivatedUserRejected | utils/auth.py:148-149 | A deleted or inactive user is never resolved. |
| Guard.PermissionNames | utils/auth.py:197-203 | The names of the permissions with the given id. |
| Guard.GrantedNamesExact | utils/auth.py:197-203 | A name is among the granted names iff a non-deleted grant of the role links to a permission with that name. Permission deletion is not consulted. |
| Guard.HasRolePermission | utils/auth.py:187-207 | Superusers pass. Anyone else passes iff some required name is granted. Otherwise 403 "Permission denied". |
| Guard.EmptyRequirementDenies | src/auth/dependencies.py:69-79 | An empty requirement list denies every non-superuser. |
| Guard.MoreAlternativesStillPass | utils/auth.py:206 | Adding alternatives, before or after, never revokes access. |
| Guard.PermissionDeletionIgnored | utils/auth.py:197-202 | Soft-deleting a permission does not change the gate's answer. |
| Guard.Authorize | utils/auth.py:188-191 | The dependency chain: authentication failures pass through, then the gate decides. A success is a resolved user holding one requirement, or a superuser. |
| Guard.RemoveAll | utils/auth.py:44 | Python `str.replace(pat, "")`: the result is never longer than the input. |
| Guard.RemoveAbsent | utils/auth.py:44 | A string without the pattern is unchanged. |
| Guard.BearerRoundTrip | utils/auth.py:44 | Stripping "Bearer " from "Bearer "+key returns the key, and a bare key passes unchanged. |
| Guard.GetApiKey | utils/auth.py:36-54 | A missing header gives 401 "Authorization header missing". Otherwise it succeeds iff some active, non-deleted key equals the stripped header, else 403 "Invalid API Key". |
| Guard.ApiKeyRefusalsAre401 | handlers/exception_handler.py:42-51 | Every API-key refusal reaches the client as HTTP 401, including the one raised with 403. |
| Ordering.OrderBy | src/auth/services.py:18 | The sorted rows are a permutation of the query rows. |
| Ordering.OrderBySorted | src/auth/services.py:18 | The result is ordered by (module id, permission id). |
| Ordering.DistinctSorted | src/auth/services.py:18-23 | Uniquing a sorted result keeps it sorted. |
| Ordering.SortedDistinctRows | src/auth/services.py:18-23 | Sorting then uniquing gives sorted rows, the same rows as the query, and one row per distinct row. |
| Grouping.GroupBy | src/auth/services.py:22-29 | The dictionary loop equals the fold `GroupRows` of the loop body. |
| Grouping.GroupRowsGrouped | src/auth/services.py:22-32 | Distinct keys, exactly the rows' keys, in first-appearance order. Each header comes from the first row with its key, and each group holds that key's items in row order. |
| Grouping.GroupRowsTotal | src/auth/services.py:22-29 | Every row lands in exactly one group: the item count equals the row count. |
| Grouping.GroupsAscending | src/auth/services.py:18-29 | Rows ordered by key give groups in strictly ascending key order. |
| Grouping.ItemsSortedWithinGroup | src/auth/services.py:18-29 | Rows ordered by (key, item key) give each group's items in ascending item key. |
| Joins.JoinGrants | src/role/services.py:17-18 | The join rows are exactly the linked (grant, permission, module) triples of the tables. |
| Joins.GrantIsJoined | src/role/services.py:17-18 | Under the foreign keys, no grant is lost by the join. |
| Services.RolePairs | src/auth/services.py:9-17 | One (permission, module) pair per grant row of the role whose permission and module are not deleted. |
| Services.RolePairsMembers | src/auth/services.py:9-17 | A pair is selected iff the permission and its module are live, linked rows and some grant of the role names the permission. Grant deletion is not consulted. |
| Services.UserPermissionRows | src/auth/services.py:9-23 | What `.all()` returns: exactly the selected pairs, sorted by (module id, permission id), no pair twice. Its length is the number of distinct pairs. |
| Services.GetUserPermissions | src/auth/services.py:7-34 | The loop's result is the module entries of the grouping of the uniqued rows. |
| Services.UserPermissionGroupsShape | src/auth/services.py:21-32 | One group per module, in ascending module id. Names are in ascending permission id within a group. The item count is the number of distinct (permission, module) pairs, so a permission held through several grant rows is listed once. |
| Services.RoleGrantRows | src/role/services.py:8-23 | Join rows of non-deleted grants of the requested roles, sorted. Permission and module deletion are not consulted. |
| Services.NestByRole | src/role/services.py:25-34 | The nested `setdefault` loop equals the map fold `RoleGroups`. |
| Services.GetRolePermissions | src/role/services.py:7-36 | The result is the nested grouping of the query rows. |
| Services.RoleGroupsPerRole | src/role/services.py:25-36 | A role is a key iff one of its rows is present. Its value is the grouping of that role's rows. |
| Services.RoleKeySound | src/role/services.py:19-20 | Every key is a requested role with a non-deleted grant. |
| Services.RoleKeyComplete | src/role/services.py:19-20 | Every requested role with a non-deleted grant is a key. |
| Services.RolePermissionsKeys | src/role/services.py:19-36 | Keys are exactly the requested roles with a non-deleted grant. A role without one is absent, not mapped to []. |
| Services.RolePermissionsShape | src/role/services.py:21-36 | Per role: one group per module, in ascending module id, holding that role's rows in order, each row once. |
| Services.GroupPermissionsByModule | src/role/services.py:39-52 | Grouped by module id in first-appearance order, with the row count preserved. |
| Services.FormatRole | src/role/services.py:55-63 | Copies id, name, is_active, created_at and updated_at, and attaches the permissions unchanged. |
| Session.LoginIssues | routes/auth.py:19-21 | The body is valid iff the phone has 3..15 characters and the password 4..18. |
| Session.RefreshIssues | routes/auth.py:87-88 | The body is valid iff the refresh token has 3..255 characters. |
| Session.ResetIssues | routes/auth.py:126-128 | The body is valid iff both passwords have 6..18 characters. |
| Session.Authenticate | routes/auth.py:30-34 | An unknown phone or a wrong password gives 401 "Invalid credentials". A right password for an inactive user gives 403 "Inactive user". Otherwise the first user with the phone is returned. |
| Session.AuthenticatedUser | routes/auth.py:30-34 | An authenticated user is stored, has the phone, matches the password and is active. |
| Session.LoginAsWritten | routes/auth.py:24-84 | As written: validation errors give 400, credential refusals give their envelope, and every other request gives 500. No answer carries data or a 200 status. |
| Session.LoginAsWrittenNeverSucceeds | routes/auth.py:36-40 | As written, a valid login always ends in HTTP 500. |
| Session.SessionData | routes/auth.py:37 | The token data carries the user's id and phone. |
| Session.MakeProfile | routes/auth.py:71-81 | The profile copies the user's id, name, email, phone, role id, active flag and department id. The role name is present iff a role row has the user's `role_id`, and is then that row's name. The department name works the same way. |
| Session.Login | routes/auth.py:24-84 | Validation first, then authentication. Success returns an access token and a refresh token sharing one jti, the profile, and the grouped permissions, each distinct permission once. It adds exactly one ledger row. |
| Session.LoginGrantsAccess | routes/auth.py:36-40 | After login, the access token resolves to the logged-in user until it expires. |
| Session.RefreshAsWritten | routes/auth.py:91-109 | As written, every answer is an error envelope with matching HTTP status and no data. |
| Session.RefreshAsWrittenNeverSucceeds | routes/auth.py:101-103 | As written, refresh never answers 200. |
| Session.RefreshedData | routes/auth.py:102 | The new access token's data copies user_id and phone from the payload. |
| Session.Refresh | routes/auth.py:91-109 | Invalid or refused refresh tokens give the handler's answer. Otherwise a new access token is returned with the same refresh token. |
| Session.RefreshAfterLogin | routes/auth.py:91-109 | A refresh token issued at login refreshes successfully until it expires or is revoked. |
| Session.RefreshKeepsJti | routes/auth.py:100-103 | The refreshed access token carries the refresh token's jti and user id. |
| Session.Logout | routes/auth.py:112-123 | Checks the bearer, then the current user, then validation. Then the refresh token's ledger row is blacklisted, or the refusal is answered. The ledger only evolves. |
| Session.LogoutEndsSession | routes/auth.py:122 | After logout, the refresh token and every access token with its jti are refused, and logging out again fails. |
| Session.ResetPassword | routes/auth.py:131-148 | Authentication, then validation. A wrong current password gives 400 with nothing changed. Otherwise exactly the caller's row gets the new hash. |
| Roles.TotalPages | routes/roles.py:50 | There are no pages iff there are no records. |
| Roles.TotalPagesIsCeiling | routes/roles.py:50 | The page count is the ceiling of total/limit. |
| Roles.CeilingFormulasAgree | src/user/routes.py:54 | The other page-count formula gives the same number. |
| Roles.NextIffNotLastPage | routes/roles.py:54-55 | `page*limit < total` iff the page is before the last one. |
| Roles.PageInfo | routes/roles.py:48-56 | A previous URL is present iff page > 1, and a next URL iff page < total_pages. The page count is the ceiling. Both URLs are given in full. |
| Roles.FindRole | routes/roles.py:68-76 | A role is found iff one with the id is not deleted and, for non-superusers, is in the caller's department. |
| Roles.NameTaken | routes/roles.py:158-167 | A live role of the caller's department, other than the excluded id, already has the name. This is the duplicate check of both create (lines 94-103, no exclusion) and update. |
| Roles.RoleQuery | routes/roles.py:30-36 | A role is listed iff it is not deleted, in scope, matches the name filter and matches `is_active` when given. |
| Roles.ListedPage | routes/roles.py:30-38 | A page holds at most `limit` roles. Each is a table row that is not deleted, is in scope, matches the name filter, and matches `is_active` when given. |
| Roles.FormatAll | routes/roles.py:42-46 | Each listed role is formatted with its permissions, or [] when it has none. |
| Roles.GetRoles | routes/roles.py:19-58 | The response holds the pagination block and the formatted page of the filtered roles. A zero limit, a negative limit or a page below 1 answers 500. |
| Roles.PresentRole | routes/roles.py:78-79 | The role formatted with its permission groups. |
| Roles.GetRole | routes/roles.py:61-83 | 404 "Role not found" unless the role is found. Otherwise 200 "Success" with the formatted role. |
| Roles.HeldIds | routes/roles.py:112-116 | The ids on every grant row of the caller's role, deleted ones included. A role of None holds nothing. |
| Roles.NewGrants | routes/roles.py:121-123 | One new live grant per listed id, duplicates included. |
| Roles.RetireGrants | routes/roles.py:174-177 | Every live grant of the role is soft-deleted. All other rows are unchanged. |
| Roles.RetireGrantsEffect | routes/roles.py:172-177 | Afterwards the role has no live grant, and every other role's live grants are unchanged. |
| Roles.NewGrantsLive | routes/roles.py:198-200 | The new rows are exactly the listed ids, live and in order, and belong to no other role. |
| Roles.ReplacementExact | routes/roles.py:188-200 | After replacement, the role's live grants are exactly one per listed id, and every other role keeps its live grants. |
| Roles.StoreRole | routes/roles.py:109-128 | The role and its grants are appended together, keeping every key constraint. |
| Roles.ReplaceRole | routes/roles.py:169-205 | The rename and the grant replacement are committed together. Every key constraint is kept, because the new grants name only permissions the editor holds. |
| Roles.CreateRole | routes/roles.py:86-137 | A name already taken in the caller's department gives 400. A caller without a department gives 500. Ids outside the caller's held ids give 403, and nothing is stored. Otherwise it appends the role and one grant per id, the new role's live grants are the requested ids, and it answers 201. |
| Roles.Renamed | routes/roles.py:169-170 | Only the name and updated_at change. |
| Roles.UpdateRole | routes/roles.py:140-211 | 404 unless found. 400 if another live role in the caller's department has the name. 403 on escalation, and then even the rename is not stored. Otherwise the role is renamed, its live grants become exactly the requested ids (all held by the caller), and it answers 200. |
| Roles.DeleteRole | routes/roles.py:214-242 | 404 unless found. Otherwise the role and all its live grants are soft-deleted, leaving it no live grant, and it answers 200. |
| Permissions.ModulesFor | routes/permissions.py:29 | The rows pairing a permission with each module of its id. |
| Permissions.PermissionJoin | routes/permissions.py:27-31 | Exactly the linked (permission, module) pairs. |
| Joins.Unjoined | routes/permissions.py:33-40 | One selected (permission, module) row per join row, in order. |
| Joins.UnjoinedMembers | routes/permissions.py:33-40 | A selected row comes from some join row, and every join row yields one. |
| Permissions.ScopedJoin | routes/permissions.py:27-40 | Superusers select every permission with its module. Anyone else selects one row per live grant of their role. |
| Permissions.ListingRows | routes/permissions.py:27-49 | Exactly the scoped, filtered pairs, sorted by (module id, permission id), no pair twice. Its length is the number of distinct pairs. |
| Permissions.ListingVisibility | routes/permissions.py:27-46 | A row is listed iff the permission and module are live and linked, the filters match, and the caller is a superuser or the caller's role has a live grant of it. |
| Permissions.ByModuleName | routes/permissions.py:53-66 | Each row is keyed by module name, headed by module id, and carries id, name and is_active. |
| Permissions.HeadersAscend | routes/permissions.py:49-69 | Groups come in ascending module id. |
| Permissions.GetPermissions | routes/permissions.py:17-71 | The answer is the grouping of the listed rows. It has one group per module name in first-appearance order and module ids ascending. The item count is the number of distinct visible (permission, module) pairs, so a permission granted twice is listed once. |
| Permissions.FindPermission | routes/permissions.py:81-87 | Found iff a non-deleted permission has the id. |
| Permissions.ModuleName | routes/permissions.py:93 | The module's name iff a module with that id exists. |
| Permissions.Detail | routes/permissions.py:88-95 | Copies the permission's columns and its module name. |
| Permissions.GetPermission | routes/permissions.py:74-97 | 404 "Permission not found" iff there is no live permission with the id. Otherwise 200 "Success" with the detail of the live permission that has the id. |
| Permissions.NameIssues | routes/permissions.py:100-101 | The name is valid iff it has 5..100 characters. |
| Permissions.CreatePermission | routes/permissions.py:104-138 | Validation, then 403 for non-superusers, then 400 for a live duplicate name. Otherwise the constructor's TypeError gives 500. |
| Permissions.CreatePermissionNeverSucceeds | routes/permissions.py:124-127 | As written, no input yields a 201 envelope or any permission data. |
| Permissions.UpdatePermission | routes/permissions.py:145-191 | Validation, then 403, 404 and 400 in order. A name held by a deleted row violates the unique column and gives 500. Otherwise only the name and updated_at change, and it answers 200. |
| Permissions.DeletePermission | routes/permissions.py:194-213 | 403 for non-superusers. 404 unless there is a live permission with the id. Otherwise exactly that row is soft-deleted. |
| Permissions.DeletedPermissionUnlisted | routes/permissions.py:30 | After deletion the permission appears in no listing, whoever asks. |

## Left out

- JWT signing and bcrypt are oracles (`Codec`, `checkPassword`, `newHash`). Key management, algorithms and the hash format are not modelled. A stored password that bcrypt cannot parse is not modelled either.
- SQLAlchemy sessions, `flush`, `commit` and `rollback` are left out. Each route is all-or-nothing, and a refused route stores nothing.
- The `except` branches in `routes/roles.py` that roll back and answer 500 are not modelled. No insert in those branches can fail under the key invariant.
- `ilike` is the parameter `contains`. Case folding and `%` patterns are not modelled.
- `get_active` is not part of this model. It is taken to be the `is_deleted == False` filter.
- Tie order among rows with equal (module id, permission id) is not observable. The model uses a stable sort.
- `Query.all()` uniques rows of mapped entities by object identity. The model uniques by value, which is the same under the unique primary keys of `Tables.Db.Valid`. Column queries such as the one in `get_role_permissions` are not uniqued, in the model as in the source.
- `schemas/role.py` is not part of this model. `RoleCreate` and `RoleUpdate` are taken as a name plus an optional list of ids, without validation. The `RoleGet` re-validation is treated as the identity.
- Roles.GetRoles: a page below 1 or a negative limit is answered with 500. This assumes the database refuses a negative OFFSET or LIMIT, as PostgreSQL and MySQL do. A limit of 0 divides by zero at routes/roles.py:50.
- Roles.GetRoles: rows are listed in table order. Without ORDER BY, the database's order is unspecified.
- Ledger: a `user_id` claim that is a string matches no ledger row. Inserting such a claim into the integer column is taken to fail with 500.
- Permissions.CreatePermission: the route, as written, never stores a permission. No corrected version is modelled. Dropping the bad `department_id` keyword still leaves no `module_id` for a non-nullable column, so the intended insert cannot be inferred.
- The duplicate ORM declarations (`models/*.py`, `src/*/models.py`) are covered by the one `Tables` module and the one `soft_delete`. The second copy of the guard in `src/auth/dependencies.py` is the same `Guard` functions.
- The plain CRUD routes for users and departments are not modelled.
- Concurrency between requests is not modelled: each route runs alone on the session.
- The `created_at` defaults evaluated once at import time in `models/permission.py` are not modelled. Timestamps are the `now` parameter.

## Findings

| source | as written | input that shows it | evidently intended | confidence | as-written member | corrected member |
|---|---|---|---|---|---|---|
| routes/auth.py:36-40 | `create_access_token` and `create_refresh_token` are called without their required `jti` argument, so every valid login raises TypeError | any registered, active user with the right password | both tokens issued under one fresh jti, with the refresh token recorded in the ledger | high (not executed) | Session.LoginAsWrittenNeverSucceeds | Session.LoginGrantsAccess |
| routes/auth.py:101-103 | `create_access_token` is called without `jti` when refreshing, so a valid refresh token always yields 500 | the refresh token of any live session | a new access token carrying the refresh token's jti | high (not executed) | Session.RefreshAsWrittenNeverSucceeds | Session.RefreshKeepsJti |
