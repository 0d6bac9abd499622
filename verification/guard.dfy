/**
 * The request guard and the permission gate: `get_current_user`,
 * `has_role_permission` and `get_api_key`.  Each only reads the tables and
 * either returns or raises.
 */
module Guard {
  import opened Wrappers
  import opened Claims
  import opened Tables
  import opened ExceptionHandler
  import opened Query
  import opened Ledger

  /** `User.id == user_id`; only an integer claim can equal an integer id. */
  predicate HasId(u: User, userId: Value)
  {
    userId == Int(u.id)
  }

  /**
   * `get_current_user`: decode the access token; reject a falsy `user_id`;
   * then reject a user that is missing, soft-deleted or inactive.
   */
  function GetCurrentUser(tokens: seq<UserToken>, users: seq<User>, d: Decoded): (r: Result<User, Raised>)
    ensures DecodeAccessToken(tokens, d).Failure? ==> r == Failure(DecodeAccessToken(tokens, d).error)
    ensures DecodeAccessToken(tokens, d).Success? && Falsy(Get(d.claims, "user_id")) ==>
      r == Failure(JwtError(401, "Invalid token"))
    ensures r.Success? <==>
      && DecodeAccessToken(tokens, d).Success?
      && !Falsy(Get(d.claims, "user_id"))
      && First(users, u => HasId(u, Get(d.claims, "user_id"))).Some?
      && users[First(users, u => HasId(u, Get(d.claims, "user_id"))).value].base.isActive
      && !users[First(users, u => HasId(u, Get(d.claims, "user_id"))).value].base.isDeleted
    ensures r.Success? ==>
      && r.value in users && HasId(r.value, Get(d.claims, "user_id"))
      && r.value.base.isActive && !r.value.base.isDeleted
    ensures r.Failure? && DecodeAccessToken(tokens, d).Success? && !Falsy(Get(d.claims, "user_id")) ==>
      r.error == JwtError(401, "Invalid user")
  {
    var payload :- DecodeAccessToken(tokens, d);
    var userId := Get(payload, "user_id");
    if Falsy(userId) then Failure(JwtError(401, "Invalid token"))
    else match First(users, u => HasId(u, userId))
      case None => Failure(JwtError(401, "Invalid user"))
      case Some(i) =>
        if users[i].base.isDeleted || !users[i].base.isActive then Failure(JwtError(401, "Invalid user"))
        else Success(users[i])
  }

  /** With unique user ids, the current user is the one row with the token's id, and it is live. */
  lemma CurrentUserIsTheStoredRow(tokens: seq<UserToken>, users: seq<User>, d: Decoded, k: nat)
    requires UniqueUserIds(users)
    requires d.Decoded? && k < |users| && HasId(users[k], Get(d.claims, "user_id"))
    requires GetCurrentUser(tokens, users, d).Success?
    ensures GetCurrentUser(tokens, users, d).value == users[k]
  {
    var u := GetCurrentUser(tokens, users, d).value;
    var j :| 0 <= j < |users| && users[j] == u;
    assert users[j].id == users[k].id;
  }

  /** A user row that is soft-deleted or deactivated is refused even with a live token. */
  lemma DeactivatedUserRejected(tokens: seq<UserToken>, users: seq<User>, d: Decoded, k: nat)
    requires UniqueUserIds(users)
    requires d.Decoded? && k < |users| && HasId(users[k], Get(d.claims, "user_id"))
    requires users[k].base.isDeleted || !users[k].base.isActive
    ensures GetCurrentUser(tokens, users, d).Failure?
  {
    if GetCurrentUser(tokens, users, d).Success? {
      CurrentUserIsTheStoredRow(tokens, users, d, k);
    }
  }

  /** The names of the permissions with this id, in table order. */
  function PermissionNames(permissions: seq<Permission>, id: int): (names: seq<string>)
    ensures forall name :: name in names <==>
      exists j :: 0 <= j < |permissions| && permissions[j].id == id && permissions[j].name == name
  {
    if permissions == [] then []
    else
      var rest := PermissionNames(permissions[1..], id);
      assert forall j :: 1 <= j < |permissions| ==> permissions[j] == permissions[1..][j - 1];
      (if permissions[0].id == id then [permissions[0].name] else []) + rest
  }

  /** The role's live grant names, one entry per (grant, permission) join row. */
  function GrantedNames(grants: seq<RolePermission>, permissions: seq<Permission>, roleId: Option<int>): seq<string>
  {
    if grants == [] then []
    else
      var g := grants[0];
      (if Some(g.roleId) == roleId && !g.base.isDeleted then PermissionNames(permissions, g.permissionId) else [])
        + GrantedNames(grants[1..], permissions, roleId)
  }

  /**
   * A role holds a permission name when one of its non-deleted grants points at
   * a permission of that name.  The permission's own deletion flag plays no part.
   */
  ghost predicate Grants(grants: seq<RolePermission>, permissions: seq<Permission>, roleId: Option<int>, name: string)
  {
    exists i, j ::
      && 0 <= i < |grants| && 0 <= j < |permissions|
      && Some(grants[i].roleId) == roleId && !grants[i].base.isDeleted
      && permissions[j].id == grants[i].permissionId && permissions[j].name == name
  }

  /** The joined query returns exactly the names the role holds. */
  lemma {:induction false} GrantedNamesExact(grants: seq<RolePermission>, permissions: seq<Permission>, roleId: Option<int>, name: string)
    ensures name in GrantedNames(grants, permissions, roleId) <==> Grants(grants, permissions, roleId, name)
  {
    if grants != [] {
      var g := grants[0];
      GrantedNamesExact(grants[1..], permissions, roleId, name);
      if Grants(grants[1..], permissions, roleId, name) {
        var i, j :| 0 <= i < |grants[1..]| && 0 <= j < |permissions|
          && Some(grants[1..][i].roleId) == roleId && !grants[1..][i].base.isDeleted
          && permissions[j].id == grants[1..][i].permissionId && permissions[j].name == name;
        assert grants[i + 1] == grants[1..][i];
      }
      if Grants(grants, permissions, roleId, name) {
        var i, j :| 0 <= i < |grants| && 0 <= j < |permissions|
          && Some(grants[i].roleId) == roleId && !grants[i].base.isDeleted
          && permissions[j].id == grants[i].permissionId && permissions[j].name == name;
        if i > 0 {
          assert grants[1..][i - 1] == grants[i];
        }
      }
    }
  }

  /**
   * `has_role_permission`: a superuser passes; anyone else passes when at least
   * one required name is among the role's live grant names.
   */
  function HasRolePermission(user: User, grants: seq<RolePermission>, permissions: seq<Permission>, required: seq<string>)
    : (r: Result<(), Raised>)
    ensures user.isSuperuser ==> r.Success?
    ensures !user.isSuperuser ==>
      (r.Success? <==> exists k :: 0 <= k < |required| && Grants(grants, permissions, user.roleId, required[k]))
    ensures r.Failure? ==> r.error == Unauthorized(403, "Permission denied")
  {
    if user.isSuperuser then Success(())
    else
      var names := GrantedNames(grants, permissions, user.roleId);
      assert forall k :: 0 <= k < |required| ==>
        (required[k] in names <==> Grants(grants, permissions, user.roleId, required[k])) by {
        forall k | 0 <= k < |required| {
          GrantedNamesExact(grants, permissions, user.roleId, required[k]);
        }
      }
      if exists k | 0 <= k < |required| :: required[k] in names then Success(())
      else Failure(Unauthorized(403, "Permission denied"))
  }

  /** An empty list of required names denies everyone but superusers. */
  lemma EmptyRequirementDenies(user: User, grants: seq<RolePermission>, permissions: seq<Permission>)
    requires !user.isSuperuser
    ensures HasRolePermission(user, grants, permissions, []) == Failure(Unauthorized(403, "Permission denied"))
  {
  }

  /** Requiring more alternatives never turns a pass into a denial (any-of semantics). */
  lemma MoreAlternativesStillPass(user: User, grants: seq<RolePermission>, permissions: seq<Permission>,
                                  required: seq<string>, more: seq<string>)
    requires HasRolePermission(user, grants, permissions, required).Success?
    ensures HasRolePermission(user, grants, permissions, required + more).Success?
    ensures HasRolePermission(user, grants, permissions, more + required).Success?
  {
    if !user.isSuperuser {
      var k :| 0 <= k < |required| && Grants(grants, permissions, user.roleId, required[k]);
      assert (required + more)[k] == required[k];
      assert (more + required)[|more| + k] == required[k];
    }
  }

  /** Soft-deleting a permission row does not change who passes the gate. */
  lemma PermissionDeletionIgnored(user: User, grants: seq<RolePermission>, permissions: seq<Permission>,
                                  required: seq<string>, j: nat, now: int)
    requires j < |permissions|
    ensures var deleted := permissions[j := permissions[j].(base := AbstractBase.SoftDeleted(permissions[j].base, now))];
      HasRolePermission(user, grants, deleted, required) == HasRolePermission(user, grants, permissions, required)
  {
    var deleted := permissions[j := permissions[j].(base := AbstractBase.SoftDeleted(permissions[j].base, now))];
    forall name | Grants(grants, deleted, user.roleId, name)
      ensures Grants(grants, permissions, user.roleId, name)
    {
      var a, b :| 0 <= a < |grants| && 0 <= b < |deleted|
        && Some(grants[a].roleId) == user.roleId && !grants[a].base.isDeleted
        && deleted[b].id == grants[a].permissionId && deleted[b].name == name;
      assert permissions[b].id == deleted[b].id && permissions[b].name == deleted[b].name;
    }
    forall name | Grants(grants, permissions, user.roleId, name)
      ensures Grants(grants, deleted, user.roleId, name)
    {
      var a, b :| 0 <= a < |grants| && 0 <= b < |permissions|
        && Some(grants[a].roleId) == user.roleId && !grants[a].base.isDeleted
        && permissions[b].id == grants[a].permissionId && permissions[b].name == name;
      assert permissions[b].id == deleted[b].id && permissions[b].name == deleted[b].name;
    }
  }

  /** `has_role_permission` runs after `get_current_user`: the dependency chain of a guarded route. */
  function Authorize(tokens: seq<UserToken>, users: seq<User>, grants: seq<RolePermission>,
                     permissions: seq<Permission>, d: Decoded, required: seq<string>): (r: Result<User, Raised>)
    ensures r.Success? ==>
      && GetCurrentUser(tokens, users, d) == Success(r.value)
      && (r.value.isSuperuser || exists k :: 0 <= k < |required| && Grants(grants, permissions, r.value.roleId, required[k]))
    ensures GetCurrentUser(tokens, users, d).Failure? ==> r == GetCurrentUser(tokens, users, d)
    ensures r.Failure? && GetCurrentUser(tokens, users, d).Success? ==> r.error == Unauthorized(403, "Permission denied")
  {
    var user :- GetCurrentUser(tokens, users, d);
    var _ :- HasRolePermission(user, grants, permissions, required);
    Success(user)
  }

  /** The prefix the API-key dependency strips. */
  const BearerPrefix: string := "Bearer "

  /** `pat` occurs in `s` at position `i`. */
  predicate OccursAt(s: string, pat: string, i: int)
  {
    0 <= i && i + |pat| <= |s| && s[i..i + |pat|] == pat
  }

  ghost predicate Occurs(s: string, pat: string)
  {
    exists i :: OccursAt(s, pat, i)
  }

  /** `s.replace(pat, "")`: remove every non-overlapping occurrence, scanning left to right. */
  function RemoveAll(s: string, pat: string): (r: string)
    requires |pat| > 0
    ensures |r| <= |s|
    decreases |s|
  {
    if |s| < |pat| then s
    else if s[..|pat|] == pat then RemoveAll(s[|pat|..], pat)
    else [s[0]] + RemoveAll(s[1..], pat)
  }

  /** A string without the pattern is left as it is. */
  lemma {:induction false} RemoveAbsent(s: string, pat: string)
    requires |pat| > 0 && !Occurs(s, pat)
    ensures RemoveAll(s, pat) == s
    decreases |s|
  {
    if |s| >= |pat| {
      assert !OccursAt(s, pat, 0);
      assert s[0..|pat|] == s[..|pat|];
      forall i | 0 <= i && i + |pat| <= |s[1..]|
        ensures !OccursAt(s[1..], pat, i)
      {
        assert !OccursAt(s, pat, i + 1);
        assert s[1..][i..i + |pat|] == s[i + 1..i + 1 + |pat|];
      }
      RemoveAbsent(s[1..], pat);
      assert [s[0]] + s[1..] == s;
    }
  }

  /** Presenting "Bearer <key>" or the bare key yields the key, for keys that do not contain the prefix. */
  lemma BearerRoundTrip(key: string)
    requires !Occurs(key, BearerPrefix)
    ensures RemoveAll(BearerPrefix + key, BearerPrefix) == key
    ensures RemoveAll(key, BearerPrefix) == key
  {
    var s := BearerPrefix + key;
    assert s[..|BearerPrefix|] == BearerPrefix;
    assert s[|BearerPrefix|..] == key;
    RemoveAbsent(key, BearerPrefix);
  }

  predicate UsableKey(k: ApiKey, presented: string)
  {
    k.key == presented && k.base.isActive && !k.base.isDeleted
  }

  /**
   * `get_api_key`: a missing header is refused with 401; otherwise the header
   * with every "Bearer " removed must equal an active, non-deleted key, or the
   * request is refused with 403.
   */
  function GetApiKey(header: Option<string>, keys: seq<ApiKey>): (r: Result<ApiKey, Raised>)
    ensures header.None? ==> r == Failure(ApiKeyError(401, "Authorization header missing"))
    ensures header.Some? ==>
      (r.Success? <==> exists i :: 0 <= i < |keys| && UsableKey(keys[i], RemoveAll(header.value, BearerPrefix)))
    ensures r.Success? ==> r.value in keys && UsableKey(r.value, RemoveAll(header.value, BearerPrefix))
    ensures header.Some? && r.Failure? ==> r == Failure(ApiKeyError(403, "Invalid API Key"))
  {
    match header
    case None => Failure(ApiKeyError(401, "Authorization header missing"))
    case Some(h) =>
      var presented := RemoveAll(h, BearerPrefix);
      match First(keys, k => UsableKey(k, presented))
      case Some(i) => Success(keys[i])
      case None => Failure(ApiKeyError(403, "Invalid API Key"))
  }

  /** Both API-key refusals reach the client as 401, the invalid key included. */
  lemma ApiKeyRefusalsAre401(header: Option<string>, keys: seq<ApiKey>)
    requires GetApiKey(header, keys).Failure?
    ensures Handle<()>(GetApiKey(header, keys).error).http == 401
  {
  }
}
