/**
 * The role routes: a paginated listing, lookup by id, creation, update with
 * replacement of the role's grants, and soft deletion.  `user` is the caller
 * as the guard resolved it (`Guard.Authorize`); the routes that change state
 * change the roles and grants tables of the session and nothing else.
 */
module Roles {
  import opened Wrappers
  import opened AbstractBase
  import opened Tables
  import opened Helper
  import opened ExceptionHandler
  import opened Query
  import opened Services

  // ---------------------------------------------------------------- pagination

  datatype Pagination = Pagination(
    currentPage: int, totalPages: int, totalRecords: nat, recordPerPage: int,
    previousPageUrl: Option<string>, nextPageUrl: Option<string>)

  /** `(total + limit - 1) // limit` */
  function TotalPages(total: nat, limit: int): (pages: nat)
    requires limit >= 1
    ensures total == 0 <==> pages == 0
  {
    (total + limit - 1) / limit
  }

  lemma MulMonotone(a: int, b: int, c: int)
    requires a <= b && c >= 0
    ensures a * c <= b * c
  {
  }

  /** The page count is the ceiling of `total / limit`: the least page count whose pages hold every record. */
  lemma {:induction false} TotalPagesIsCeiling(total: nat, limit: int)
    requires limit >= 1
    ensures total <= TotalPages(total, limit) * limit
    ensures (TotalPages(total, limit) - 1) * limit < total
  {
    var q, r := (total + limit - 1) / limit, (total + limit - 1) % limit;
    assert total + limit - 1 == q * limit + r && 0 <= r < limit;
    assert (q - 1) * limit == q * limit - limit;
  }

  /** The other spelling of the page count, `total // limit + (1 if total % limit else 0)`, agrees. */
  lemma {:induction false} CeilingFormulasAgree(total: nat, limit: int)
    requires limit >= 1
    ensures TotalPages(total, limit) == total / limit + (if total % limit != 0 then 1 else 0)
  {
    var q, r := total / limit, total % limit;
    assert total == q * limit + r && 0 <= r < limit;
    if r == 0 {
      DivUnique(total + limit - 1, limit, q, limit - 1);
    } else {
      assert (q + 1) * limit == q * limit + limit;
      DivUnique(total + limit - 1, limit, q + 1, r - 1);
    }
  }

  lemma DivUnique(n: int, d: int, q: int, r: int)
    requires d >= 1 && 0 <= r < d && n == q * d + r
    ensures n / d == q
  {
    var q', r' := n / d, n % d;
    assert n == q' * d + r' && 0 <= r' < d;
    if q' < q {
      MulMonotone(q' + 1, q, d);
    } else if q < q' {
      MulMonotone(q + 1, q', d);
    }
  }

  /** A next page is offered exactly when the current page is not the last one. */
  lemma {:induction false} NextIffNotLastPage(page: int, limit: int, total: nat)
    requires limit >= 1
    ensures page * limit < total <==> page < TotalPages(total, limit)
  {
    var p: int := TotalPages(total, limit);
    TotalPagesIsCeiling(total, limit);
    if page < p {
      MulMonotone(page, p - 1, limit);
    } else {
      MulMonotone(p, page, limit);
    }
  }

  /** The `Pagination` block of `get_roles`. */
  function PageInfo(path: string, page: int, limit: int, total: nat): (p: Pagination)
    requires page >= 1 && limit >= 1
    ensures p.currentPage == page && p.totalRecords == total && p.recordPerPage == limit
    ensures total <= p.totalPages * limit && (p.totalPages - 1) * limit < total
    ensures p.previousPageUrl.Some? <==> page > 1
    ensures p.nextPageUrl.Some? <==> page < p.totalPages
    ensures p.previousPageUrl.Some? ==>
      p.previousPageUrl.value == path + "?page=" + Decimal(page - 1) + "&limit=" + Decimal(limit)
    ensures p.nextPageUrl.Some? ==>
      p.nextPageUrl.value == path + "?page=" + Decimal(page + 1) + "&limit=" + Decimal(limit)
  {
    TotalPagesIsCeiling(total, limit);
    NextIffNotLastPage(page, limit, total);
    Pagination(
      page, TotalPages(total, limit), total, limit,
      if page > 1 then Some(path + "?page=" + Decimal(page - 1) + "&limit=" + Decimal(limit)) else None,
      if page * limit < total then Some(path + "?page=" + Decimal(page + 1) + "&limit=" + Decimal(limit)) else None)
  }

  // ---------------------------------------------------------------- scoping and lookup

  /** Superusers see every department; anyone else only their own (a missing department matches no role). */
  predicate InScope(r: UserRole, user: User)
  {
    user.isSuperuser || Some(r.departmentId) == user.departmentId
  }

  /** The filter of `get_role`, `update_role` and `delete_role`. */
  predicate Reachable(r: UserRole, roleId: int, user: User)
  {
    r.id == roleId && !r.base.isDeleted && InScope(r, user)
  }

  /** The role a route addresses: missing, deleted and out-of-department roles are not found. */
  function FindRole(roles: seq<UserRole>, roleId: int, user: User): (r: Option<nat>)
    ensures r.Some? ==> r.value < |roles| && roles[r.value].id == roleId && !roles[r.value].base.isDeleted
    ensures r.Some? && !user.isSuperuser ==> user.departmentId == Some(roles[r.value].departmentId)
    ensures r.None? <==> forall i :: 0 <= i < |roles| ==> !Reachable(roles[i], roleId, user)
  {
    First(roles, (x: UserRole) => Reachable(x, roleId, user))
  }

  /** A non-deleted role of department `departmentId` other than `except` already carries `name`. */
  predicate NameTaken(roles: seq<UserRole>, name: string, departmentId: Option<int>, except: Option<int>)
  {
    exists i :: 0 <= i < |roles| && roles[i].name == name && Some(roles[i].departmentId) == departmentId
      && !roles[i].base.isDeleted && (except.None? || roles[i].id != except.value)
  }

  /** The filters of `get_roles`; `contains` is the case-insensitive substring match of `ilike`. */
  predicate Listed(r: UserRole, user: User, name: string, contains: (string, string) -> bool, isActive: Option<bool>)
  {
    && !r.base.isDeleted
    && InScope(r, user)
    && (name == "" || contains(r.name, name))
    && (isActive.None? || r.base.isActive == isActive.value)
  }

  function RoleQuery(roles: seq<UserRole>, user: User, name: string, contains: (string, string) -> bool,
                     isActive: Option<bool>): (q: seq<UserRole>)
    ensures forall r :: r in q <==> r in roles && Listed(r, user, name, contains, isActive)
  {
    Filter(roles, (r: UserRole) => Listed(r, user, name, contains, isActive))
  }

  function RoleIds(roles: seq<UserRole>): (ids: seq<int>)
    ensures |ids| == |roles| && forall i :: 0 <= i < |roles| ==> ids[i] == roles[i].id
  {
    seq(|roles|, i requires 0 <= i < |roles| => roles[i].id)
  }

  /** `format_role(role, permissions_map.get(role.id, []))` for each listed role. */
  function FormatAll(roles: seq<UserRole>, m: map<int, seq<ModuleGroup>>): (r: seq<FormattedRole>)
    ensures |r| == |roles|
    ensures forall i :: 0 <= i < |roles| ==> r[i] == FormatRole(roles[i], GroupsOf(m, roles[i].id))
  {
    seq(|roles|, i requires 0 <= i < |roles| => FormatRole(roles[i], GroupsOf(m, roles[i].id)))
  }

  /** The permissions a route reports for role `rid`, read from the given tables. */
  function PermissionsOf(grants: seq<RolePermission>, permissions: seq<Permission>, modules: seq<Module>,
                         rid: int): seq<ModuleGroup>
  {
    GroupsOf(RoleGroups(RoleGrantRows(grants, permissions, modules, [rid])), rid)
  }

  /** `format_role(role, get_role_permissions(db, [role.id]).get(role.id, []))` */
  method PresentRole(grants: seq<RolePermission>, permissions: seq<Permission>, modules: seq<Module>, role: UserRole)
      returns (r: FormattedRole)
    ensures r == FormatRole(role, PermissionsOf(grants, permissions, modules, role.id))
  {
    var permissionsMap := GetRolePermissions(grants, permissions, modules, [role.id]);
    r := FormatRole(role, GroupsOf(permissionsMap, role.id));
  }

  // ---------------------------------------------------------------- grants of a role

  /** The permission ids on the grant rows of `roleId`, deleted grants included. */
  function HeldIds(grants: seq<RolePermission>, roleId: Option<int>): (held: set<int>)
    ensures forall x :: x in held <==> exists i :: 0 <= i < |grants| && Some(grants[i].roleId) == roleId && grants[i].permissionId == x
  {
    set i | 0 <= i < |grants| && Some(grants[i].roleId) == roleId :: grants[i].permissionId
  }

  /** `set(permission_ids).issubset(held)` */
  predicate Within(ids: seq<int>, held: set<int>)
  {
    forall k :: 0 <= k < |ids| ==> ids[k] in held
  }

  /** `permission_ids` as a list, an absent one being empty. */
  function Requested(permissionIds: Option<seq<int>>): seq<int>
  {
    if permissionIds.Some? then permissionIds.value else []
  }

  /** The permission ids of the live (not deleted) grants of role `rid`, in table order. */
  function LiveGrantIds(grants: seq<RolePermission>, rid: int): seq<int>
  {
    if grants == [] then []
    else
      var g := grants[|grants| - 1];
      LiveGrantIds(grants[..|grants| - 1], rid) + (if g.roleId == rid && !g.base.isDeleted then [g.permissionId] else [])
  }

  /** One new grant row per listed id, duplicates included. */
  function NewGrants(rid: int, ids: seq<int>, now: int): (r: seq<RolePermission>)
    ensures |r| == |ids|
    ensures forall k :: 0 <= k < |ids| ==> r[k].roleId == rid && r[k].permissionId == ids[k] && r[k].base == NewBase(now)
  {
    seq(|ids|, k requires 0 <= k < |ids| => RolePermission(rid, ids[k], NewBase(now)))
  }

  /** The bulk update that soft-deletes every live grant of role `rid`. */
  function RetireGrants(grants: seq<RolePermission>, rid: int, now: int): (r: seq<RolePermission>)
    ensures |r| == |grants|
    ensures forall i :: 0 <= i < |grants| && grants[i].roleId == rid && !grants[i].base.isDeleted ==>
      r[i] == grants[i].(base := SoftDeleted(grants[i].base, now))
    ensures forall i :: 0 <= i < |grants| && (grants[i].roleId != rid || grants[i].base.isDeleted) ==> r[i] == grants[i]
  {
    seq(|grants|, i requires 0 <= i < |grants| =>
      if grants[i].roleId == rid && !grants[i].base.isDeleted then grants[i].(base := SoftDeleted(grants[i].base, now))
      else grants[i])
  }

  lemma {:induction false} LiveGrantIdsAppend(a: seq<RolePermission>, b: seq<RolePermission>, rid: int)
    ensures LiveGrantIds(a + b, rid) == LiveGrantIds(a, rid) + LiveGrantIds(b, rid)
  {
    if b != [] {
      assert (a + b)[..|a + b| - 1] == a + b[..|b| - 1];
      LiveGrantIdsAppend(a, b[..|b| - 1], rid);
    } else {
      assert a + b == a;
    }
  }

  /** Retiring the grants of `rid` leaves it no live grant and leaves every other role's live grants as they were. */
  lemma {:induction false} RetireGrantsEffect(grants: seq<RolePermission>, rid: int, now: int, other: int)
    ensures LiveGrantIds(RetireGrants(grants, rid, now), rid) == []
    ensures other != rid ==> LiveGrantIds(RetireGrants(grants, rid, now), other) == LiveGrantIds(grants, other)
  {
    if grants != [] {
      var p := grants[..|grants| - 1];
      var r := RetireGrants(grants, rid, now);
      assert r[..|r| - 1] == RetireGrants(p, rid, now);
      RetireGrantsEffect(p, rid, now, other);
    }
  }

  /** The new rows of `rid` are all live, one per listed id, and belong to no other role. */
  lemma {:induction false} NewGrantsLive(rid: int, ids: seq<int>, now: int, other: int)
    ensures LiveGrantIds(NewGrants(rid, ids, now), rid) == ids
    ensures other != rid ==> LiveGrantIds(NewGrants(rid, ids, now), other) == []
  {
    if ids != [] {
      var p := ids[..|ids| - 1];
      assert NewGrants(rid, ids, now)[..|ids| - 1] == NewGrants(rid, p, now);
      NewGrantsLive(rid, p, now, other);
    }
  }

  /** No live grant of a role whose id is missing from the roles table. */
  lemma {:induction false} LiveGrantIdsOfUnknownRole(grants: seq<RolePermission>, roles: seq<UserRole>, rid: int)
    requires GrantsHaveRoles(grants, roles)
    requires forall j :: 0 <= j < |roles| ==> roles[j].id != rid
    ensures LiveGrantIds(grants, rid) == []
  {
    if grants != [] {
      var p := grants[..|grants| - 1];
      forall i | 0 <= i < |p| ensures HasRole(roles, p[i].roleId) {
        assert p[i] == grants[i];
      }
      LiveGrantIdsOfUnknownRole(p, roles, rid);
      assert HasRole(roles, grants[|grants| - 1].roleId);
      var j :| 0 <= j < |roles| && roles[j].id == grants[|grants| - 1].roleId;
    }
  }

  /**
   * Grant replacement: afterwards the live grants of `rid` are exactly one per
   * listed id, in order, and every other role keeps the live grants it had.
   */
  lemma ReplacementExact(grants: seq<RolePermission>, rid: int, ids: seq<int>, now: int, other: int)
    ensures LiveGrantIds(RetireGrants(grants, rid, now) + NewGrants(rid, ids, now), rid) == ids
    ensures other != rid ==>
      LiveGrantIds(RetireGrants(grants, rid, now) + NewGrants(rid, ids, now), other) == LiveGrantIds(grants, other)
  {
    LiveGrantIdsAppend(RetireGrants(grants, rid, now), NewGrants(rid, ids, now), rid);
    LiveGrantIdsAppend(RetireGrants(grants, rid, now), NewGrants(rid, ids, now), other);
    RetireGrantsEffect(grants, rid, now, other);
    NewGrantsLive(rid, ids, now, other);
  }

  /** An id held through some grant row names an existing permission. */
  lemma HeldIdHasPermission(grants: seq<RolePermission>, permissions: seq<Permission>, roleId: Option<int>, x: int)
    requires GrantsHavePermissions(grants, permissions)
    requires x in HeldIds(grants, roleId)
    ensures HasPermission(permissions, x)
  {
    var i :| 0 <= i < |grants| && Some(grants[i].roleId) == roleId && grants[i].permissionId == x;
    assert HasPermission(permissions, grants[i].permissionId);
  }

  /** New grants whose ids the editor holds keep every grant's permission in the permissions table. */
  lemma HeldGrantsHavePermissions(grants: seq<RolePermission>, permissions: seq<Permission>, roleId: Option<int>,
                                   rid: int, ids: seq<int>, now: int)
    requires GrantsHavePermissions(grants, permissions)
    requires Within(ids, HeldIds(grants, roleId))
    ensures GrantsHavePermissions(NewGrants(rid, ids, now), permissions)
  {
    var n := NewGrants(rid, ids, now);
    forall k | 0 <= k < |n| ensures HasPermission(permissions, n[k].permissionId) {
      assert n[k].permissionId == ids[k];
      HeldIdHasPermission(grants, permissions, roleId, ids[k]);
    }
  }

  /** Appending a role and grants of that role keeps both foreign keys and unique role ids. */
  lemma AddRoleKeepsKeys(roles: seq<UserRole>, grants: seq<RolePermission>, permissions: seq<Permission>,
                         role: UserRole, added: seq<RolePermission>)
    requires UniqueRoleIds(roles) && GrantsHaveRoles(grants, roles) && GrantsHavePermissions(grants, permissions)
    requires forall j :: 0 <= j < |roles| ==> roles[j].id != role.id
    requires forall k :: 0 <= k < |added| ==> added[k].roleId == role.id
    requires GrantsHavePermissions(added, permissions)
    ensures UniqueRoleIds(roles + [role])
    ensures GrantsHaveRoles(grants + added, roles + [role])
    ensures GrantsHavePermissions(grants + added, permissions)
  {
    var rs, gs := roles + [role], grants + added;
    forall i | 0 <= i < |gs| ensures HasRole(rs, gs[i].roleId) && HasPermission(permissions, gs[i].permissionId) {
      if i < |grants| {
        assert gs[i] == grants[i] && HasRole(roles, grants[i].roleId);
        var j :| 0 <= j < |roles| && roles[j].id == grants[i].roleId;
        assert rs[j] == roles[j];
      } else {
        assert gs[i] == added[i - |grants|];
        assert rs[|roles|] == role;
      }
    }
  }

  // ---------------------------------------------------------------- routes

  datatype RoleList = RoleList(pagination: Pagination, roles: seq<FormattedRole>)

  /**
   * `get_roles`.  A `limit` of 0 divides by zero when the page count is
   * computed; a page below 1 or a negative limit is refused by the database.
   */
  method GetRoles(db: Db, user: User, path: string, page: int, limit: int, name: string,
                  contains: (string, string) -> bool, isActive: Option<bool>) returns (resp: Response<RoleList>)
    ensures page < 1 || limit < 1 ==> resp == Handle(Unexpected)
    ensures page >= 1 && limit >= 1 ==>
      var query := RoleQuery(db.roles, user, name, contains, isActive);
      var rows := PaginateQuery(query, page, limit).0;
      resp == Returned(SuccessResponse(200, "success", Payload(RoleList(
        PageInfo(path, page, limit, |query|),
        FormatAll(rows, RoleGroups(RoleGrantRows(db.grants, db.permissions, db.modules, RoleIds(rows))))))))
  {
    if page < 1 || limit < 1 {
      return Handle(Unexpected);
    }
    var query := RoleQuery(db.roles, user, name, contains, isActive);
    var (rows, total) := PaginateQuery(query, page, limit);
    var permissionsMap := GetRolePermissions(db.grants, db.permissions, db.modules, RoleIds(rows));
    var formatted := FormatAll(rows, permissionsMap);
    resp := Returned(SuccessResponse(200, "success", Payload(RoleList(PageInfo(path, page, limit, total), formatted))));
  }

  /** Every role on a page passes the listing filters, and a page holds at most `limit` roles. */
  lemma ListedPage(roles: seq<UserRole>, user: User, name: string, contains: (string, string) -> bool,
                   isActive: Option<bool>, page: int, limit: int)
    requires page >= 1 && limit >= 1
    ensures var rows := PaginateQuery(RoleQuery(roles, user, name, contains, isActive), page, limit).0;
      && |rows| <= limit
      && forall i :: 0 <= i < |rows| ==>
           && rows[i] in roles && !rows[i].base.isDeleted && InScope(rows[i], user)
           && (name == "" || contains(rows[i].name, name))
           && (isActive.Some? ==> rows[i].base.isActive == isActive.value)
  {
    var query := RoleQuery(roles, user, name, contains, isActive);
    var rows := PaginateQuery(query, page, limit).0;
    forall i | 0 <= i < |rows|
      ensures rows[i] in roles && Listed(rows[i], user, name, contains, isActive)
    {
      assert rows[i] == query[Offset(page, limit) + i];
    }
  }

  /** `get_role` */
  method GetRole(db: Db, user: User, roleId: int) returns (resp: Response<FormattedRole>)
    ensures FindRole(db.roles, roleId, user).None? ==> resp == Returned(ErrorResponse(404, "Role not found"))
    ensures FindRole(db.roles, roleId, user).Some? ==>
      var role := db.roles[FindRole(db.roles, roleId, user).value];
      resp == Returned(SuccessResponse(200, "Success", Payload(
        FormatRole(role, PermissionsOf(db.grants, db.permissions, db.modules, roleId)))))
  {
    var k := FindRole(db.roles, roleId, user);
    if k.None? {
      return Returned(ErrorResponse(404, "Role not found"));
    }
    var formatted := PresentRole(db.grants, db.permissions, db.modules, db.roles[k.value]);
    resp := Returned(SuccessResponse(200, "Success", Payload(formatted)));
  }

  /** `db.add(new_role)` and `db.bulk_save_objects(new_permissions)`, committed together. */
  method StoreRole(db: Db, role: UserRole, added: seq<RolePermission>)
    requires db.Valid()
    requires forall j :: 0 <= j < |db.roles| ==> db.roles[j].id != role.id
    requires forall k :: 0 <= k < |added| ==> added[k].roleId == role.id
    requires GrantsHavePermissions(added, db.permissions)
    modifies db`roles, db`grants
    ensures db.Valid()
    ensures db.roles == old(db.roles) + [role] && db.grants == old(db.grants) + added
  {
    AddRoleKeepsKeys(db.roles, db.grants, db.permissions, role, added);
    db.roles := db.roles + [role];
    db.grants := db.grants + added;
  }

  /**
   * `create_role`.  `newId` is the id the database assigns.  A caller without
   * a department cannot own a role (the column is not nullable), so the insert
   * fails.  The 403 answer returns before the commit, so nothing is stored.
   */
  method CreateRole(db: Db, user: User, name: string, permissionIds: Option<seq<int>>, newId: int, now: int)
      returns (resp: Response<FormattedRole>)
    requires db.Valid()
    requires forall j :: 0 <= j < |db.roles| ==> db.roles[j].id != newId
    modifies db`roles, db`grants
    ensures db.Valid()
    ensures NameTaken(old(db.roles), name, user.departmentId, None) ==>
      resp == Returned(ErrorResponse(400, "UserRole exists with this name"))
      && db.roles == old(db.roles) && db.grants == old(db.grants)
    ensures !NameTaken(old(db.roles), name, user.departmentId, None) && user.departmentId.None? ==>
      resp == Handle(Unexpected) && db.roles == old(db.roles) && db.grants == old(db.grants)
    ensures !NameTaken(old(db.roles), name, user.departmentId, None) && user.departmentId.Some? ==>
      var ids := Requested(permissionIds);
      if !Within(ids, HeldIds(old(db.grants), user.roleId)) then
        resp == Returned(ErrorResponse(403, "Permission denied"))
        && db.roles == old(db.roles) && db.grants == old(db.grants)
      else
        var role := UserRole(newId, name, true, user.departmentId.value, NewBase(now));
        && db.roles == old(db.roles) + [role]
        && db.grants == old(db.grants) + NewGrants(newId, ids, now)
        && LiveGrantIds(db.grants, newId) == ids
        && resp == Returned(SuccessResponse(201, "Role created successfully", Payload(
             FormatRole(role, PermissionsOf(db.grants, db.permissions, db.modules, newId)))))
  {
    if NameTaken(db.roles, name, user.departmentId, None) {
      return Returned(ErrorResponse(400, "UserRole exists with this name"));
    }
    if user.departmentId.None? {
      return Handle(Unexpected);
    }
    var ids := Requested(permissionIds);
    var held := HeldIds(db.grants, user.roleId);
    if ids != [] && !Within(ids, held) {
      return Returned(ErrorResponse(403, "Permission denied"));
    }
    var role := UserRole(newId, name, true, user.departmentId.value, NewBase(now));
    var added := NewGrants(newId, ids, now);
    HeldGrantsHavePermissions(db.grants, db.permissions, user.roleId, newId, ids, now);
    LiveGrantIdsOfUnknownRole(db.grants, db.roles, newId);
    LiveGrantIdsAppend(db.grants, added, newId);
    NewGrantsLive(newId, ids, now, newId);
    StoreRole(db, role, added);
    var formatted := PresentRole(db.grants, db.permissions, db.modules, role);
    resp := Returned(SuccessResponse(201, "Role created successfully", Payload(formatted)));
  }

  /** `db_role.name = data.name; db_role.updated_at = now` */
  function Renamed(r: UserRole, name: string, now: int): (s: UserRole)
    ensures s.id == r.id && s.name == name && s.departmentId == r.departmentId && s.editable == r.editable
    ensures s.base == r.base.(updatedAt := now)
  {
    r.(name := name, base := r.base.(updatedAt := now))
  }

  /** Renaming role `k` and replacing its grants with held ones keeps every key constraint. */
  lemma ReplaceRoleKeepsKeys(roles: seq<UserRole>, grants: seq<RolePermission>, permissions: seq<Permission>,
                             k: nat, role: UserRole, heldBy: Option<int>, ids: seq<int>, now: int)
    requires UniqueRoleIds(roles) && GrantsHaveRoles(grants, roles) && GrantsHavePermissions(grants, permissions)
    requires k < |roles| && role.id == roles[k].id
    requires Within(ids, HeldIds(grants, heldBy))
    ensures UniqueRoleIds(roles[k := role])
    ensures var gs := RetireGrants(grants, role.id, now) + NewGrants(role.id, ids, now);
      GrantsHaveRoles(gs, roles[k := role]) && GrantsHavePermissions(gs, permissions)
  {
    var rs := roles[k := role];
    var retired, added := RetireGrants(grants, role.id, now), NewGrants(role.id, ids, now);
    var gs := retired + added;
    HeldGrantsHavePermissions(grants, permissions, heldBy, role.id, ids, now);
    forall i | 0 <= i < |gs| ensures HasRole(rs, gs[i].roleId) && HasPermission(permissions, gs[i].permissionId) {
      if i < |grants| {
        assert gs[i].roleId == grants[i].roleId && gs[i].permissionId == grants[i].permissionId;
        assert HasRole(roles, grants[i].roleId) && HasPermission(permissions, grants[i].permissionId);
        var j :| 0 <= j < |roles| && roles[j].id == grants[i].roleId;
        assert rs[j].id == roles[j].id;
      } else {
        assert gs[i] == added[i - |grants|];
        assert rs[k].id == role.id;
      }
    }
    forall i, j | 0 <= i < j < |rs| ensures rs[i].id != rs[j].id {
      assert rs[i].id == roles[i].id && rs[j].id == roles[j].id;
    }
  }

  /** `db_role.name = ...` and the grant replacement, committed together. */
  method ReplaceRole(db: Db, k: nat, role: UserRole, grants: seq<RolePermission>, heldBy: Option<int>, ids: seq<int>, now: int)
    requires db.Valid()
    requires k < |db.roles| && role.id == db.roles[k].id
    requires Within(ids, HeldIds(db.grants, heldBy))
    requires grants == RetireGrants(db.grants, role.id, now) + NewGrants(role.id, ids, now)
    modifies db`roles, db`grants
    ensures db.Valid()
    ensures db.roles == old(db.roles)[k := role] && db.grants == grants
  {
    ReplaceRoleKeepsKeys(db.roles, db.grants, db.permissions, k, role, heldBy, ids, now);
    db.roles := db.roles[k := role];
    db.grants := grants;
  }

  /**
   * `update_role`.  The rename happens before the subset check, but the 403
   * answer returns before the commit, so a refused update stores nothing.
   */
  method UpdateRole(db: Db, user: User, roleId: int, name: string, permissionIds: Option<seq<int>>, now: int)
      returns (resp: Response<FormattedRole>)
    requires db.Valid()
    modifies db`roles, db`grants
    ensures db.Valid()
    ensures FindRole(old(db.roles), roleId, user).None? ==>
      resp == Returned(ErrorResponse(404, "Role not found")) && db.roles == old(db.roles) && db.grants == old(db.grants)
    ensures FindRole(old(db.roles), roleId, user).Some? && NameTaken(old(db.roles), name, user.departmentId, Some(roleId)) ==>
      resp == Returned(ErrorResponse(400, "Role exists with this name"))
      && db.roles == old(db.roles) && db.grants == old(db.grants)
    ensures FindRole(old(db.roles), roleId, user).Some? && !NameTaken(old(db.roles), name, user.departmentId, Some(roleId)) ==>
      var k := FindRole(old(db.roles), roleId, user).value;
      var ids := Requested(permissionIds);
      if !Within(ids, HeldIds(old(db.grants), user.roleId)) then
        resp == Returned(ErrorResponse(403, "Permission denied"))
        && db.roles == old(db.roles) && db.grants == old(db.grants)
      else
        && db.roles == old(db.roles)[k := Renamed(old(db.roles)[k], name, now)]
        && db.grants == RetireGrants(old(db.grants), roleId, now) + NewGrants(roleId, ids, now)
        && LiveGrantIds(db.grants, roleId) == ids
        && (forall x :: x in LiveGrantIds(db.grants, roleId) ==> x in HeldIds(old(db.grants), user.roleId))
        && resp == Returned(SuccessResponse(200, "Role updated successfully", Payload(
             FormatRole(db.roles[k], PermissionsOf(db.grants, db.permissions, db.modules, roleId)))))
  {
    var found := FindRole(db.roles, roleId, user);
    if found.None? {
      return Returned(ErrorResponse(404, "Role not found"));
    }
    var k := found.value;
    if NameTaken(db.roles, name, user.departmentId, Some(roleId)) {
      return Returned(ErrorResponse(400, "Role exists with this name"));
    }
    var ids := Requested(permissionIds);
    if ids != [] && !Within(ids, HeldIds(db.grants, user.roleId)) {
      return Returned(ErrorResponse(403, "Permission denied"));
    }
    var before := db.grants;
    ReplacementExact(before, roleId, ids, now, roleId);
    ReplaceRole(db, k, Renamed(db.roles[k], name, now), RetireGrants(before, roleId, now) + NewGrants(roleId, ids, now),
                user.roleId, ids, now);
    var formatted := PresentRole(db.grants, db.permissions, db.modules, db.roles[k]);
    resp := Returned(SuccessResponse(200, "Role updated successfully", Payload(formatted)));
  }

  /** `delete_role`: the role and its live grants are soft-deleted together. */
  method DeleteRole(db: Db, user: User, roleId: int, now: int) returns (resp: Response<()>)
    requires db.Valid()
    modifies db`roles, db`grants
    ensures db.Valid()
    ensures FindRole(old(db.roles), roleId, user).None? ==>
      resp == Returned(ErrorResponse(404, "Role not found")) && db.roles == old(db.roles) && db.grants == old(db.grants)
    ensures FindRole(old(db.roles), roleId, user).Some? ==>
      var k := FindRole(old(db.roles), roleId, user).value;
      && resp == Returned(SuccessResponse(200, "Role deleted successfully"))
      && db.roles == old(db.roles)[k := old(db.roles)[k].(base := SoftDeleted(old(db.roles)[k].base, now))]
      && db.grants == RetireGrants(old(db.grants), roleId, now)
      && LiveGrantIds(db.grants, roleId) == []
  {
    var found := FindRole(db.roles, roleId, user);
    if found.None? {
      return Returned(ErrorResponse(404, "Role not found"));
    }
    var k := found.value;
    var before := db.grants;
    RetireGrantsEffect(before, roleId, now, roleId);
    assert NewGrants(roleId, [], now) == [];
    assert RetireGrants(before, roleId, now) + [] == RetireGrants(before, roleId, now);
    ReplaceRole(db, k, db.roles[k].(base := SoftDeleted(db.roles[k].base, now)),
                RetireGrants(before, roleId, now), user.roleId, [], now);
    resp := Returned(SuccessResponse(200, "Role deleted successfully"));
  }
}
