/**
 * The permission routes: the listing grouped by module name, lookup by id,
 * and the superuser-only creation, renaming and soft deletion.  `user` is the
 * caller as the guard resolved it (`Guard.Authorize`).
 */
module Permissions {
  import opened Wrappers
  import opened AbstractBase
  import opened Tables
  import opened Helper
  import opened ExceptionHandler
  import opened Query
  import opened Ordering
  import opened Grouping
  import opened Joins

  // ---------------------------------------------------------------- the listing query

  function ModulesFor(p: Permission, modules: seq<Module>): (r: seq<Listing>)
    ensures forall x :: x in r <==> x.permission == p && x.moduleRow in modules && x.moduleRow.id == p.moduleId
  {
    if modules == [] then []
    else
      assert forall m :: m in modules <==> m == modules[0] || m in modules[1..];
      (if modules[0].id == p.moduleId then [Listing(p, modules[0])] else []) + ModulesFor(p, modules[1..])
  }

  /** Every permission with its module, permission by permission in table order. */
  function PermissionJoin(permissions: seq<Permission>, modules: seq<Module>): (r: seq<Listing>)
    ensures forall x :: x in r <==>
      x.permission in permissions && x.moduleRow in modules && x.moduleRow.id == x.permission.moduleId
  {
    if permissions == [] then []
    else
      assert forall p :: p in permissions <==> p == permissions[0] || p in permissions[1..];
      ModulesFor(permissions[0], modules) + PermissionJoin(permissions[1..], modules)
  }

  /** The grant links the permission to the caller's role and is not deleted. */
  predicate RoleGrant(x: Joined, user: User)
  {
    Some(x.grant.roleId) == user.roleId && !x.grant.base.isDeleted
  }

  /**
   * The `(Permission, Module)` rows the query selects before ordering:
   * superusers get every permission with its module; anyone else gets one row
   * per live grant of their role.  `.all()` later drops the repeats.
   */
  function ScopedJoin(grants: seq<RolePermission>, permissions: seq<Permission>, modules: seq<Module>,
                      user: User): seq<Listing>
  {
    if user.isSuperuser then PermissionJoin(permissions, modules)
    else Unjoined(Filter(JoinGrants(grants, permissions, modules), (x: Joined) => RoleGrant(x, user)))
  }

  /** The filters of `get_permissions`; `contains` is the case-insensitive substring match of `ilike`. */
  predicate Shown(x: Listing, name: string, contains: (string, string) -> bool, isActive: Option<bool>)
  {
    && !x.permission.base.isDeleted
    && !x.moduleRow.base.isDeleted
    && (name == "" || contains(x.permission.name, name))
    && (isActive.None? || x.permission.base.isActive == isActive.value)
  }

  /**
   * The rows `get_permissions` fetches, in the order it fetches them: the
   * filtered selection sorted by module then permission, each distinct pair once.
   */
  function ListingRows(grants: seq<RolePermission>, permissions: seq<Permission>, modules: seq<Module>, user: User,
                       name: string, contains: (string, string) -> bool, isActive: Option<bool>): (rows: seq<Listing>)
    ensures SortedBy(rows, ModuleThenId)
    ensures forall x :: x in rows <==> x in ScopedJoin(grants, permissions, modules, user) && Shown(x, name, contains, isActive)
    ensures forall i, j :: 0 <= i < j < |rows| ==> rows[i] != rows[j]
    ensures |rows| == |set x | x in ScopedJoin(grants, permissions, modules, user) && Shown(x, name, contains, isActive)|
  {
    var joined := ScopedJoin(grants, permissions, modules, user);
    var filtered := Filter(joined, (x: Listing) => Shown(x, name, contains, isActive));
    SortedDistinctRows(filtered, ModuleThenId);
    assert forall x :: x in filtered <==> x in joined && Shown(x, name, contains, isActive);
    assert (set x | x in filtered) == (set x | x in joined && Shown(x, name, contains, isActive));
    Distinct(OrderBy(filtered, ModuleThenId))
  }

  /**
   * What the listing shows: live permissions of live modules that pass the
   * filters and, for anyone but a superuser, carry a live grant of the
   * caller's role.
   */
  lemma {:induction false} ListingVisibility(grants: seq<RolePermission>, permissions: seq<Permission>, modules: seq<Module>,
                                            user: User, name: string, contains: (string, string) -> bool,
                                            isActive: Option<bool>, x: Listing)
    ensures x in ListingRows(grants, permissions, modules, user, name, contains, isActive) <==>
      && x.permission in permissions && x.moduleRow in modules && x.moduleRow.id == x.permission.moduleId
      && Shown(x, name, contains, isActive)
      && (user.isSuperuser || exists g :: g in grants && g.permissionId == x.permission.id
                                          && Some(g.roleId) == user.roleId && !g.base.isDeleted)
  {
    if !user.isSuperuser {
      var joined := JoinGrants(grants, permissions, modules);
      var mine := Filter(joined, (y: Joined) => RoleGrant(y, user));
      var scoped := Unjoined(mine);
      if x in scoped {
        var i :| 0 <= i < |scoped| && scoped[i] == x;
        assert mine[i] in mine;
        assert mine[i].grant in grants;
      }
      if x.permission in permissions && x.moduleRow in modules && x.moduleRow.id == x.permission.moduleId
         && exists g :: g in grants && g.permissionId == x.permission.id && Some(g.roleId) == user.roleId && !g.base.isDeleted
      {
        var g :| g in grants && g.permissionId == x.permission.id && Some(g.roleId) == user.roleId && !g.base.isDeleted;
        var y := Joined(g, x.permission, x.moduleRow);
        assert y in joined && RoleGrant(y, user);
        assert y in mine;
        var i :| 0 <= i < |mine| && mine[i] == y;
        assert scoped[i] == x;
      }
    }
  }

  // ---------------------------------------------------------------- grouping by module name

  datatype PermissionItem = PermissionItem(permissionId: int, permissionName: string, isActive: bool)

  /** A module's entry: keyed by module name, headed by the module id. */
  type ModuleEntry = Group<string, int, PermissionItem>

  function ByModuleName(rows: seq<Listing>): (r: seq<Row<string, int, PermissionItem>>)
    ensures |r| == |rows|
    ensures forall i :: 0 <= i < |rows| ==>
      r[i] == Row(rows[i].moduleRow.name, rows[i].moduleRow.id,
                  PermissionItem(rows[i].permission.id, rows[i].permission.name, rows[i].permission.base.isActive))
  {
    seq(|rows|, i requires 0 <= i < |rows| =>
      Row(rows[i].moduleRow.name, rows[i].moduleRow.id,
          PermissionItem(rows[i].permission.id, rows[i].permission.name, rows[i].permission.base.isActive)))
  }

  /** Under the (module id, permission id) order the groups' module ids ascend. */
  lemma HeadersAscend(rows: seq<Listing>, gs: seq<ModuleEntry>)
    requires SortedBy(rows, ModuleThenId)
    requires Grouped(ByModuleName(rows), gs)
    ensures forall a, b :: 0 <= a < b < |gs| ==> gs[a].header <= gs[b].header
  {
    var r := ByModuleName(rows);
    forall a, b | 0 <= a < b < |gs| ensures gs[a].header <= gs[b].header {
      var i, j := IndexOf(RowKeys(r), gs[a].key), IndexOf(RowKeys(r), gs[b].key);
      assert i < j;
      assert KeyLeq(ModuleThenId(rows[i]), ModuleThenId(rows[j]));
    }
  }

  /** `get_permissions` */
  method GetPermissions(db: Db, user: User, name: string, contains: (string, string) -> bool, isActive: Option<bool>)
      returns (resp: Response<seq<ModuleEntry>>)
    ensures var rows := ListingRows(db.grants, db.permissions, db.modules, user, name, contains, isActive);
      && resp.Json? && resp.envelope.status == 200 && resp.envelope.message == "success" && resp.envelope.data.Payload?
      && Grouped(ByModuleName(rows), resp.envelope.data.value)
      && TotalItems(resp.envelope.data.value) == |rows|
      && TotalItems(resp.envelope.data.value) ==
           |set x | x in ScopedJoin(db.grants, db.permissions, db.modules, user) && Shown(x, name, contains, isActive)|
      && forall a, b :: 0 <= a < b < |resp.envelope.data.value| ==>
           resp.envelope.data.value[a].header <= resp.envelope.data.value[b].header
  {
    var rows := ListingRows(db.grants, db.permissions, db.modules, user, name, contains, isActive);
    var grouped := GroupBy(ByModuleName(rows));
    GroupRowsGrouped(ByModuleName(rows));
    GroupRowsTotal(ByModuleName(rows));
    HeadersAscend(rows, grouped);
    resp := Returned(SuccessResponse(200, "success", Payload(grouped)));
  }

  // ---------------------------------------------------------------- one permission

  datatype PermissionDetail = PermissionDetail(
    id: int, name: string, isActive: bool, moduleId: int, moduleName: Option<string>, createdAt: int)

  /** The live permission with id `pid`, if any. */
  function FindPermission(permissions: seq<Permission>, pid: int): (r: Option<nat>)
    ensures r.Some? ==> r.value < |permissions| && permissions[r.value].id == pid && !permissions[r.value].base.isDeleted
    ensures r.None? <==> forall i :: 0 <= i < |permissions| ==> permissions[i].id != pid || permissions[i].base.isDeleted
  {
    First(permissions, (p: Permission) => p.id == pid && !p.base.isDeleted)
  }

  /** `db_permission.module.name if db_permission.module else None` (the module row may be deleted). */
  function ModuleName(modules: seq<Module>, moduleId: int): (r: Option<string>)
    ensures r.Some? <==> exists j :: 0 <= j < |modules| && modules[j].id == moduleId
    ensures r.Some? ==> exists j :: 0 <= j < |modules| && modules[j].id == moduleId && modules[j].name == r.value
  {
    match First(modules, (m: Module) => m.id == moduleId)
    case None => None
    case Some(j) => Some(modules[j].name)
  }

  function Detail(p: Permission, modules: seq<Module>): (d: PermissionDetail)
    ensures d.id == p.id && d.name == p.name && d.isActive == p.base.isActive && d.moduleId == p.moduleId
    ensures d.createdAt == p.base.createdAt && d.moduleName == ModuleName(modules, p.moduleId)
  {
    PermissionDetail(p.id, p.name, p.base.isActive, p.moduleId, ModuleName(modules, p.moduleId), p.base.createdAt)
  }

  /** `get_permission` */
  function GetPermission(permissions: seq<Permission>, modules: seq<Module>, pid: int): (r: Response<PermissionDetail>)
    ensures FindPermission(permissions, pid).None? <==> r == Returned(ErrorResponse(404, "Permission not found"))
    ensures FindPermission(permissions, pid).Some? ==>
      r == Returned(SuccessResponse(200, "Success", Payload(Detail(permissions[FindPermission(permissions, pid).value], modules))))
    ensures r.Json? && r.envelope.data.Payload? ==>
      r.envelope.status == 200 && r.envelope.data.value.id == pid
      && exists i :: 0 <= i < |permissions| && !permissions[i].base.isDeleted
                     && r.envelope.data.value == Detail(permissions[i], modules)
  {
    match FindPermission(permissions, pid)
    case None => Returned(ErrorResponse(404, "Permission not found"))
    case Some(k) => Returned(SuccessResponse(200, "Success", Payload(Detail(permissions[k], modules))))
  }

  /** The name checks of the write routes: a live permission other than `except` already carries `name`. */
  predicate NameInUse(permissions: seq<Permission>, name: string, except: Option<int>)
  {
    exists i :: 0 <= i < |permissions| && permissions[i].name == name && !permissions[i].base.isDeleted
      && (except.None? || permissions[i].id != except.value)
  }

  /** The `min_length=5, max_length=100` constraint on the body's `name`. */
  function NameIssues(name: string): (r: seq<Issue>)
    ensures r == [] <==> 5 <= |name| <= 100
  {
    LengthIssues("name", name, 5, 100)
  }

  /**
   * `create_permission`.  The new row is built with a `department_id`
   * keyword that `Permission` has no column for, so the constructor raises
   * `TypeError` and the route stores nothing on any input.
   */
  function CreatePermission(permissions: seq<Permission>, user: User, name: string): (r: Response<PermissionDetail>)
    ensures NameIssues(name) != [] ==> r == Handle(RequestValidation(NameIssues(name)))
    ensures NameIssues(name) == [] && !user.isSuperuser ==> r == Returned(ErrorResponse(403, "Permission denied"))
    ensures NameIssues(name) == [] && user.isSuperuser && NameInUse(permissions, name, None) ==>
      r == Returned(ErrorResponse(400, "Permission exists with this name"))
    ensures NameIssues(name) == [] && user.isSuperuser && !NameInUse(permissions, name, None) ==>
      r == Handle(Unexpected)
  {
    if NameIssues(name) != [] then Handle(RequestValidation(NameIssues(name)))
    else if !user.isSuperuser then Returned(ErrorResponse(403, "Permission denied"))
    else if NameInUse(permissions, name, None) then Returned(ErrorResponse(400, "Permission exists with this name"))
    else Handle(Unexpected)
  }

  /** No input makes `create_permission` answer with its 201 envelope. */
  lemma CreatePermissionNeverSucceeds(permissions: seq<Permission>, user: User, name: string)
    ensures var r := CreatePermission(permissions, user, name);
      r.Json? ==> r.envelope.status != 201 && !r.envelope.data.Payload?
  {
  }

  /** Some row other than `pid`, deleted or not, already carries `name`: the unique column refuses it. */
  predicate NameStored(permissions: seq<Permission>, name: string, pid: int)
  {
    exists i :: 0 <= i < |permissions| && permissions[i].name == name && permissions[i].id != pid
  }

  /**
   * `update_permission`.  The duplicate check looks at live rows only, while
   * the name column is unique over every row, so a name held by a deleted
   * permission makes the commit fail.
   */
  method UpdatePermission(db: Db, user: User, pid: int, name: string, now: int) returns (resp: Response<PermissionDetail>)
    requires db.Valid()
    modifies db`permissions
    ensures db.Valid()
    ensures NameIssues(name) != [] ==>
      resp == Handle(RequestValidation(NameIssues(name))) && db.permissions == old(db.permissions)
    ensures NameIssues(name) == [] && !user.isSuperuser ==>
      resp == Returned(ErrorResponse(403, "Permission denied")) && db.permissions == old(db.permissions)
    ensures NameIssues(name) == [] && user.isSuperuser ==>
      match FindPermission(old(db.permissions), pid)
      case None =>
        resp == Returned(ErrorResponse(404, "Permission not found")) && db.permissions == old(db.permissions)
      case Some(k) =>
        if NameInUse(old(db.permissions), name, Some(pid)) then
          resp == Returned(ErrorResponse(400, "Permission exists with this name")) && db.permissions == old(db.permissions)
        else if NameStored(old(db.permissions), name, pid) then
          resp == Handle(Unexpected) && db.permissions == old(db.permissions)
        else
          var renamed := old(db.permissions)[k].(name := name, base := old(db.permissions)[k].base.(updatedAt := now));
          && db.permissions == old(db.permissions)[k := renamed]
          && resp == Returned(SuccessResponse(200, "Role updated successfully", Payload(Detail(renamed, db.modules))))
  {
    if NameIssues(name) != [] {
      return Handle(RequestValidation(NameIssues(name)));
    }
    if !user.isSuperuser {
      return Returned(ErrorResponse(403, "Permission denied"));
    }
    var found := FindPermission(db.permissions, pid);
    if found.None? {
      return Returned(ErrorResponse(404, "Permission not found"));
    }
    var k := found.value;
    if NameInUse(db.permissions, name, Some(pid)) {
      return Returned(ErrorResponse(400, "Permission exists with this name"));
    }
    if NameStored(db.permissions, name, pid) {
      return Handle(Unexpected);
    }
    var before := db.permissions;
    var renamed := before[k].(name := name, base := before[k].base.(updatedAt := now));
    db.permissions := before[k := renamed];
    SameIdsKeepKeys(before, db.permissions, db.modules, db.grants);
    assert UniquePermissions(db.permissions) by {
      forall i, j | 0 <= i < j < |db.permissions| ensures db.permissions[i].name != db.permissions[j].name {
        if i != k && j != k {
          assert db.permissions[i] == before[i] && db.permissions[j] == before[j];
        } else if i == k {
          assert before[j].id != pid;
        } else {
          assert before[i].id != pid;
        }
      }
    }
    resp := Returned(SuccessResponse(200, "Role updated successfully", Payload(Detail(renamed, db.modules))));
  }

  /** Rewriting permission rows in place without touching ids or modules keeps both foreign keys and unique ids. */
  lemma SameIdsKeepKeys(before: seq<Permission>, after: seq<Permission>, modules: seq<Module>, grants: seq<RolePermission>)
    requires |after| == |before|
    requires forall i :: 0 <= i < |before| ==> after[i].id == before[i].id && after[i].moduleId == before[i].moduleId
    requires PermissionsHaveModules(before, modules) && GrantsHavePermissions(grants, before)
    requires forall i, j :: 0 <= i < j < |before| ==> before[i].id != before[j].id
    ensures PermissionsHaveModules(after, modules) && GrantsHavePermissions(grants, after)
    ensures forall i, j :: 0 <= i < j < |after| ==> after[i].id != after[j].id
  {
    forall i | 0 <= i < |after| ensures HasModule(modules, after[i].moduleId) {
      assert HasModule(modules, before[i].moduleId);
    }
    forall i | 0 <= i < |grants| ensures HasPermission(after, grants[i].permissionId) {
      assert HasPermission(before, grants[i].permissionId);
      var j :| 0 <= j < |before| && before[j].id == grants[i].permissionId;
      assert after[j].id == grants[i].permissionId;
    }
  }

  /** `delete_permission`: the row is soft-deleted; grants that name it stay as they are. */
  method DeletePermission(db: Db, user: User, pid: int, now: int) returns (resp: Response<()>)
    requires db.Valid()
    modifies db`permissions
    ensures db.Valid()
    ensures !user.isSuperuser ==>
      resp == Returned(ErrorResponse(403, "Permission denied")) && db.permissions == old(db.permissions)
    ensures user.isSuperuser ==>
      match FindPermission(old(db.permissions), pid)
      case None =>
        resp == Returned(ErrorResponse(404, "Permission not found")) && db.permissions == old(db.permissions)
      case Some(k) =>
        && resp == Returned(SuccessResponse(200, "Permission deleted successfully"))
        && db.permissions == old(db.permissions)[k := old(db.permissions)[k].(base := SoftDeleted(old(db.permissions)[k].base, now))]
  {
    if !user.isSuperuser {
      return Returned(ErrorResponse(403, "Permission denied"));
    }
    var found := FindPermission(db.permissions, pid);
    if found.None? {
      return Returned(ErrorResponse(404, "Permission not found"));
    }
    var k := found.value;
    var before := db.permissions;
    db.permissions := before[k := before[k].(base := SoftDeleted(before[k].base, now))];
    SameIdsKeepKeys(before, db.permissions, db.modules, db.grants);
    assert UniquePermissions(db.permissions) by {
      forall i, j | 0 <= i < j < |db.permissions| ensures db.permissions[i].name != db.permissions[j].name {
        assert db.permissions[i].name == before[i].name && db.permissions[j].name == before[j].name;
      }
    }
    resp := Returned(SuccessResponse(200, "Permission deleted successfully"));
  }

  /** Once deleted, a permission drops out of every listing, whoever asks and whatever the filters. */
  lemma DeletedPermissionUnlisted(grants: seq<RolePermission>, permissions: seq<Permission>, modules: seq<Module>,
                                  k: nat, now: int, user: User, name: string, contains: (string, string) -> bool,
                                  isActive: Option<bool>)
    requires k < |permissions|
    requires forall i, j :: 0 <= i < j < |permissions| ==> permissions[i].id != permissions[j].id
    ensures var after := permissions[k := permissions[k].(base := SoftDeleted(permissions[k].base, now))];
      forall x :: x in ListingRows(grants, after, modules, user, name, contains, isActive) ==> x.permission.id != permissions[k].id
  {
    var after := permissions[k := permissions[k].(base := SoftDeleted(permissions[k].base, now))];
    forall x | x in ListingRows(grants, after, modules, user, name, contains, isActive)
      ensures x.permission.id != permissions[k].id
    {
      ListingVisibility(grants, after, modules, user, name, contains, isActive, x);
      var i :| 0 <= i < |after| && after[i] == x.permission;
      if i != k {
        assert after[i] == permissions[i];
      }
    }
  }
}
