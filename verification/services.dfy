/**
 * The permission services: `get_user_permissions` (one list of permission
 * names per module for a role), `get_role_permissions` (module groups per
 * role), `group_permissions_by_module` and `format_role`.  Each loop that
 * fills a dictionary in first-appearance order is the generic `GroupBy`.
 */
module Services {
  import opened Wrappers
  import opened Tables
  import opened Query
  import opened Ordering
  import opened Grouping
  import opened Joins

  // ---------------------------------------------------------------- user permissions

  /**
   * The `(Permission, Module)` rows the query of `get_user_permissions` (and of
   * login) selects before ordering: one per grant row of the role whose
   * permission and module are not deleted.  The grant's own deletion flag is
   * not consulted.
   */
  function RolePairs(grants: seq<RolePermission>, permissions: seq<Permission>, modules: seq<Module>,
                     roleId: Option<int>): (pairs: seq<Listing>)
  {
    Unjoined(Filter(JoinGrants(grants, permissions, modules),
      (x: Joined) => Some(x.grant.roleId) == roleId && !x.permission.base.isDeleted && !x.moduleRow.base.isDeleted))
  }

  /**
   * A pair is selected iff the permission and its module are live table rows
   * and some grant row of the role, deleted or not, names the permission.
   */
  lemma RolePairsMembers(grants: seq<RolePermission>, permissions: seq<Permission>, modules: seq<Module>,
                         roleId: Option<int>, x: Listing)
    ensures x in RolePairs(grants, permissions, modules, roleId) <==>
      && x.permission in permissions && x.moduleRow in modules && x.moduleRow.id == x.permission.moduleId
      && !x.permission.base.isDeleted && !x.moduleRow.base.isDeleted
      && exists g :: g in grants && Some(g.roleId) == roleId && g.permissionId == x.permission.id
  {
    var p := (x: Joined) => Some(x.grant.roleId) == roleId && !x.permission.base.isDeleted && !x.moduleRow.base.isDeleted;
    var filtered := Filter(JoinGrants(grants, permissions, modules), p);
    UnjoinedMembers(filtered);
    if x in RolePairs(grants, permissions, modules, roleId) {
      var y :| y in filtered && x == Listing(y.permission, y.moduleRow);
      assert y.grant in grants;
    }
    if && x.permission in permissions && x.moduleRow in modules && x.moduleRow.id == x.permission.moduleId
       && !x.permission.base.isDeleted && !x.moduleRow.base.isDeleted
       && exists g :: g in grants && Some(g.roleId) == roleId && g.permissionId == x.permission.id
    {
      var g :| g in grants && Some(g.roleId) == roleId && g.permissionId == x.permission.id;
      var y := Joined(g, x.permission, x.moduleRow);
      assert y in filtered;
    }
  }

  /**
   * The rows `.all()` returns: the selected pairs sorted by module then
   * permission, each distinct pair once.
   */
  function UserPermissionRows(grants: seq<RolePermission>, permissions: seq<Permission>, modules: seq<Module>,
                              roleId: Option<int>): (rows: seq<Listing>)
    ensures forall x :: x in rows <==> x in RolePairs(grants, permissions, modules, roleId)
    ensures forall i, j :: 0 <= i < j < |rows| ==> rows[i] != rows[j]
    ensures |rows| == |set x | x in RolePairs(grants, permissions, modules, roleId)|
    ensures SortedBy(rows, ModuleThenId)
  {
    var pairs := RolePairs(grants, permissions, modules, roleId);
    SortedDistinctRows(pairs, ModuleThenId);
    Distinct(OrderBy(pairs, ModuleThenId))
  }

  /** Rows keyed by module id, headed by the module name, carrying the permission. */
  function ByModuleId(rows: seq<Listing>): (r: seq<Row<int, string, Permission>>)
    ensures |r| == |rows|
    ensures forall i :: 0 <= i < |rows| ==>
      r[i] == Row(rows[i].moduleRow.id, rows[i].moduleRow.name, rows[i].permission)
  {
    seq(|rows|, i requires 0 <= i < |rows| => Row(rows[i].moduleRow.id, rows[i].moduleRow.name, rows[i].permission))
  }

  /** Sorting the join by (module id, permission id) sorts the keyed rows by (key, permission id). */
  lemma ByModuleIdSorted(rows: seq<Listing>)
    requires SortedBy(rows, ModuleThenId)
    ensures SortedBy(ByModuleId(rows), (r: Row<int, string, Permission>) => (r.key, r.item.id))
    ensures forall i, j :: 0 <= i < j < |ByModuleId(rows)| ==> ByModuleId(rows)[i].key <= ByModuleId(rows)[j].key
  {
    var r := ByModuleId(rows);
    forall i, j | 0 <= i < j < |r|
      ensures KeyLeq((r[i].key, r[i].item.id), (r[j].key, r[j].item.id))
    {
      assert KeyLeq(ModuleThenId(rows[i]), ModuleThenId(rows[j]));
    }
  }

  /** One entry of the response: `{"module_name": ..., "permissions": [names]}`. */
  datatype ModulePermissions = ModulePermissions(moduleName: string, permissions: seq<string>)

  function Names(ps: seq<Permission>): (names: seq<string>)
    ensures |names| == |ps|
    ensures forall i :: 0 <= i < |ps| ==> names[i] == ps[i].name
  {
    seq(|ps|, i requires 0 <= i < |ps| => ps[i].name)
  }

  /** `list(permissions_by_module.values())` */
  function ModuleEntries(gs: seq<Group<int, string, Permission>>): (r: seq<ModulePermissions>)
    ensures |r| == |gs|
    ensures forall a :: 0 <= a < |gs| ==> r[a] == ModulePermissions(gs[a].header, Names(gs[a].items))
  {
    seq(|gs|, a requires 0 <= a < |gs| => ModulePermissions(gs[a].header, Names(gs[a].items)))
  }

  /** The groups `get_user_permissions` builds for a role. */
  function UserPermissionGroups(grants: seq<RolePermission>, permissions: seq<Permission>, modules: seq<Module>,
                                roleId: Option<int>): seq<Group<int, string, Permission>>
  {
    GroupRows(ByModuleId(UserPermissionRows(grants, permissions, modules, roleId)))
  }

  /** `get_user_permissions` */
  method GetUserPermissions(grants: seq<RolePermission>, permissions: seq<Permission>, modules: seq<Module>,
                            roleId: Option<int>) returns (response: seq<ModulePermissions>)
    ensures response == ModuleEntries(UserPermissionGroups(grants, permissions, modules, roleId))
  {
    var rows := ByModuleId(UserPermissionRows(grants, permissions, modules, roleId));
    var groups := GroupBy(rows);
    response := ModuleEntries(groups);
  }

  /**
   * What the grouping of a role's permissions promises: one group per module
   * id, in ascending module id; within a group, the permissions of exactly the
   * rows of that module, in row order and so in ascending permission id; and
   * every distinct selected pair in exactly one group.
   */
  lemma UserPermissionGroupsShape(grants: seq<RolePermission>, permissions: seq<Permission>, modules: seq<Module>,
                                  roleId: Option<int>)
    ensures var rows := ByModuleId(UserPermissionRows(grants, permissions, modules, roleId));
      var gs := UserPermissionGroups(grants, permissions, modules, roleId);
      && Grouped(rows, gs)
      && (forall a, b :: 0 <= a < b < |gs| ==> gs[a].key < gs[b].key)
      && (forall a, i, j :: 0 <= a < |gs| && 0 <= i < j < |gs[a].items| ==> gs[a].items[i].id <= gs[a].items[j].id)
      && TotalItems(gs) == |rows|
      && TotalItems(gs) == |set x | x in RolePairs(grants, permissions, modules, roleId)|
  {
    var joined := UserPermissionRows(grants, permissions, modules, roleId);
    var rows := ByModuleId(joined);
    var gs := GroupRows(rows);
    GroupRowsGrouped(rows);
    GroupRowsTotal(rows);
    ByModuleIdSorted(joined);
    GroupsAscending(rows);
    forall a, i, j | 0 <= a < |gs| && 0 <= i < j < |gs[a].items|
      ensures gs[a].items[i].id <= gs[a].items[j].id
    {
      ItemsSortedWithinGroup(rows, (p: Permission) => p.id, gs[a].key);
    }
  }

  // ---------------------------------------------------------------- role permissions

  /** `{"permission_id": ..., "permission_name": ...}` */
  datatype PermissionEntry = PermissionEntry(permissionId: int, permissionName: string)

  /** `{"module_id": ..., "module_name": ..., "permissions": [...]}`: key, header and items. */
  type ModuleGroup = Group<int, string, PermissionEntry>

  /**
   * The query of `get_role_permissions`: the join rows of the requested roles'
   * non-deleted grants, sorted by module then permission.  The deletion flags
   * of permissions and modules are not consulted.
   */
  function RoleGrantRows(grants: seq<RolePermission>, permissions: seq<Permission>, modules: seq<Module>,
                         roleIds: seq<int>): (rows: seq<Joined>)
    ensures forall x :: x in rows <==>
      x in JoinGrants(grants, permissions, modules) && x.grant.roleId in roleIds && !x.grant.base.isDeleted
    ensures SortedBy(rows, ModuleThenPermission)
  {
    var filtered := Filter(JoinGrants(grants, permissions, modules),
      (x: Joined) => x.grant.roleId in roleIds && !x.grant.base.isDeleted);
    var rows := OrderBy(filtered, ModuleThenPermission);
    OrderBySorted(filtered, ModuleThenPermission);
    assert forall x :: x in rows <==> x in multiset(filtered);
    rows
  }

  function ModuleRow(x: Joined): Row<int, string, PermissionEntry>
  {
    Row(x.moduleRow.id, x.moduleRow.name, PermissionEntry(x.permission.id, x.permission.name))
  }

  /** The module groups of role `rid` so far, or none yet. */
  function GroupsOf(m: map<int, seq<ModuleGroup>>, rid: int): seq<ModuleGroup>
  {
    if rid in m then m[rid] else []
  }

  /** The nested `setdefault(role).setdefault(module)` dictionary after the given rows. */
  function RoleGroups(rows: seq<Joined>): map<int, seq<ModuleGroup>>
  {
    if rows == [] then map[]
    else
      var m := RoleGroups(rows[..|rows| - 1]);
      var x := rows[|rows| - 1];
      m[x.grant.roleId := Add(GroupsOf(m, x.grant.roleId), ModuleRow(x))]
  }

  /** The rows of role `rid`, keyed by module id. */
  function RowsOfRole(rows: seq<Joined>, rid: int): seq<Row<int, string, PermissionEntry>>
  {
    if rows == [] then []
    else
      var x := rows[|rows| - 1];
      RowsOfRole(rows[..|rows| - 1], rid) + (if x.grant.roleId == rid then [ModuleRow(x)] else [])
  }

  /** The nesting loop of `get_role_permissions`, over rows already queried. */
  method NestByRole(rows: seq<Joined>) returns (result: map<int, seq<ModuleGroup>>)
    ensures result == RoleGroups(rows)
  {
    result := map[];
    var i := 0;
    while i < |rows|
      invariant 0 <= i <= |rows|
      invariant result == RoleGroups(rows[..i])
    {
      var x := rows[i];
      assert rows[..i + 1][..i] == rows[..i] && rows[..i + 1][i] == x;
      var modulesOfRole := if x.grant.roleId in result then result[x.grant.roleId] else [];
      result := result[x.grant.roleId := Add(modulesOfRole, ModuleRow(x))];
      i := i + 1;
    }
    assert rows[..i] == rows;
  }

  /** `get_role_permissions` */
  method GetRolePermissions(grants: seq<RolePermission>, permissions: seq<Permission>, modules: seq<Module>,
                            roleIds: seq<int>) returns (result: map<int, seq<ModuleGroup>>)
    ensures result == RoleGroups(RoleGrantRows(grants, permissions, modules, roleIds))
  {
    result := NestByRole(RoleGrantRows(grants, permissions, modules, roleIds));
  }

  /**
   * Role by role, the nested dictionary is the grouping of that role's rows,
   * and a role is present exactly when one of the rows is its.
   */
  lemma {:induction false} RoleGroupsPerRole(rows: seq<Joined>, rid: int)
    ensures rid in RoleGroups(rows) <==> exists i :: 0 <= i < |rows| && rows[i].grant.roleId == rid
    ensures rid in RoleGroups(rows) ==> RoleGroups(rows)[rid] == GroupRows(RowsOfRole(rows, rid))
    ensures rid !in RoleGroups(rows) ==> RowsOfRole(rows, rid) == []
  {
    if rows != [] {
      var p := rows[..|rows| - 1];
      var x := rows[|rows| - 1];
      RoleGroupsPerRole(p, rid);
      assert forall i :: 0 <= i < |p| ==> p[i] == rows[i];
      assert RoleGroups(rows) == RoleGroups(p)[x.grant.roleId := Add(GroupsOf(RoleGroups(p), x.grant.roleId), ModuleRow(x))];
      if x.grant.roleId == rid {
        assert RowsOfRole(rows, rid) == RowsOfRole(p, rid) + [ModuleRow(x)];
        assert GroupRows(RowsOfRole(rows, rid)) == Add(GroupRows(RowsOfRole(p, rid)), ModuleRow(x)) by {
          assert (RowsOfRole(p, rid) + [ModuleRow(x)])[..|RowsOfRole(p, rid)|] == RowsOfRole(p, rid);
        }
      } else {
        assert RowsOfRole(rows, rid) == RowsOfRole(p, rid) + [];
        assert RowsOfRole(p, rid) + [] == RowsOfRole(p, rid);
        forall i | 0 <= i < |rows| && rows[i].grant.roleId == rid
          ensures i < |p| && p[i].grant.roleId == rid
        {
        }
      }
    }
  }

  /** A role appears in the result only when it was requested and has a non-deleted grant. */
  lemma {:induction false} RoleKeySound(grants: seq<RolePermission>, permissions: seq<Permission>, modules: seq<Module>,
                                        roleIds: seq<int>, rid: int)
    requires rid in RoleGroups(RoleGrantRows(grants, permissions, modules, roleIds))
    ensures rid in roleIds
    ensures exists i :: 0 <= i < |grants| && grants[i].roleId == rid && !grants[i].base.isDeleted
  {
    var rows := RoleGrantRows(grants, permissions, modules, roleIds);
    RoleGroupsPerRole(rows, rid);
    var k :| 0 <= k < |rows| && rows[k].grant.roleId == rid;
    var x := rows[k];
    assert x in rows;
    assert x in JoinGrants(grants, permissions, modules) && x.grant.roleId in roleIds && !x.grant.base.isDeleted;
    var i :| 0 <= i < |grants| && grants[i] == x.grant;
  }

  /** The join row of grant `i`, which the foreign keys guarantee. */
  ghost function JoinedGrant(grants: seq<RolePermission>, permissions: seq<Permission>, modules: seq<Module>, i: nat): (x: Joined)
    requires GrantsHavePermissions(grants, permissions) && PermissionsHaveModules(permissions, modules)
    requires i < |grants|
    ensures x in JoinGrants(grants, permissions, modules) && x.grant == grants[i]
  {
    GrantIsJoined(grants, permissions, modules, i);
    var x :| x in JoinGrants(grants, permissions, modules) && x.grant == grants[i];
    x
  }

  /** Every role that owns one of the rows is a key of the nested dictionary. */
  lemma RowRoleIsKey(rows: seq<Joined>, k: nat)
    requires k < |rows|
    ensures rows[k].grant.roleId in RoleGroups(rows)
  {
    RoleGroupsPerRole(rows, rows[k].grant.roleId);
  }

  /** With the schema's foreign keys, every requested role with a non-deleted grant appears. */
  lemma {:induction false} RoleKeyComplete(grants: seq<RolePermission>, permissions: seq<Permission>, modules: seq<Module>,
                                           roleIds: seq<int>, i: nat)
    requires GrantsHavePermissions(grants, permissions) && PermissionsHaveModules(permissions, modules)
    requires i < |grants| && grants[i].roleId in roleIds && !grants[i].base.isDeleted
    ensures grants[i].roleId in RoleGroups(RoleGrantRows(grants, permissions, modules, roleIds))
  {
    var rows := RoleGrantRows(grants, permissions, modules, roleIds);
    var x := JoinedGrant(grants, permissions, modules, i);
    assert x in rows;
    var k :| 0 <= k < |rows| && rows[k] == x;
    RowRoleIsKey(rows, k);
  }

  /**
   * With the schema's foreign keys, the result's keys are exactly the requested
   * roles that have a non-deleted grant; a role without one is absent rather
   * than mapped to an empty list.
   */
  lemma RolePermissionsKeys(grants: seq<RolePermission>, permissions: seq<Permission>, modules: seq<Module>,
                            roleIds: seq<int>, rid: int)
    requires GrantsHavePermissions(grants, permissions) && PermissionsHaveModules(permissions, modules)
    ensures var result := RoleGroups(RoleGrantRows(grants, permissions, modules, roleIds));
      rid in result <==>
        rid in roleIds && exists i :: 0 <= i < |grants| && grants[i].roleId == rid && !grants[i].base.isDeleted
  {
    if rid in RoleGroups(RoleGrantRows(grants, permissions, modules, roleIds)) {
      RoleKeySound(grants, permissions, modules, roleIds, rid);
    } else if rid in roleIds && exists i :: 0 <= i < |grants| && grants[i].roleId == rid && !grants[i].base.isDeleted {
      var i :| 0 <= i < |grants| && grants[i].roleId == rid && !grants[i].base.isDeleted;
      RoleKeyComplete(grants, permissions, modules, roleIds, i);
    }
  }

  /**
   * Within each role: one module group per module id, in ascending module id,
   * holding exactly that role's rows of the module in row order, every row once.
   */
  lemma RolePermissionsShape(grants: seq<RolePermission>, permissions: seq<Permission>, modules: seq<Module>,
                             roleIds: seq<int>, rid: int)
    ensures var rows := RoleGrantRows(grants, permissions, modules, roleIds);
      var result := RoleGroups(rows);
      rid in result ==>
        && Grouped(RowsOfRole(rows, rid), result[rid])
        && TotalItems(result[rid]) == |RowsOfRole(rows, rid)|
        && forall a, b :: 0 <= a < b < |result[rid]| ==> result[rid][a].key < result[rid][b].key
  {
    var rows := RoleGrantRows(grants, permissions, modules, roleIds);
    RoleGroupsPerRole(rows, rid);
    var own := RowsOfRole(rows, rid);
    GroupRowsGrouped(own);
    GroupRowsTotal(own);
    RowsOfRoleAscending(rows, rid);
    GroupsAscending(own);
  }

  /** A bound on the module ids of the rows bounds the keys of each role's rows. */
  lemma {:induction false} RowsOfRoleBounded(rows: seq<Joined>, rid: int, bound: int)
    requires forall k :: 0 <= k < |rows| ==> rows[k].moduleRow.id <= bound
    ensures forall i :: 0 <= i < |RowsOfRole(rows, rid)| ==> RowsOfRole(rows, rid)[i].key <= bound
  {
    if rows != [] {
      var p := rows[..|rows| - 1];
      assert forall k :: 0 <= k < |p| ==> p[k] == rows[k];
      RowsOfRoleBounded(p, rid, bound);
    }
  }

  /** Filtering a module-sorted sequence to one role keeps it sorted by module id. */
  lemma {:induction false} RowsOfRoleAscending(rows: seq<Joined>, rid: int)
    requires SortedBy(rows, ModuleThenPermission)
    ensures forall i, j :: 0 <= i < j < |RowsOfRole(rows, rid)| ==> RowsOfRole(rows, rid)[i].key <= RowsOfRole(rows, rid)[j].key
  {
    if rows != [] {
      var p := rows[..|rows| - 1];
      var x := rows[|rows| - 1];
      assert SortedBy(p, ModuleThenPermission) by {
        forall i, j | 0 <= i < j < |p| ensures KeyLeq(ModuleThenPermission(p[i]), ModuleThenPermission(p[j])) {
          assert p[i] == rows[i] && p[j] == rows[j];
        }
      }
      RowsOfRoleAscending(p, rid);
      if x.grant.roleId == rid {
        forall k | 0 <= k < |p| ensures p[k].moduleRow.id <= x.moduleRow.id {
          assert p[k] == rows[k];
          assert KeyLeq(ModuleThenPermission(rows[k]), ModuleThenPermission(rows[|rows| - 1]));
        }
        RowsOfRoleBounded(p, rid, x.moduleRow.id);
      }
    }
  }

  // ---------------------------------------------------------------- group_permissions_by_module

  /** A row with `module_id`, `module_name`, `permission_id` and `permission_name` columns. */
  datatype PermissionRecord = PermissionRecord(moduleId: int, moduleName: string, permissionId: int, permissionName: string)

  function RecordRows(records: seq<PermissionRecord>): (r: seq<Row<int, string, PermissionEntry>>)
    ensures |r| == |records|
    ensures forall i :: 0 <= i < |records| ==>
      r[i] == Row(records[i].moduleId, records[i].moduleName, PermissionEntry(records[i].permissionId, records[i].permissionName))
  {
    seq(|records|, i requires 0 <= i < |records| =>
      Row(records[i].moduleId, records[i].moduleName, PermissionEntry(records[i].permissionId, records[i].permissionName)))
  }

  /**
   * `group_permissions_by_module`: one group per module id in first-appearance
   * order, each with the entries of its rows in row order; no row lost or repeated.
   */
  method GroupPermissionsByModule(records: seq<PermissionRecord>) returns (groups: seq<ModuleGroup>)
    ensures Grouped(RecordRows(records), groups)
    ensures TotalItems(groups) == |records|
  {
    groups := GroupBy(RecordRows(records));
    GroupRowsGrouped(RecordRows(records));
    GroupRowsTotal(RecordRows(records));
  }

  // ---------------------------------------------------------------- format_role

  datatype FormattedRole = FormattedRole(
    id: int, name: string, isActive: bool, createdAt: int, updatedAt: int, permissions: seq<ModuleGroup>)

  /** `format_role`: the role's own columns and the given permission list, unchanged. */
  function FormatRole(role: UserRole, permissions: seq<ModuleGroup>): (r: FormattedRole)
    ensures r.id == role.id && r.name == role.name && r.isActive == role.base.isActive
    ensures r.createdAt == role.base.createdAt && r.updatedAt == role.base.updatedAt
    ensures r.permissions == permissions
  {
    FormattedRole(role.id, role.name, role.base.isActive, role.base.createdAt, role.base.updatedAt, permissions)
  }
}
