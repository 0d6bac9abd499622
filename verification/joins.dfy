/**
 * The join every permission query of the core starts from: grant rows with
 * their permission and that permission's module.  Each query then filters the
 * join and sorts it by (module id, permission id).
 */
module Joins {
  import opened Tables

  /** One row of `RolePermission ⋈ Permission ⋈ Module`. */
  datatype Joined = Joined(grant: RolePermission, permission: Permission, moduleRow: Module)

  /** The row's three parts are linked by the two join conditions. */
  predicate Links(x: Joined)
  {
    x.permission.id == x.grant.permissionId && x.moduleRow.id == x.permission.moduleId
  }

  /** `ORDER BY Module.id ASC, Permission.id ASC` */
  function ModuleThenPermission(x: Joined): (int, int)
  {
    (x.moduleRow.id, x.permission.id)
  }

  function WithModules(g: RolePermission, p: Permission, modules: seq<Module>): (r: seq<Joined>)
    ensures forall x :: x in r <==>
      x.grant == g && x.permission == p && x.moduleRow in modules && x.moduleRow.id == p.moduleId
  {
    if modules == [] then []
    else
      assert forall m :: m in modules <==> m == modules[0] || m in modules[1..];
      (if modules[0].id == p.moduleId then [Joined(g, p, modules[0])] else []) + WithModules(g, p, modules[1..])
  }

  function WithPermissions(g: RolePermission, permissions: seq<Permission>, modules: seq<Module>): (r: seq<Joined>)
    ensures forall x :: x in r <==>
      x.grant == g && x.permission in permissions && x.moduleRow in modules && Links(x)
  {
    if permissions == [] then []
    else
      assert forall p :: p in permissions <==> p == permissions[0] || p in permissions[1..];
      var p := permissions[0];
      (if p.id == g.permissionId then WithModules(g, p, modules) else []) + WithPermissions(g, permissions[1..], modules)
  }

  /** The inner join, grant by grant in table order. */
  function JoinGrants(grants: seq<RolePermission>, permissions: seq<Permission>, modules: seq<Module>): (r: seq<Joined>)
    ensures forall x :: x in r <==>
      x.grant in grants && x.permission in permissions && x.moduleRow in modules && Links(x)
  {
    if grants == [] then []
    else
      assert forall g :: g in grants <==> g == grants[0] || g in grants[1..];
      WithPermissions(grants[0], permissions, modules) + JoinGrants(grants[1..], permissions, modules)
  }

  /**
   * Under the schema's foreign keys every grant has a permission and every
   * permission a module, so the inner join loses no grant: it behaves as the
   * outer joins some queries write.
   */
  lemma GrantIsJoined(grants: seq<RolePermission>, permissions: seq<Permission>, modules: seq<Module>, i: nat)
    requires GrantsHavePermissions(grants, permissions) && PermissionsHaveModules(permissions, modules)
    requires i < |grants|
    ensures exists x :: x in JoinGrants(grants, permissions, modules) && x.grant == grants[i]
  {
    assert HasPermission(permissions, grants[i].permissionId);
    var j :| 0 <= j < |permissions| && permissions[j].id == grants[i].permissionId;
    assert HasModule(modules, permissions[j].moduleId);
    var k :| 0 <= k < |modules| && modules[k].id == permissions[j].moduleId;
    assert Joined(grants[i], permissions[j], modules[k]) in JoinGrants(grants, permissions, modules);
  }

  /** A result row of `db.query(Permission, Module)`: the two selected entities. */
  datatype Listing = Listing(permission: Permission, moduleRow: Module)

  /** `ORDER BY Module.id ASC, Permission.id ASC` on selected rows. */
  function ModuleThenId(x: Listing): (int, int)
  {
    (x.moduleRow.id, x.permission.id)
  }

  /** The selected entities of each join row, one result row per grant. */
  function Unjoined(rows: seq<Joined>): (r: seq<Listing>)
    ensures |r| == |rows|
    ensures forall i :: 0 <= i < |rows| ==> r[i] == Listing(rows[i].permission, rows[i].moduleRow)
  {
    seq(|rows|, i requires 0 <= i < |rows| => Listing(rows[i].permission, rows[i].moduleRow))
  }

  /** A selected row comes from some join row, and every join row yields one. */
  lemma UnjoinedMembers(rows: seq<Joined>)
    ensures forall x :: x in Unjoined(rows) <==> exists y :: y in rows && x == Listing(y.permission, y.moduleRow)
  {
    var r := Unjoined(rows);
    forall x | x in r ensures exists y :: y in rows && x == Listing(y.permission, y.moduleRow) {
      var i :| 0 <= i < |r| && r[i] == x;
      assert rows[i] in rows;
    }
    forall y | y in rows ensures Listing(y.permission, y.moduleRow) in r {
      var i :| 0 <= i < |rows| && rows[i] == y;
      assert r[i] == Listing(y.permission, y.moduleRow);
    }
  }
}
