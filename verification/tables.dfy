/**
 * The tables the core reads and writes, one record type per row, and the
 * database session holding them.  Column constraints (uniqueness, foreign keys)
 * are the session's invariant.
 */
module Tables {
  import opened Wrappers
  import opened AbstractBase

  datatype User = User(
    id: int, name: string, email: Option<string>, phone: string, password: string,
    roleId: Option<int>, departmentId: Option<int>, isSuperuser: bool, base: Base)

  datatype Department = Department(id: int, name: string, base: Base)

  datatype UserRole = UserRole(id: int, name: string, editable: bool, departmentId: int, base: Base)

  datatype Module = Module(id: int, name: string, base: Base)

  datatype Permission = Permission(id: int, name: string, moduleId: int, base: Base)

  /** A grant of one permission to one role. */
  datatype RolePermission = RolePermission(roleId: int, permissionId: int, base: Base)

  datatype ApiKey = ApiKey(id: int, key: string, base: Base)

  /** A row of the refresh-token ledger.  `userId` is a plain column with no foreign key. */
  datatype UserToken = UserToken(
    token: string, createdAt: int, expiresAt: int, userId: Option<int>, jti: string, isBlacklisted: bool)

  /** A new API key: active and not deleted. */
  function NewApiKey(id: int, key: string, now: int): (k: ApiKey)
    ensures k.key == key && k.base.isActive && !k.base.isDeleted
  {
    ApiKey(id, key, NewBase(now))
  }

  /** A new ledger row: not blacklisted. */
  function NewUserToken(token: string, jti: string, userId: Option<int>, expiresAt: int, now: int): (t: UserToken)
    ensures t.token == token && t.jti == jti && t.userId == userId && t.expiresAt == expiresAt
    ensures !t.isBlacklisted
  {
    UserToken(token, now, expiresAt, userId, jti, false)
  }

  /** No two ledger rows share a `jti`, and no two share a token string. */
  predicate LedgerValid(tokens: seq<UserToken>)
  {
    && (forall i, j :: 0 <= i < j < |tokens| ==> tokens[i].jti != tokens[j].jti)
    && (forall i, j :: 0 <= i < j < |tokens| ==> tokens[i].token != tokens[j].token)
  }

  predicate UniqueUserIds(users: seq<User>)
  {
    forall i, j :: 0 <= i < j < |users| ==> users[i].id != users[j].id
  }

  predicate UniqueRoleIds(roles: seq<UserRole>)
  {
    forall i, j :: 0 <= i < j < |roles| ==> roles[i].id != roles[j].id
  }

  predicate UniqueModuleIds(modules: seq<Module>)
  {
    forall i, j :: 0 <= i < j < |modules| ==> modules[i].id != modules[j].id
  }

  /** Permission ids are unique, and so are permission names (deleted rows included). */
  predicate UniquePermissions(permissions: seq<Permission>)
  {
    && (forall i, j :: 0 <= i < j < |permissions| ==> permissions[i].id != permissions[j].id)
    && (forall i, j :: 0 <= i < j < |permissions| ==> permissions[i].name != permissions[j].name)
  }

  /** A foreign key to `modules.id` resolves. */
  predicate HasModule(modules: seq<Module>, id: int)
  {
    exists j :: 0 <= j < |modules| && modules[j].id == id
  }

  /** A foreign key to `permissions.id` resolves. */
  predicate HasPermission(permissions: seq<Permission>, id: int)
  {
    exists j :: 0 <= j < |permissions| && permissions[j].id == id
  }

  /** A foreign key to `user_roles.id` resolves. */
  predicate HasRole(roles: seq<UserRole>, id: int)
  {
    exists j :: 0 <= j < |roles| && roles[j].id == id
  }

  /** Every permission's module exists. */
  predicate PermissionsHaveModules(permissions: seq<Permission>, modules: seq<Module>)
  {
    forall i :: 0 <= i < |permissions| ==> HasModule(modules, permissions[i].moduleId)
  }

  /** Every grant's permission exists. */
  predicate GrantsHavePermissions(grants: seq<RolePermission>, permissions: seq<Permission>)
  {
    forall i :: 0 <= i < |grants| ==> HasPermission(permissions, grants[i].permissionId)
  }

  /** Every grant's role exists (roles are only ever soft-deleted). */
  predicate GrantsHaveRoles(grants: seq<RolePermission>, roles: seq<UserRole>)
  {
    forall i :: 0 <= i < |grants| ==> HasRole(roles, grants[i].roleId)
  }

  /** The open database session: one sequence of rows per table, in storage order. */
  class Db {
    var users: seq<User>
    var departments: seq<Department>
    var roles: seq<UserRole>
    var modules: seq<Module>
    var permissions: seq<Permission>
    var grants: seq<RolePermission>
    var apiKeys: seq<ApiKey>
    var tokens: seq<UserToken>

    /** The constraints the schema declares. */
    ghost predicate Valid()
      reads this
    {
      && LedgerValid(tokens)
      && UniqueUserIds(users)
      && UniqueRoleIds(roles)
      && UniqueModuleIds(modules)
      && UniquePermissions(permissions)
      && PermissionsHaveModules(permissions, modules)
      && GrantsHavePermissions(grants, permissions)
      && GrantsHaveRoles(grants, roles)
    }

    constructor Empty()
      ensures Valid()
      ensures users == [] && departments == [] && roles == [] && modules == []
      ensures permissions == [] && grants == [] && apiKeys == [] && tokens == []
    {
      users, departments, roles, modules := [], [], [], [];
      permissions, grants, apiKeys, tokens := [], [], [], [];
    }
  }
}
