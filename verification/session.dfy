/**
 * The session endpoints: login, refresh, logout and password reset.  Together
 * they move a (users, ledger) state: login appends a ledger row, logout
 * blacklists one, reset overwrites one user's password hash.
 *
 * bcrypt is the `checkPassword(plain, hash)` oracle and the hash of a new
 * password is a parameter; the JWT library is the `Codec`; the clock is `now`.
 */
module Session {
  import opened Wrappers
  import opened Helper
  import opened ExceptionHandler
  import opened Claims
  import opened Tables
  import opened Query
  import opened Ledger
  import opened Guard
  import opened Services

  /** The `user` object of the login response. */
  datatype Profile = Profile(
    id: int, name: string, email: Option<string>, phone: string, roleId: Option<int>, roleName: Option<string>,
    isActive: bool, departmentId: Option<int>, departmentName: Option<string>)

  datatype LoginData = LoginData(accessToken: string, refreshToken: string, user: Profile, permissions: seq<ModulePermissions>)

  datatype TokenPair = TokenPair(accessToken: string, refreshToken: string)

  /** `LoginBody`: phone of 3 to 15 characters, password of 4 to 18. */
  function LoginIssues(phone: string, password: string): (r: seq<Issue>)
    ensures r == [] <==> 3 <= |phone| <= 15 && 4 <= |password| <= 18
  {
    LengthIssues("phone", phone, 3, 15) + LengthIssues("password", password, 4, 18)
  }

  /** `RefreshTokenBody`: a token of 3 to 255 characters. */
  function RefreshIssues(token: string): (r: seq<Issue>)
    ensures r == [] <==> 3 <= |token| <= 255
  {
    LengthIssues("refresh_token", token, 3, 255)
  }

  /** `ResetPasswordBody`: both passwords of 6 to 18 characters. */
  function ResetIssues(current: string, replacement: string): (r: seq<Issue>)
    ensures r == [] <==> 6 <= |current| <= 18 && 6 <= |replacement| <= 18
  {
    LengthIssues("current_password", current, 6, 18) + LengthIssues("new_password", replacement, 6, 18)
  }

  predicate HasPhone(u: User, phone: string)
  {
    u.phone == phone
  }

  /** `user.role`: the role row of the user's `role_id`, deleted or not. */
  predicate IsRole(r: UserRole, roleId: Option<int>)
  {
    Some(r.id) == roleId
  }

  /** `user.department`: the department row of the user's `department_id`. */
  predicate IsDepartment(d: Department, departmentId: Option<int>)
  {
    Some(d.id) == departmentId
  }

  /** The checks of login before any token is made: credentials first, then the active flag. */
  function Authenticate(users: seq<User>, checkPassword: (string, string) -> bool, phone: string, password: string)
    : (r: Result<User, Envelope<LoginData>>)
    ensures First(users, u => HasPhone(u, phone)).None? ==> r == Failure(ErrorResponse(401, "Invalid credentials"))
    ensures First(users, u => HasPhone(u, phone)).Some? ==>
      var u := users[First(users, u => HasPhone(u, phone)).value];
      && (!checkPassword(password, u.password) ==> r == Failure(ErrorResponse(401, "Invalid credentials")))
      && (checkPassword(password, u.password) && !u.base.isActive ==> r == Failure(ErrorResponse(403, "Inactive user")))
      && (checkPassword(password, u.password) && u.base.isActive ==> r == Success(u))
  {
    match First(users, u => HasPhone(u, phone))
    case None => Failure(ErrorResponse(401, "Invalid credentials"))
    case Some(i) =>
      if !checkPassword(password, users[i].password) then Failure(ErrorResponse(401, "Invalid credentials"))
      else if !users[i].base.isActive then Failure(ErrorResponse(403, "Inactive user"))
      else Success(users[i])
  }

  /** An authenticated user is the row with that phone, its password checks, and it is active. */
  lemma AuthenticatedUser(users: seq<User>, checkPassword: (string, string) -> bool, phone: string, password: string)
    requires Authenticate(users, checkPassword, phone, password).Success?
    ensures var u := Authenticate(users, checkPassword, phone, password).value;
      u in users && u.phone == phone && checkPassword(password, u.password) && u.base.isActive
  {
  }

  /**
   * `login` as written: the token helpers are called without their `jti`
   * argument, so every request that passes the credential checks fails with a
   * type error, which the catch-all handler turns into 500; no row is written.
   */
  function LoginAsWritten(users: seq<User>, checkPassword: (string, string) -> bool, phone: string, password: string)
    : (r: Response<LoginData>)
    ensures LoginIssues(phone, password) != [] ==> r == Handle(RequestValidation(LoginIssues(phone, password)))
    ensures LoginIssues(phone, password) == [] && Authenticate(users, checkPassword, phone, password).Failure? ==>
      r == Returned(Authenticate(users, checkPassword, phone, password).error)
    ensures r.Json? && r.envelope.status != 200 && !r.envelope.data.Payload?
  {
    if LoginIssues(phone, password) != [] then Handle(RequestValidation(LoginIssues(phone, password)))
    else match Authenticate(users, checkPassword, phone, password)
      case Failure(e) => Returned(e)
      case Success(_) => Handle(Unexpected)
  }

  /** As written, no login can succeed: correct credentials of an active user give 500. */
  lemma LoginAsWrittenNeverSucceeds(users: seq<User>, checkPassword: (string, string) -> bool, phone: string, password: string)
    requires LoginIssues(phone, password) == []
    requires Authenticate(users, checkPassword, phone, password).Success?
    ensures LoginAsWritten(users, checkPassword, phone, password) == Json(500, Envelope(500, "Something went wrong!", EmptyObject))
    ensures LoginAsWritten(users, checkPassword, phone, password).http != 200
  {
  }

  /** The payload both tokens of a login carry. */
  function SessionData(u: User): (c: Claims)
    ensures Get(c, "user_id") == Int(u.id) && Get(c, "phone") == Str(u.phone)
  {
    map["user_id" := Int(u.id), "phone" := Str(u.phone)]
  }

  /** The `user` object: the user's columns plus the names of its role and department, if any. */
  function MakeProfile(u: User, roles: seq<UserRole>, departments: seq<Department>): (p: Profile)
    ensures p.id == u.id && p.name == u.name && p.email == u.email && p.phone == u.phone
    ensures p.roleId == u.roleId && p.isActive == u.base.isActive && p.departmentId == u.departmentId
    ensures p.roleName.Some? <==> First(roles, r => IsRole(r, u.roleId)).Some?
    ensures p.roleName.Some? ==> exists i :: 0 <= i < |roles| && IsRole(roles[i], u.roleId) && p.roleName.value == roles[i].name
    ensures p.departmentName.Some? <==> First(departments, d => IsDepartment(d, u.departmentId)).Some?
    ensures p.departmentName.Some? ==>
      exists i :: 0 <= i < |departments| && IsDepartment(departments[i], u.departmentId) && p.departmentName.value == departments[i].name
  {
    var roleName := match First(roles, r => IsRole(r, u.roleId))
      case None => None
      case Some(i) => Some(roles[i].name);
    var departmentName := match First(departments, d => IsDepartment(d, u.departmentId))
      case None => None
      case Some(i) => Some(departments[i].name);
    Profile(u.id, u.name, u.email, u.phone, u.roleId, roleName, u.base.isActive, u.departmentId, departmentName)
  }

  /**
   * `login` with the evidently intended calls: both tokens carry the same
   * `jti`, so the ledger row of the refresh token is also the one the access
   * token is checked against.  Validation, then credentials (401), then the
   * active flag (403); a successful login appends exactly one ledger row.
   */
  method Login(db: Db, codec: Codec, cfg: Config, checkPassword: (string, string) -> bool,
               phone: string, password: string, jti: string, now: int) returns (resp: Response<LoginData>)
    requires db.Valid()
    modifies db`tokens
    ensures db.Valid()
    ensures Evolves(old(db.tokens), db.tokens)
    ensures LoginIssues(phone, password) != [] ==>
      resp == Handle(RequestValidation(LoginIssues(phone, password))) && db.tokens == old(db.tokens)
    ensures LoginIssues(phone, password) == [] && Authenticate(db.users, checkPassword, phone, password).Failure? ==>
      resp == Returned(Authenticate(db.users, checkPassword, phone, password).error) && db.tokens == old(db.tokens)
    ensures LoginIssues(phone, password) == [] && Authenticate(db.users, checkPassword, phone, password).Success? ==>
      var u := Authenticate(db.users, checkPassword, phone, password).value;
      var refresh := codec.sign(RefreshClaims(cfg, SessionData(u), jti, None, now));
      if Insertable(old(db.tokens), refresh, jti) then
        && db.tokens == old(db.tokens) + [NewUserToken(refresh, jti, Some(u.id), Expiry(now, None, cfg.refreshMinutes), now)]
        && resp == Returned(SuccessResponse(200, "success", Payload(LoginData(
             CreateAccessToken(codec, cfg, SessionData(u), Str(jti), None, now),
             refresh,
             MakeProfile(u, db.roles, db.departments),
             ModuleEntries(UserPermissionGroups(db.grants, db.permissions, db.modules, u.roleId))))))
      else
        resp == Handle(Unexpected) && db.tokens == old(db.tokens)
  {
    var issues := LoginIssues(phone, password);
    if issues != [] {
      return Handle(RequestValidation(issues));
    }
    var auth := Authenticate(db.users, checkPassword, phone, password);
    if auth.Failure? {
      return Returned(auth.error);
    }
    var u := auth.value;
    var access := CreateAccessToken(codec, cfg, SessionData(u), Str(jti), None, now);
    var refresh := CreateRefreshToken(db, codec, cfg, SessionData(u), jti, None, now);
    if refresh.Failure? {
      return Handle(refresh.error);
    }
    var permissions := GetUserPermissions(db.grants, db.permissions, db.modules, u.roleId);
    var profile := MakeProfile(u, db.roles, db.departments);
    resp := Returned(SuccessResponse(200, "success", Payload(LoginData(access, refresh.value, profile, permissions))));
  }

  /**
   * After a login, its access token admits the user on every guarded route
   * until it expires: the new ledger row is live for the token's `jti` and `user_id`.
   */
  lemma LoginGrantsAccess(tokens: seq<UserToken>, users: seq<User>, codec: Codec, cfg: Config,
                          u: User, jti: string, refresh: string, now: int, later: int)
    requires Sound(codec) && UniqueUserIds(users)
    requires u in users && u.id != 0 && u.base.isActive && !u.base.isDeleted
    requires Insertable(tokens, refresh, jti)
    requires later < Expiry(now, None, cfg.accessMinutes)
    ensures var after := tokens + [NewUserToken(refresh, jti, Some(u.id), Expiry(now, None, cfg.refreshMinutes), now)];
      GetCurrentUser(after, users, codec.verify(CreateAccessToken(codec, cfg, SessionData(u), Str(jti), None, now), later))
        == Success(u)
  {
    var after := tokens + [NewUserToken(refresh, jti, Some(u.id), Expiry(now, None, cfg.refreshMinutes), now)];
    var c := AccessClaims(cfg, SessionData(u), Str(jti), None, now);
    AccessTokenRoundTrip(codec, cfg, SessionData(u), Str(jti), None, now, later);
    assert Get(c, "user_id") == Int(u.id);
    assert forall i :: 0 <= i < |tokens| ==> after[i] == tokens[i];
    assert JtiMatches(after[|tokens|], Str(jti)) && UserIdMatches(after[|tokens|], Int(u.id));
    var k :| 0 <= k < |users| && users[k] == u;
    CurrentUserIsTheStoredRow(after, users, codec.verify(CreateAccessToken(codec, cfg, SessionData(u), Str(jti), None, now), later), k);
  }

  /** `refresh_token` as written: the new access token is built without `jti`, a type error, so 500. */
  function RefreshAsWritten(tokens: seq<UserToken>, codec: Codec, token: string, now: int): (r: Response<TokenPair>)
    ensures r.Json? && r.http != 200 && r.http == r.envelope.status && !r.envelope.data.Payload?
  {
    if RefreshIssues(token) != [] then Handle(RequestValidation(RefreshIssues(token)))
    else match DecodeRefreshToken(tokens, codec.verify(token, now))
      case Failure(e) => Handle(e)
      case Success(_) => Handle(Unexpected)
  }

  /** As written, no refresh can succeed. */
  lemma RefreshAsWrittenNeverSucceeds(tokens: seq<UserToken>, codec: Codec, token: string, now: int)
    ensures RefreshAsWritten(tokens, codec, token, now).http != 200
  {
  }

  /** The payload of a refreshed access token: the refresh payload's `user_id` and `phone`. */
  function RefreshedData(payload: Claims): (c: Claims)
    ensures Get(c, "user_id") == Get(payload, "user_id") && Get(c, "phone") == Get(payload, "phone")
  {
    map["user_id" := Get(payload, "user_id"), "phone" := Get(payload, "phone")]
  }

  /**
   * `refresh_token` with the evidently intended call: the new access token
   * keeps the refresh token's `jti`.  The refresh token itself comes back unchanged.
   */
  function Refresh(tokens: seq<UserToken>, codec: Codec, cfg: Config, token: string, now: int): (r: Response<TokenPair>)
    ensures RefreshIssues(token) != [] ==> r == Handle(RequestValidation(RefreshIssues(token)))
    ensures RefreshIssues(token) == [] && DecodeRefreshToken(tokens, codec.verify(token, now)).Failure? ==>
      r == Handle(DecodeRefreshToken(tokens, codec.verify(token, now)).error)
    ensures RefreshIssues(token) == [] && DecodeRefreshToken(tokens, codec.verify(token, now)).Success? ==>
      var payload := DecodeRefreshToken(tokens, codec.verify(token, now)).value;
      r == Returned(SuccessResponse(200, "success", Payload(TokenPair(
        CreateAccessToken(codec, cfg, RefreshedData(payload), Get(payload, "jti"), None, now), token))))
  {
    if RefreshIssues(token) != [] then Handle(RequestValidation(RefreshIssues(token)))
    else match DecodeRefreshToken(tokens, codec.verify(token, now))
      case Failure(e) => Handle(e)
      case Success(payload) =>
        var access := CreateAccessToken(codec, cfg, RefreshedData(payload), Get(payload, "jti"), None, now);
        Returned(SuccessResponse(200, "success", Payload(TokenPair(access, token))))
  }

  /**
   * A refresh token issued at login, still in its lifetime and not revoked,
   * refreshes; the response hands the same refresh token back.
   */
  lemma RefreshAfterLogin(tokens: seq<UserToken>, codec: Codec, cfg: Config, u: User, jti: string, now: int, later: int)
    requires Sound(codec)
    requires later < Expiry(now, None, cfg.refreshMinutes)
    requires !Revoked(tokens, Str(jti))
    requires var token := codec.sign(RefreshClaims(cfg, SessionData(u), jti, None, now)); 3 <= |token| <= 255
    ensures var token := codec.sign(RefreshClaims(cfg, SessionData(u), jti, None, now));
      var r := Refresh(tokens, codec, cfg, token, later);
      r.Json? && r.http == 200 && r.envelope.data.Payload? && r.envelope.data.value.refreshToken == token
  {
    IssuedRefreshTokenDecodes(tokens, codec, cfg, SessionData(u), jti, None, now, later);
  }

  /** The refreshed access token is checked against the same ledger row as the refresh token. */
  lemma RefreshKeepsJti(tokens: seq<UserToken>, codec: Codec, cfg: Config, token: string, now: int, later: int)
    requires Sound(codec)
    requires RefreshIssues(token) == [] && DecodeRefreshToken(tokens, codec.verify(token, now)).Success?
    ensures var payload := DecodeRefreshToken(tokens, codec.verify(token, now)).value;
      var access := Refresh(tokens, codec, cfg, token, now).envelope.data.value.accessToken;
      later < Expiry(now, None, cfg.accessMinutes) ==>
        && codec.verify(access, later).Decoded?
        && Get(codec.verify(access, later).claims, "jti") == Get(payload, "jti")
        && Get(codec.verify(access, later).claims, "user_id") == Get(payload, "user_id")
  {
    var payload := DecodeRefreshToken(tokens, codec.verify(token, now)).value;
    if later < Expiry(now, None, cfg.accessMinutes) {
      AccessTokenRoundTrip(codec, cfg, RefreshedData(payload), Get(payload, "jti"), None, now, later);
    }
  }

  /** The error FastAPI's bearer scheme answers a request without a token with. */
  const NotAuthenticated: Raised := HttpError(401, "Not authenticated")

  /**
   * `logout`: the bearer token must identify a live user, then the body is
   * validated, then the body's refresh token is blacklisted.
   */
  method Logout(db: Db, codec: Codec, bearer: Option<string>, body: string, now: int) returns (resp: Response<()>)
    requires db.Valid()
    modifies db`tokens
    ensures db.Valid()
    ensures Evolves(old(db.tokens), db.tokens)
    ensures bearer.None? ==> resp == Handle(NotAuthenticated) && db.tokens == old(db.tokens)
    ensures bearer.Some? && GetCurrentUser(old(db.tokens), db.users, codec.verify(bearer.value, now)).Failure? ==>
      resp == Handle(GetCurrentUser(old(db.tokens), db.users, codec.verify(bearer.value, now)).error)
      && db.tokens == old(db.tokens)
    ensures bearer.Some? && GetCurrentUser(old(db.tokens), db.users, codec.verify(bearer.value, now)).Success? ==>
      if RefreshIssues(body) != [] then
        resp == Handle(RequestValidation(RefreshIssues(body))) && db.tokens == old(db.tokens)
      else
        var target := RevocationTarget(old(db.tokens), codec.verify(body, now));
        if target.Success? then
          resp == Returned(SuccessResponse(200, "success")) && db.tokens == Revoke(old(db.tokens), target.value)
        else
          resp == Handle(target.error) && db.tokens == old(db.tokens)
  {
    if bearer.None? {
      return Handle(NotAuthenticated);
    }
    var user := GetCurrentUser(db.tokens, db.users, codec.verify(bearer.value, now));
    if user.Failure? {
      return Handle(user.error);
    }
    var issues := RefreshIssues(body);
    if issues != [] {
      return Handle(RequestValidation(issues));
    }
    var done := BlacklistToken(db, codec.verify(body, now));
    if done.Failure? {
      return Handle(done.error);
    }
    resp := Returned(SuccessResponse(200, "success"));
  }

  /**
   * After a logout revoked a refresh token, that token no longer refreshes, and
   * every access token of the same `jti` is refused: the session is over.
   */
  lemma LogoutEndsSession(tokens: seq<UserToken>, users: seq<User>, codec: Codec, refreshToken: string,
                          access: Claims, now: int)
    requires RevocationTarget(tokens, codec.verify(refreshToken, now)).Success?
    requires Get(access, "type") == Str("access")
    requires Get(access, "jti") == Get(codec.verify(refreshToken, now).claims, "jti")
    ensures var after := Revoke(tokens, RevocationTarget(tokens, codec.verify(refreshToken, now)).value);
      && DecodeRefreshToken(after, codec.verify(refreshToken, now)) == Failure(JwtError(401, "Token has been blacklisted"))
      && GetCurrentUser(after, users, Decoded(access)) == Failure(JwtError(401, "Token has been blacklisted"))
      && RevocationTarget(after, codec.verify(refreshToken, now)) == Failure(JwtError(401, "Token has been blacklisted"))
  {
    var d := codec.verify(refreshToken, now);
    RevocationKillsAccessTokens(tokens, d, access);
    SecondBlacklistFails(tokens, d);
  }

  /**
   * `reset_password`: the bearer token must identify a live user; the body is
   * validated; a current password that does not check gives 400 and changes
   * nothing; otherwise that user's stored hash becomes `newHash` and nothing else changes.
   */
  method ResetPassword(db: Db, codec: Codec, checkPassword: (string, string) -> bool, bearer: Option<string>,
                       current: string, replacement: string, newHash: string, now: int) returns (resp: Response<()>)
    requires db.Valid()
    modifies db`users
    ensures db.Valid()
    ensures |db.users| == |old(db.users)|
    ensures bearer.None? ==> resp == Handle(NotAuthenticated) && db.users == old(db.users)
    ensures bearer.Some? && GetCurrentUser(db.tokens, old(db.users), codec.verify(bearer.value, now)).Failure? ==>
      resp == Handle(GetCurrentUser(db.tokens, old(db.users), codec.verify(bearer.value, now)).error)
      && db.users == old(db.users)
    ensures bearer.Some? && GetCurrentUser(db.tokens, old(db.users), codec.verify(bearer.value, now)).Success? ==>
      var u := GetCurrentUser(db.tokens, old(db.users), codec.verify(bearer.value, now)).value;
      if ResetIssues(current, replacement) != [] then
        resp == Handle(RequestValidation(ResetIssues(current, replacement))) && db.users == old(db.users)
      else if !checkPassword(current, u.password) then
        resp == Returned(ErrorResponse(400, "Current password did not matched!")) && db.users == old(db.users)
      else
        && resp == Returned(SuccessResponse(200, "success"))
        && forall i :: 0 <= i < |db.users| ==>
             db.users[i] == if old(db.users)[i].id == u.id then old(db.users)[i].(password := newHash) else old(db.users)[i]
  {
    if bearer.None? {
      return Handle(NotAuthenticated);
    }
    var d := codec.verify(bearer.value, now);
    var user := GetCurrentUser(db.tokens, db.users, d);
    if user.Failure? {
      return Handle(user.error);
    }
    var issues := ResetIssues(current, replacement);
    if issues != [] {
      return Handle(RequestValidation(issues));
    }
    var u := user.value;
    if !checkPassword(current, u.password) {
      return Returned(ErrorResponse(400, "Current password did not matched!"));
    }
    var k := First(db.users, v => HasId(v, Get(d.claims, "user_id"))).value;
    assert db.users[k].id == u.id;
    db.users := db.users[k := db.users[k].(password := newHash)];
    resp := Returned(SuccessResponse(200, "success"));
  }
}
