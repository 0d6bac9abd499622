/**
 * The refresh-token ledger: issuing a refresh token records one row, revoking
 * it flips that row's blacklist flag, and every decode consults the ledger.
 */
module Ledger {
  import opened Wrappers
  import opened Claims
  import opened Tables
  import opened ExceptionHandler
  import opened Query

  /** `UserToken.jti == jti`.  A payload without `jti` compares against NULL and matches no row. */
  predicate JtiMatches(t: UserToken, jti: Value)
  {
    jti == Str(t.jti)
  }

  /** `UserToken.user_id == user_id`, where a missing `user_id` becomes `IS NULL`. */
  predicate UserIdMatches(t: UserToken, userId: Value)
  {
    match userId
    case Null => t.userId.None?
    case Int(k) => t.userId == Some(k)
    case Str(_) => false
  }

  /** Some row with this `jti` is blacklisted. */
  ghost predicate Revoked(tokens: seq<UserToken>, jti: Value)
  {
    exists i :: 0 <= i < |tokens| && JtiMatches(tokens[i], jti) && tokens[i].isBlacklisted
  }

  /** Some non-blacklisted row has this `jti` and this `user_id`. */
  ghost predicate LiveFor(tokens: seq<UserToken>, jti: Value, userId: Value)
  {
    exists i :: 0 <= i < |tokens| && JtiMatches(tokens[i], jti) && UserIdMatches(tokens[i], userId) && !tokens[i].isBlacklisted
  }

  /** Some non-blacklisted row has this `jti`. */
  ghost predicate Live(tokens: seq<UserToken>, jti: Value)
  {
    exists i :: 0 <= i < |tokens| && JtiMatches(tokens[i], jti) && !tokens[i].isBlacklisted
  }

  /** `check_blacklist_token`: fails exactly when the `jti` has been revoked. */
  function CheckBlacklistToken(tokens: seq<UserToken>, jti: Value): (r: Result<bool, Raised>)
    ensures r.Success? <==> !Revoked(tokens, jti)
    ensures r.Success? ==> r.value
    ensures r.Failure? ==> r.error == JwtError(401, "Token has been blacklisted")
  {
    match First(tokens, t => JtiMatches(t, jti) && t.isBlacklisted)
    case Some(_) => Failure(JwtError(401, "Token has been blacklisted"))
    case None => Success(true)
  }

  /** `match_jti_from_db`: the first live row of this `jti` and `user_id`. */
  function MatchJtiFromDb(tokens: seq<UserToken>, jti: Value, userId: Value): (r: Result<UserToken, Raised>)
    ensures r.Success? <==> LiveFor(tokens, jti, userId)
    ensures r.Success? ==> r.value in tokens && JtiMatches(r.value, jti) && UserIdMatches(r.value, userId) && !r.value.isBlacklisted
    ensures r.Failure? ==> r.error == JwtError(401, "Invalid token")
  {
    match First(tokens, t => JtiMatches(t, jti) && UserIdMatches(t, userId) && !t.isBlacklisted)
    case Some(i) => Success(tokens[i])
    case None => Failure(JwtError(401, "Invalid token"))
  }

  /** The errors a failed signature or expiry check turns into. */
  function DecodeFailure(d: Decoded): Raised
    requires !d.Decoded?
  {
    if d.Expired? then JwtError(401, "Token has expired") else JwtError(401, "Invalid token")
  }

  /**
   * `decode_access_token`, given what the JWT library made of the token: the
   * type tag, then the blacklist, then a live ledger row of the same `jti` and
   * `user_id`.
   */
  function DecodeAccessToken(tokens: seq<UserToken>, d: Decoded): (r: Result<Claims, Raised>)
    ensures r.Success? <==>
      && d.Decoded?
      && Get(d.claims, "type") == Str("access")
      && !Revoked(tokens, Get(d.claims, "jti"))
      && LiveFor(tokens, Get(d.claims, "jti"), Get(d.claims, "user_id"))
    ensures r.Success? ==> r.value == d.claims
    ensures d.Expired? ==> r == Failure(JwtError(401, "Token has expired"))
    ensures d.Malformed? ==> r == Failure(JwtError(401, "Invalid token"))
    ensures d.Decoded? && Get(d.claims, "type") != Str("access") ==> r == Failure(JwtError(401, "Invalid token type"))
    ensures d.Decoded? && Get(d.claims, "type") == Str("access") && Revoked(tokens, Get(d.claims, "jti")) ==>
      r == Failure(JwtError(401, "Token has been blacklisted"))
    ensures d.Decoded? && Get(d.claims, "type") == Str("access") && !Revoked(tokens, Get(d.claims, "jti"))
            && !LiveFor(tokens, Get(d.claims, "jti"), Get(d.claims, "user_id")) ==>
      r == Failure(JwtError(401, "Invalid token"))
  {
    match d
    case Expired => Failure(DecodeFailure(d))
    case Malformed => Failure(DecodeFailure(d))
    case Decoded(payload) =>
      if Get(payload, "type") != Str("access") then Failure(JwtError(401, "Invalid token type"))
      else
        var _ :- CheckBlacklistToken(tokens, Get(payload, "jti"));
        var _ :- MatchJtiFromDb(tokens, Get(payload, "jti"), Get(payload, "user_id"));
        Success(payload)
  }

  /**
   * `decode_refresh_token`: the blacklist first, then the type tag; the payload
   * comes back unchanged.
   */
  function DecodeRefreshToken(tokens: seq<UserToken>, d: Decoded): (r: Result<Claims, Raised>)
    ensures r.Success? <==>
      d.Decoded? && !Revoked(tokens, Get(d.claims, "jti")) && Get(d.claims, "type") == Str("refresh")
    ensures r.Success? ==> r.value == d.claims
    ensures d.Expired? ==> r == Failure(JwtError(401, "Token has expired"))
    ensures d.Malformed? ==> r == Failure(JwtError(401, "Invalid token"))
    ensures d.Decoded? && Revoked(tokens, Get(d.claims, "jti")) ==> r == Failure(JwtError(401, "Token has been blacklisted"))
    ensures d.Decoded? && !Revoked(tokens, Get(d.claims, "jti")) && Get(d.claims, "type") != Str("refresh") ==>
      r == Failure(JwtError(401, "Invalid token type"))
  {
    match d
    case Expired => Failure(DecodeFailure(d))
    case Malformed => Failure(DecodeFailure(d))
    case Decoded(payload) =>
      var _ :- CheckBlacklistToken(tokens, Get(payload, "jti"));
      if Get(payload, "type") != Str("refresh") then Failure(JwtError(401, "Invalid token type"))
      else Success(payload)
  }

  /** The `user_id` column value stored for a payload's `user_id`, if the column accepts it. */
  function UserIdColumn(v: Value): Option<Option<int>>
  {
    match v
    case Null => Some(None)
    case Int(k) => Some(Some(k))
    case Str(_) => None
  }

  /** Inserting a row with this token string and `jti` keeps both unique. */
  predicate Insertable(tokens: seq<UserToken>, token: string, jti: string)
  {
    forall i :: 0 <= i < |tokens| ==> tokens[i].token != token && tokens[i].jti != jti
  }

  /**
   * `create_refresh_token`: sign the refresh claims and record exactly one new,
   * non-blacklisted ledger row.  A row the schema refuses (a repeated `jti` or
   * token string, a `user_id` that is not an integer) fails the commit, which
   * surfaces as an unexpected error, and nothing is recorded.
   */
  method CreateRefreshToken(db: Db, codec: Codec, cfg: Config, data: Claims, jti: string, delta: Option<int>, now: int)
    returns (r: Result<string, Raised>)
    requires db.Valid()
    modifies db`tokens
    ensures db.Valid()
    ensures var c := RefreshClaims(cfg, data, jti, delta, now);
      && (r.Success? <==> Insertable(old(db.tokens), codec.sign(c), jti) && UserIdColumn(Get(data, "user_id")).Some?)
      && (r.Success? ==>
            && r.value == codec.sign(c)
            && db.tokens == old(db.tokens) +
                 [NewUserToken(r.value, jti, UserIdColumn(Get(data, "user_id")).value, Expiry(now, delta, cfg.refreshMinutes), now)])
    ensures r.Failure? ==> r.error == Unexpected && db.tokens == old(db.tokens)
  {
    var exp := Expiry(now, delta, cfg.refreshMinutes);
    var encoded := codec.sign(RefreshClaims(cfg, data, jti, delta, now));
    var column := UserIdColumn(Get(data, "user_id"));
    if column.None? || !Insertable(db.tokens, encoded, jti) {
      return Failure(Unexpected);
    }
    db.tokens := db.tokens + [NewUserToken(encoded, jti, column.value, exp, now)];
    r := Success(encoded);
  }

  /**
   * `blacklist_token`'s decision: any decode failure (expiry included) is an
   * invalid token; a revoked `jti` is reported as blacklisted; otherwise the
   * first live row of the `jti` is the one to flip.  The token type is not checked.
   */
  function RevocationTarget(tokens: seq<UserToken>, d: Decoded): (r: Result<nat, Raised>)
    ensures r.Success? <==> d.Decoded? && !Revoked(tokens, Get(d.claims, "jti")) && Live(tokens, Get(d.claims, "jti"))
    ensures r.Success? ==>
      && r.value < |tokens|
      && JtiMatches(tokens[r.value], Get(d.claims, "jti"))
      && !tokens[r.value].isBlacklisted
    ensures !d.Decoded? ==> r == Failure(JwtError(401, "Invalid token"))
    ensures d.Decoded? && Revoked(tokens, Get(d.claims, "jti")) ==> r == Failure(JwtError(401, "Token has been blacklisted"))
    ensures d.Decoded? && !Revoked(tokens, Get(d.claims, "jti")) && !Live(tokens, Get(d.claims, "jti")) ==>
      r == Failure(JwtError(401, "Invalid token"))
  {
    match d
    case Expired => Failure(JwtError(401, "Invalid token"))
    case Malformed => Failure(JwtError(401, "Invalid token"))
    case Decoded(payload) =>
      var jti := Get(payload, "jti");
      var _ :- CheckBlacklistToken(tokens, jti);
      match First(tokens, t => JtiMatches(t, jti) && !t.isBlacklisted)
      case Some(i) => Success(i)
      case None => Failure(JwtError(401, "Invalid token"))
  }

  /** The ledger with row `i` blacklisted. */
  function Revoke(tokens: seq<UserToken>, i: nat): (r: seq<UserToken>)
    requires i < |tokens|
    ensures |r| == |tokens| && r[i].isBlacklisted
    ensures forall j :: 0 <= j < |tokens| && j != i ==> r[j] == tokens[j]
    ensures r[i] == tokens[i].(isBlacklisted := true)
  {
    tokens[i := tokens[i].(isBlacklisted := true)]
  }

  /**
   * The ledger only ever grows at the end, and a row only ever changes by
   * becoming blacklisted.
   */
  ghost predicate Evolves(before: seq<UserToken>, after: seq<UserToken>)
  {
    && |before| <= |after|
    && forall i :: 0 <= i < |before| ==>
         after[i] == before[i] || after[i] == before[i].(isBlacklisted := true)
  }

  /**
   * `blacklist_token`: flips the blacklist flag of exactly one live row of the
   * token's `jti` and changes nothing else; on failure the ledger is untouched.
   */
  method BlacklistToken(db: Db, d: Decoded) returns (r: Result<(), Raised>)
    requires db.Valid()
    modifies db`tokens
    ensures db.Valid()
    ensures var target := RevocationTarget(old(db.tokens), d);
      && (r.Success? <==> target.Success?)
      && (r.Success? ==> db.tokens == Revoke(old(db.tokens), target.value))
      && (r.Failure? ==> r.error == target.error && db.tokens == old(db.tokens))
    ensures Evolves(old(db.tokens), db.tokens)
  {
    var target := RevocationTarget(db.tokens, d);
    if target.Failure? {
      return Failure(target.error);
    }
    db.tokens := Revoke(db.tokens, target.value);
    r := Success(());
  }

  /** Revoking keeps the ledger's uniqueness constraints and makes the `jti` revoked. */
  lemma RevokeKeepsLedger(tokens: seq<UserToken>, i: nat, jti: Value)
    requires i < |tokens| && LedgerValid(tokens)
    requires JtiMatches(tokens[i], jti)
    ensures LedgerValid(Revoke(tokens, i))
    ensures Revoked(Revoke(tokens, i), jti)
    ensures Evolves(tokens, Revoke(tokens, i))
  {
  }

  /** A successful revocation makes a second one on the same token fail as blacklisted. */
  lemma SecondBlacklistFails(tokens: seq<UserToken>, d: Decoded)
    requires RevocationTarget(tokens, d).Success?
    ensures RevocationTarget(Revoke(tokens, RevocationTarget(tokens, d).value), d)
      == Failure(JwtError(401, "Token has been blacklisted"))
  {
    var i := RevocationTarget(tokens, d).value;
    assert Revoke(tokens, i)[i].isBlacklisted;
  }

  /**
   * Revoking a refresh token also kills every access token of the same `jti`:
   * they now fail as blacklisted.
   */
  lemma RevocationKillsAccessTokens(tokens: seq<UserToken>, refresh: Decoded, access: Claims)
    requires RevocationTarget(tokens, refresh).Success?
    requires Get(access, "type") == Str("access")
    requires Get(access, "jti") == Get(refresh.claims, "jti")
    ensures DecodeAccessToken(Revoke(tokens, RevocationTarget(tokens, refresh).value), Decoded(access))
      == Failure(JwtError(401, "Token has been blacklisted"))
  {
    var i := RevocationTarget(tokens, refresh).value;
    assert Revoke(tokens, i)[i].isBlacklisted;
  }

  /** Once a `jti` is revoked it stays revoked, however the ledger evolves. */
  lemma RevokedStaysRevoked(before: seq<UserToken>, after: seq<UserToken>, jti: Value)
    requires Evolves(before, after) && Revoked(before, jti)
    ensures Revoked(after, jti)
  {
    var i :| 0 <= i < |before| && JtiMatches(before[i], jti) && before[i].isBlacklisted;
    assert after[i].isBlacklisted && JtiMatches(after[i], jti);
  }

  lemma {:induction false} EvolvesTransitive(a: seq<UserToken>, b: seq<UserToken>, c: seq<UserToken>)
    requires Evolves(a, b) && Evolves(b, c)
    ensures Evolves(a, c)
  {
    forall i | 0 <= i < |a|
      ensures c[i] == a[i] || c[i] == a[i].(isBlacklisted := true)
    {
      assert b[i] == a[i] || b[i] == a[i].(isBlacklisted := true);
      assert c[i] == b[i] || c[i] == b[i].(isBlacklisted := true);
    }
  }

  /** A refresh token that was issued and is still in its lifetime decodes, until it is revoked. */
  lemma IssuedRefreshTokenDecodes(tokens: seq<UserToken>, codec: Codec, cfg: Config, data: Claims, jti: string,
                                  delta: Option<int>, now: int, later: int)
    requires Sound(codec)
    requires later < Expiry(now, delta, cfg.refreshMinutes)
    requires !Revoked(tokens, Str(jti))
    ensures var c := RefreshClaims(cfg, data, jti, delta, now);
      DecodeRefreshToken(tokens, codec.verify(codec.sign(c), later)) == Success(c)
  {
    RefreshTokenRoundTrip(codec, cfg, data, jti, delta, now, later);
  }
}
