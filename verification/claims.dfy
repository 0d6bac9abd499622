/**
 * JWT claim sets and the two token builders.  Signing and decoding are done by
 * a JWT library outside this model: they are the `Codec` oracle, and the clock
 * is an explicit parameter (seconds).
 */
module Claims {
  import opened Wrappers

  /** A JSON value as it appears in a decoded payload. */
  datatype Value = Null | Int(i: int) | Str(s: string)

  type Claims = map<string, Value>

  /** `payload.get(key)`: `None` when the key is absent. */
  function Get(c: Claims, key: string): (v: Value)
    ensures key in c ==> v == c[key]
    ensures key !in c ==> v == Null
  {
    if key in c then c[key] else Null
  }

  /** Python's `not v` for the values a payload holds. */
  predicate Falsy(v: Value)
  {
    v == Null || v == Int(0) || v == Str("")
  }

  /** Token lifetimes in minutes. */
  datatype Config = Config(accessMinutes: int, refreshMinutes: int)

  /** The lifetimes used when the environment sets none: 30 minutes and 7 days. */
  const Defaults: Config := Config(30, 60 * 24 * 7)

  /**
   * The `exp` of a new token.  `delta` is the optional `expires_delta` in
   * seconds; a zero delta is falsy and falls back to the default like an absent one.
   */
  function Expiry(now: int, delta: Option<int>, defaultMinutes: int): (exp: int)
    ensures (delta.None? || delta == Some(0)) ==> exp == now + 60 * defaultMinutes
    ensures (delta.Some? && delta.value != 0) ==> exp == now + delta.value
  {
    if delta.Some? && delta.value != 0 then now + delta.value else now + 60 * defaultMinutes
  }

  /**
   * The claim set of a new token: a copy of `data` with `exp`, `jti` and `type`
   * set, overriding whatever `data` held under those three keys.
   */
  function WithClaims(data: Claims, exp: int, jti: Value, kind: string): (c: Claims)
    ensures c.Keys == data.Keys + {"exp", "jti", "type"}
    ensures c["exp"] == Int(exp) && c["jti"] == jti && c["type"] == Str(kind)
    ensures forall k :: k in data && k != "exp" && k != "jti" && k != "type" ==> c[k] == data[k]
  {
    data + map["exp" := Int(exp), "jti" := jti, "type" := Str(kind)]
  }

  function AccessClaims(cfg: Config, data: Claims, jti: Value, delta: Option<int>, now: int): Claims
  {
    WithClaims(data, Expiry(now, delta, cfg.accessMinutes), jti, "access")
  }

  function RefreshClaims(cfg: Config, data: Claims, jti: string, delta: Option<int>, now: int): Claims
  {
    WithClaims(data, Expiry(now, delta, cfg.refreshMinutes), Str(jti), "refresh")
  }

  /** The outcome of decoding a token string: its payload, an expired signature, or any other failure. */
  datatype Decoded = Decoded(claims: Claims) | Expired | Malformed

  /** The JWT library, keyed with the application's secret and algorithm. */
  datatype Codec = Codec(sign: Claims -> string, verify: (string, int) -> Decoded)

  /**
   * A codec that gives back what it signed while `now < exp`, and reports an
   * expired signature from `exp` on.
   */
  ghost predicate Sound(codec: Codec)
  {
    forall c: Claims, now: int ::
      Get(c, "exp").Int? ==>
        codec.verify(codec.sign(c), now) == if now < Get(c, "exp").i then Decoded(c) else Expired
  }

  /**
   * `create_access_token`: with a sound codec the token decodes to the access
   * claims until its expiry and is expired from then on.
   */
  function CreateAccessToken(codec: Codec, cfg: Config, data: Claims, jti: Value, delta: Option<int>, now: int): (token: string)
    ensures Sound(codec) ==> forall later: int ::
      codec.verify(token, later) ==
        if later < Expiry(now, delta, cfg.accessMinutes) then Decoded(AccessClaims(cfg, data, jti, delta, now)) else Expired
  {
    var c := AccessClaims(cfg, data, jti, delta, now);
    assert Get(c, "exp") == Int(Expiry(now, delta, cfg.accessMinutes));
    codec.sign(c)
  }

  /**
   * With a sound codec, a new access token decodes to the payload plus the
   * three added claims until its lifetime ends, and is expired afterwards.
   */
  lemma AccessTokenRoundTrip(codec: Codec, cfg: Config, data: Claims, jti: Value, delta: Option<int>, now: int, later: int)
    requires Sound(codec)
    ensures var c := AccessClaims(cfg, data, jti, delta, now);
      && (later < Expiry(now, delta, cfg.accessMinutes) ==>
            codec.verify(CreateAccessToken(codec, cfg, data, jti, delta, now), later) == Decoded(c))
      && (later >= Expiry(now, delta, cfg.accessMinutes) ==>
            codec.verify(CreateAccessToken(codec, cfg, data, jti, delta, now), later) == Expired)
      && Get(c, "type") == Str("access") && Get(c, "jti") == jti
  {
    var c := AccessClaims(cfg, data, jti, delta, now);
    assert Get(c, "exp") == Int(Expiry(now, delta, cfg.accessMinutes));
  }

  /** The same for refresh tokens. */
  lemma RefreshTokenRoundTrip(codec: Codec, cfg: Config, data: Claims, jti: string, delta: Option<int>, now: int, later: int)
    requires Sound(codec)
    ensures var c := RefreshClaims(cfg, data, jti, delta, now);
      && (later < Expiry(now, delta, cfg.refreshMinutes) ==> codec.verify(codec.sign(c), later) == Decoded(c))
      && (later >= Expiry(now, delta, cfg.refreshMinutes) ==> codec.verify(codec.sign(c), later) == Expired)
      && Get(c, "type") == Str("refresh") && Get(c, "jti") == Str(jti)
  {
    var c := RefreshClaims(cfg, data, jti, delta, now);
    assert Get(c, "exp") == Int(Expiry(now, delta, cfg.refreshMinutes));
  }
}
