/**
 * `AuthenticationUtils`: access tokens kept in the cache under
 * `access-token-<userId>`, and one-time passwords under `otp-<userId>`.
 *
 * JWT signing and verification are a parameter (`Jwt`); the model only uses
 * the facts that a signed token verifies to its claims and that the issue
 * time makes tokens for the same claims differ. Cache time-to-live is not
 * modelled.
 */
module Auth {
  import opened Common
  import opened Text
  import opened Entities

  /** The payload signed into an access token: `{ userId, type }`. */
  datatype Claims = Claims(userId: Id, role: int)

  /** A JWT implementation: `sign(claims, issuedAt)` and `verify(token)`,
      which yields the claims of a well-formed token signed with the secret. */
  datatype Jwt = Jwt(sign: (Claims, nat) -> string, verify: string -> Option<Claims>)

  /** The cache, split by key prefix: `access-token-<id>`, `otp-<id>` and
      `user-<email>` can never name the same entry. The last holds the user
      row as read at login. */
  datatype Cache = Cache(accessTokens: map<Id, string>, otps: map<Id, nat>, users: map<string, User>)

  const EmptyCache: Cache := Cache(map[], map[], map[])

  const BearerPrefix: string := "Bearer "

  /** Splitting a header that starts with `Bearer ` gives at least two
      pieces, the second being the rest when the rest holds no space. */
  lemma SplitBearer(header: string)
    requires StartsWith(header, BearerPrefix)
    ensures |Split(header, ' ')| >= 2
    ensures ' ' !in header[7..] ==> Split(header, ' ')[1] == header[7..]
  {
    assert header == "Bearer" + [' '] + header[7..];
    SplitAtFirstSeparator("Bearer", header[7..], ' ');
    if ' ' !in header[7..] {
      SplitWithoutSeparator(header[7..], ' ');
    }
  }

  /** `authHeader.split(' ')[1]` for a header that passed the prefix test. */
  function BearerToken(header: string): (token: string)
    requires StartsWith(header, BearerPrefix)
    ensures ' ' !in header[7..] ==> token == header[7..]
  {
    SplitBearer(header);
    Split(header, ' ')[1]
  }

  /** The token itself is what a client sends after `Bearer `. */
  lemma BearerTokenRoundTrip(token: string)
    requires ' ' !in token
    ensures StartsWith(BearerPrefix + token, BearerPrefix)
    ensures BearerToken(BearerPrefix + token) == token
  {
    assert (BearerPrefix + token)[..7] == BearerPrefix;
    assert (BearerPrefix + token)[7..] == token;
  }

  /** The cache accepts `token` for `userId`: an entry exists, is non-empty
      and is the same string. */
  predicate CacheAccepts(cache: Cache, userId: Id, token: string)
  {
    userId in cache.accessTokens && cache.accessTokens[userId] != "" && cache.accessTokens[userId] == token
  }

  /** `validateToken(authHeader)`: every failure is `Unauthorized`. */
  function ValidateToken(jwt: Jwt, cache: Cache, header: Option<string>): (r: Result<Claims>)
    ensures r.Err? ==> r.error.kind == Unauthorized
    ensures r.Ok? <==>
      header.Some? && StartsWith(header.value, BearerPrefix) &&
      jwt.verify(BearerToken(header.value)).Some? &&
      CacheAccepts(cache, jwt.verify(BearerToken(header.value)).value.userId, BearerToken(header.value))
    ensures r.Ok? ==> Some(r.value) == jwt.verify(BearerToken(header.value))
  {
    if header.None? || header.value == "" || !StartsWith(header.value, BearerPrefix) then
      Fail(Unauthorized, "Unauthorized")
    else
      var token := BearerToken(header.value);
      match jwt.verify(token)
      case None => Fail(Unauthorized, "Unauthorized")
      case Some(claims) =>
        if claims.userId !in cache.accessTokens || cache.accessTokens[claims.userId] == ""
           || cache.accessTokens[claims.userId] != token
        then Fail(Unauthorized, "Unauthorized")
        else Ok(claims)
  }

  /** What `generateToken` hands back: the token and its expiry instant. */
  datatype Grant = Grant(token: string, expiresAt: nat)

  /** `generateToken(userId, type)` at time `now` (milliseconds). */
  function GenerateToken(jwt: Jwt, cache: Cache, userId: Id, role: int, now: nat): (r: (Cache, Grant))
    ensures r.1.token == jwt.sign(Claims(userId, role), now)
    ensures r.1.expiresAt == now + 3600 * 1000
    ensures r.0.accessTokens == cache.accessTokens[userId := r.1.token]
    ensures r.0.otps == cache.otps && r.0.users == cache.users
  {
    var token := jwt.sign(Claims(userId, role), now);
    (cache.(accessTokens := cache.accessTokens[userId := token]), Grant(token, now + 3600 * 1000))
  }

  /** `logout(userId)`. */
  function Logout(cache: Cache, userId: Id): (c: Cache)
    ensures userId !in c.accessTokens
    ensures forall u :: u in cache.accessTokens && u != userId ==> u in c.accessTokens && c.accessTokens[u] == cache.accessTokens[u]
    ensures c.otps == cache.otps && c.users == cache.users
  {
    cache.(accessTokens := cache.accessTokens - {userId})
  }

  /** A JWT implementation that reads back what it signed (and signs no
      white space into tokens, as base64url never contains a space). */
  predicate SignsSoundly(jwt: Jwt, claims: Claims, now: nat)
  {
    jwt.verify(jwt.sign(claims, now)) == Some(claims) &&
    ' ' !in jwt.sign(claims, now) && jwt.sign(claims, now) != ""
  }

  /** A freshly issued token validates, yielding the claims it was issued for. */
  lemma IssuedTokenValidates(jwt: Jwt, cache: Cache, userId: Id, role: int, now: nat)
    requires SignsSoundly(jwt, Claims(userId, role), now)
    ensures var (c, g) := GenerateToken(jwt, cache, userId, role, now);
      ValidateToken(jwt, c, Some(BearerPrefix + g.token)) == Ok(Claims(userId, role))
  {
    var (c, g) := GenerateToken(jwt, cache, userId, role, now);
    BearerTokenRoundTrip(g.token);
  }

  /** Issuing a second token for the same user retires the first one: the
      earlier token no longer validates unless the two are the same string. */
  lemma OnlyLatestTokenValidates(jwt: Jwt, cache: Cache, userId: Id, role1: int, role2: int, t1: nat, t2: nat)
    requires SignsSoundly(jwt, Claims(userId, role1), t1)
    requires jwt.sign(Claims(userId, role1), t1) != jwt.sign(Claims(userId, role2), t2)
    ensures var (c1, g1) := GenerateToken(jwt, cache, userId, role1, t1);
      var (c2, g2) := GenerateToken(jwt, c1, userId, role2, t2);
      ValidateToken(jwt, c2, Some(BearerPrefix + g1.token)).Err?
  {
    var (c1, g1) := GenerateToken(jwt, cache, userId, role1, t1);
    var (c2, g2) := GenerateToken(jwt, c1, userId, role2, t2);
    BearerTokenRoundTrip(g1.token);
  }

  /** After `logout`, no token validates for that user. */
  lemma LogoutRevokes(jwt: Jwt, cache: Cache, userId: Id, header: string)
    requires StartsWith(header, BearerPrefix)
    requires jwt.verify(BearerToken(header)).Some? && jwt.verify(BearerToken(header)).value.userId == userId
    ensures ValidateToken(jwt, Logout(cache, userId), Some(header)).Err?
  {
  }

  /** `generateOtp(userId)` with `Math.random()` supplied as `random`. */
  function GenerateOtp(cache: Cache, userId: Id, random: real): (r: (Cache, nat))
    requires 0.0 <= random < 1.0
    ensures 100000 <= r.1 <= 999999
    ensures r.0.otps == cache.otps[userId := r.1]
    ensures r.0.accessTokens == cache.accessTokens && r.0.users == cache.users
  {
    var x := 100000.0 + random * 900000.0;
    assert 100000.0 <= x < 1000000.0;
    var otp := x.Floor;
    (cache.(otps := cache.otps[userId := otp]), otp)
  }

  /** `validateOtp(otp, userId)`: true exactly when the cached code matches;
      a match consumes the code, a mismatch leaves the cache alone. */
  function ValidateOtp(cache: Cache, otp: int, userId: Id): (r: (Cache, bool))
    ensures r.1 <==> userId in cache.otps && cache.otps[userId] == otp
    ensures r.1 ==> r.0 == cache.(otps := cache.otps - {userId})
    ensures !r.1 ==> r.0 == cache
  {
    if userId in cache.otps && cache.otps[userId] == otp then
      (cache.(otps := cache.otps - {userId}), true)
    else (cache, false)
  }

  /** A one-time password works once: a generated code validates, and the
      same code presented again is refused. */
  lemma {:induction false} OtpSingleUse(cache: Cache, userId: Id, random: real)
    requires 0.0 <= random < 1.0
    ensures var (c1, otp) := GenerateOtp(cache, userId, random);
      var (c2, ok1) := ValidateOtp(c1, otp, userId);
      var (c3, ok2) := ValidateOtp(c2, otp, userId);
      ok1 && !ok2 && c3 == c2 && userId !in c2.otps
  {
  }

  /** A newer code replaces the older one: the older code is refused unless
      the two happen to coincide. */
  lemma OtpReplaced(cache: Cache, userId: Id, random1: real, random2: real)
    requires 0.0 <= random1 < 1.0 && 0.0 <= random2 < 1.0
    ensures var (c1, otp1) := GenerateOtp(cache, userId, random1);
      var (c2, otp2) := GenerateOtp(c1, userId, random2);
      ValidateOtp(c2, otp1, userId).1 <==> otp1 == otp2
  {
  }
}
