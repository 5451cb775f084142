// ClerkAuthService (app/services/clerk_auth.py): the Authorization header, the base64url
// text of a JSON Web Key, the two caches, and where each failure of verify_token ends.
// The HTTP fetch of the key set, base64 decoding, the JWK-to-PEM conversion and the JWT
// signature check are library functions passed in as values.
module ClerkAuth {
  import opened Wrappers
  import opened Strings
  import opened Http
  import opened Schemas
  import opened FileSystem

  // ---------------------------------------------------------------- the header

  /** extract_token_from_header: the second of exactly two whitespace-separated words,
      the first of which is "bearer" in any case (section 2.1 of RFC 6750). */
  function ExtractToken(header: Option<string>): (r: Result<string, Exc>)
    ensures header.None? || header.value == [] ==> r == Failure(HttpError(401, "Authorization header missing"))
    ensures header.Some? && header.value != [] && (|Words(header.value)| != 2 || Lower(Words(header.value)[0]) != "bearer") ==>
      r == Failure(HttpError(401, "Invalid authorization header format"))
    ensures r.Success? <==> header.Some? && |Words(header.value)| == 2 && Lower(Words(header.value)[0]) == "bearer"
    ensures r.Success? ==> r.value == Words(header.value)[1] && r.value != [] && NoSpace(r.value)
  {
    if header.None? || header.value == [] then Failure(HttpError(401, "Authorization header missing"))
    else
      var parts := Words(header.value);
      if |parts| != 2 || Lower(parts[0]) != "bearer" then Failure(HttpError(401, "Invalid authorization header format"))
      else Success(parts[1])
  }

  /** A scheme spelt "bearer" in any case, some whitespace and a token give back that
      token unchanged. */
  lemma ExtractTokenRoundTrip(scheme: string, sp: string, token: string)
    requires Lower(scheme) == "bearer" && NoSpace(scheme)
    requires |sp| > 0 && forall i :: 0 <= i < |sp| ==> IsSpace(sp[i])
    requires |token| > 0 && NoSpace(token)
    ensures ExtractToken(Some(scheme + sp + token)) == Success(token)
  {
    WordsOfTwo(scheme, sp, token);
  }

  /** A third word, for instance a token with a space in it, is refused. */
  lemma ExtractTokenThreeWords(scheme: string, sp: string, w1: string, sp2: string, w2: string)
    requires |scheme| > 0 && NoSpace(scheme) && |w1| > 0 && NoSpace(w1) && |w2| > 0 && NoSpace(w2)
    requires |sp| > 0 && forall i :: 0 <= i < |sp| ==> IsSpace(sp[i])
    requires |sp2| > 0 && forall i :: 0 <= i < |sp2| ==> IsSpace(sp2[i])
    ensures ExtractToken(Some(scheme + sp + w1 + sp2 + w2)) == Failure(HttpError(401, "Invalid authorization header format"))
  {
    var s := scheme + sp + w1 + sp2 + w2;
    assert s == scheme + (sp + (w1 + sp2 + w2));
    WordOfWord(scheme, sp + (w1 + sp2 + w2));
    assert s[|scheme|..] == sp + (w1 + sp2 + w2);
    WordsSkipSpaces(sp, w1 + sp2 + w2);
    WordsOfTwo(w1, sp2, w2);
    assert Words(s) == [scheme] + [w1, w2];
  }

  // ---------------------------------------------------------------- base64url

  /** The padding of _base64url_decode: `4 - len % 4` '=' characters when the length is
      not a multiple of 4 (section 3.2 of RFC 4648). */
  function Padded(data: string): (r: string)
    ensures |r| % 4 == 0
    ensures |data| <= |r| < |data| + 4
    ensures r[..|data|] == data
    ensures forall i :: |data| <= i < |r| ==> r[i] == '='
    ensures |data| % 4 == 0 ==> r == data
  {
    var missing := |data| % 4;
    if missing != 0 then data + seq(4 - missing, _ => '=') else data
  }

  /** The character of the base64 alphabet that stands where base64url has c (section 5
      of RFC 4648). */
  function StandardChar(c: char): char
  {
    if c == '-' then '+' else if c == '_' then '/' else c
  }

  /** str.replace of a single character by a single character: every occurrence, and
      nothing else, is swapped. */
  lemma {:induction false} ReplaceChar(s: string, a: char, b: char)
    ensures |Replace(s, [a], [b])| == |s|
    ensures forall i :: 0 <= i < |s| ==> Replace(s, [a], [b])[i] == if s[i] == a then b else s[i]
    decreases |s|
  {
    if |s| >= 1 {
      ReplaceChar(s[1..], a, b);
      var tail := Replace(s[1..], [a], [b]);
      if s[..1] == [a] {
        assert Replace(s, [a], [b]) == [b] + tail;
      } else {
        assert s[0] != a by { assert s[..1] == [s[0]]; }
        assert Replace(s, [a], [b]) == [s[0]] + tail;
      }
    }
  }

  /** `data.replace('-', '+').replace('_', '/')`: each character mapped on its own, so the
      length is kept. */
  function Normalized(data: string): (r: string)
    ensures |r| == |data|
    ensures forall i :: 0 <= i < |data| ==> r[i] == StandardChar(data[i])
  {
    var s := Replace(data, "-", "+");
    ReplaceChar(data, '-', '+');
    ReplaceChar(s, '_', '/');
    Replace(s, "_", "/")
  }

  /** What _base64url_decode hands to base64.b64decode: padded first, then normalised.
      The text is whole quadruples, the padding survives, and no URL-safe character is
      left. */
  function Base64Text(data: string): (r: string)
    ensures |r| % 4 == 0 && |data| <= |r| < |data| + 4
    ensures forall i :: 0 <= i < |data| ==> r[i] == StandardChar(data[i])
    ensures forall i :: |data| <= i < |r| ==> r[i] == '='
    ensures forall i :: 0 <= i < |r| ==> r[i] != '-' && r[i] != '_'
  {
    var padded := Padded(data);
    assert forall i :: 0 <= i < |data| ==> padded[i] == data[i] by {
      forall i | 0 <= i < |data| ensures padded[i] == data[i] {
        assert padded[..|data|][i] == padded[i];
      }
    }
    Normalized(padded)
  }

  /** A text that is already standard base64 of whole quadruples passes unchanged. */
  lemma Base64TextOfStandard(data: string)
    requires |data| % 4 == 0 && forall i :: 0 <= i < |data| ==> data[i] != '-' && data[i] != '_'
    ensures Base64Text(data) == data
  {
  }

  // ---------------------------------------------------------------- keys

  type Pem = string

  /** A JSON Web Key as get_public_key reads it: its "kid", "n" and "e" members. */
  datatype Jwk = Jwk(kid: Option<string>, n: Option<string>, e: Option<string>)

  /** response.json() of the JWKS endpoint: its "keys" member, if there is one, and how
      many other members the object has.  An object with no member is falsy. */
  datatype Jwks = Jwks(keys: Option<seq<Jwk>>, otherMembers: nat)

  /** `if self._jwks_cache:` */
  predicate Truthy(cache: Option<Jwks>)
  {
    cache.Some? && (cache.value.keys.Some? || cache.value.otherMembers > 0)
  }

  /** `jwks.get("keys", [])` */
  function KeysOf(jwks: Jwks): seq<Jwk>
  {
    jwks.keys.GetOr([])
  }

  /** The cryptography and base64 libraries.  None stands for an exception. */
  datatype Crypto = Crypto(b64decode: string -> Option<Bytes>,
                           toPem: (Bytes, Bytes) -> Option<Pem>)   // RSAPublicNumbers(e, n) as PEM

  /** The index of the first key whose "kid" is kid. */
  function FirstMatch(keys: seq<Jwk>, kid: string): (r: Option<nat>)
    ensures r.Some? ==> r.value < |keys| && keys[r.value].kid == Some(kid)
    ensures r.Some? ==> forall j :: 0 <= j < r.value ==> keys[j].kid != Some(kid)
    ensures r.None? ==> forall j :: 0 <= j < |keys| ==> keys[j].kid != Some(kid)
  {
    if keys == [] then None
    else if keys[0].kid == Some(kid) then Some(0)
    else
      match FirstMatch(keys[1..], kid)
      case None => None
      case Some(k) => Some(k + 1)
  }

  /** The PEM text of a key: both members present and both decodable.  A missing member
      is a KeyError, which the same `except` catches. */
  function KeyPem(crypto: Crypto, key: Jwk): Option<Pem>
  {
    var n :- key.n;
    var nBytes :- crypto.b64decode(Base64Text(n));
    var e :- key.e;
    var eBytes :- crypto.b64decode(Base64Text(e));
    crypto.toPem(nBytes, eBytes)
  }

  /** The loop of get_public_key over a fetched key set: the first key with that kid is
      converted, and nothing later is looked at. */
  function KeyFromJwks(crypto: Crypto, jwks: Jwks, kid: string): (r: Result<Pem, Exc>)
    ensures r == Failure(HttpError(401, "Invalid token: key not found")) <==>
      forall j :: 0 <= j < |KeysOf(jwks)| ==> KeysOf(jwks)[j].kid != Some(kid)
    ensures r.Success? <==> FirstMatch(KeysOf(jwks), kid).Some? && KeyPem(crypto, KeysOf(jwks)[FirstMatch(KeysOf(jwks), kid).value]).Some?
    ensures r.Failure? ==> r.error.HttpError? && (r.error.status == 401 || r.error.status == 500)
  {
    var keys := KeysOf(jwks);
    match FirstMatch(keys, kid)
    case None => Failure(HttpError(401, "Invalid token: key not found"))
    case Some(i) =>
      match KeyPem(crypto, keys[i])
      case None => Failure(HttpError(500, "Failed to process authentication key"))
      case Some(pem) => Success(pem)
  }

  /** What get_jwks answers, given the cache and what the request would return. */
  function JwksOutcome(cache: Option<Jwks>, fetched: Option<Jwks>): Result<Jwks, Exc>
  {
    if Truthy(cache) then Success(cache.value)
    else if fetched.None? then Failure(HttpError(503, "Authentication service unavailable"))
    else Success(fetched.value)
  }

  /** The JWKS cache after get_jwks. */
  function CacheAfter(cache: Option<Jwks>, fetched: Option<Jwks>): Option<Jwks>
  {
    if Truthy(cache) || fetched.None? then cache else fetched
  }

  /** What get_public_key answers, given both caches and what the request would return. */
  function PublicKeyOutcome(keys: map<string, Pem>, cache: Option<Jwks>, fetched: Option<Jwks>,
                            crypto: Crypto, kid: string): (r: Result<Pem, Exc>)
    ensures kid in keys ==> r == Success(keys[kid])
    ensures r.Failure? ==> r.error.HttpError? && r.error.status in {401, 500, 503}
  {
    if kid in keys then Success(keys[kid])
    else
      var jwks :- JwksOutcome(cache, fetched);
      KeyFromJwks(crypto, jwks, kid)
  }

  /** An empty key-set object is stored but is falsy, so the next call fetches again. */
  lemma EmptyJwksRefetched(fetched: Option<Jwks>)
    ensures CacheAfter(None, Some(Jwks(None, 0))) == Some(Jwks(None, 0))
    ensures JwksOutcome(Some(Jwks(None, 0)), fetched) ==
      if fetched.None? then Failure(HttpError(503, "Authentication service unavailable")) else Success(fetched.value)
  {
  }

  // ---------------------------------------------------------------- tokens

  /** The claims of a verified token that get_user_from_token reads. */
  datatype Claims = Claims(sub: Option<string>, email: Option<string>, name: Option<string>,
                           givenName: Option<string>, familyName: Option<string>, sid: Option<string>,
                           iat: Option<int>, exp: Option<int>)

  /** The user_info dict of get_user_from_token. */
  datatype UserInfo = UserInfo(id: Option<string>, email: Option<string>, fullName: string,
                               firstName: string, lastName: string, isActive: bool,
                               clerkUserId: Option<string>, sessionId: Option<string>,
                               issuedAt: Option<int>, expiresAt: Option<int>)

  /** The PyJWT calls verify_token makes.  `kidOf` reads the unverified header's "kid";
      its Failure is what get_unverified_header raises.  `decode` checks the signature and
      the issuer. */
  datatype Jwt = Jwt(kidOf: string -> Result<Option<string>, Exc>,
                     decode: (string, Pem) -> Result<Claims, Exc>)

  /** The two `except` clauses of verify_token: a jwt.InvalidTokenError becomes 401, and
      any other exception, an HTTPException included, becomes 500. */
  function Routed(e: Exc): (r: Exc)
    ensures r.HttpError? && (r.status == 401 || r.status == 500)
    ensures r.status == 401 <==> e.InvalidToken?
  {
    if e.InvalidToken? then HttpError(401, "Invalid authentication token")
    else HttpError(500, "Authentication verification failed")
  }

  /** The key id verify_token goes on with: a falsy "kid" raises the 401 "no key ID". */
  function HeaderKid(jwt: Jwt, token: string): (r: Result<string, Exc>)
    ensures r.Success? ==> r.value != []
    ensures r.Success? <==> jwt.kidOf(token).Success? && jwt.kidOf(token).value.Some? && jwt.kidOf(token).value.value != []
  {
    var kid :- jwt.kidOf(token);
    if kid.None? || kid.value == [] then Failure(HttpError(401, "Invalid token: no key ID")) else Success(kid.value)
  }

  /** What verify_token answers, given both caches and what the key-set request would
      return. */
  function VerifyOutcome(keys: map<string, Pem>, cache: Option<Jwks>, fetched: Option<Jwks>, crypto: Crypto,
                         jwt: Jwt, token: string): (r: Result<Claims, Exc>)
    ensures r.Failure? ==> r.error.HttpError? && (r.error.status == 401 || r.error.status == 500)
  {
    match HeaderKid(jwt, token)
    case Failure(e) => Failure(Routed(e))
    case Success(kid) =>
      match PublicKeyOutcome(keys, cache, fetched, crypto, kid)
      case Failure(e) => Failure(Routed(e))
      case Success(pem) =>
        match jwt.decode(token, pem)
        case Failure(e) => Failure(Routed(e))
        case Success(claims) => Success(claims)
  }

  /** verify_token answers 401 only when PyJWT itself found the token invalid: the header
      could not be read, or the signature or the issuer did not check. */
  lemma UnauthorizedOnlyForInvalidTokens(keys: map<string, Pem>, cache: Option<Jwks>, fetched: Option<Jwks>,
                                         crypto: Crypto, jwt: Jwt, token: string)
    requires VerifyOutcome(keys, cache, fetched, crypto, jwt, token).Failure?
    requires VerifyOutcome(keys, cache, fetched, crypto, jwt, token).error.status == 401
    ensures (jwt.kidOf(token).Failure? && jwt.kidOf(token).error.InvalidToken?)
         || (HeaderKid(jwt, token).Success?
             && PublicKeyOutcome(keys, cache, fetched, crypto, HeaderKid(jwt, token).value).Success?
             && jwt.decode(token, PublicKeyOutcome(keys, cache, fetched, crypto, HeaderKid(jwt, token).value).value).Failure?
             && jwt.decode(token, PublicKeyOutcome(keys, cache, fetched, crypto, HeaderKid(jwt, token).value).value).error.InvalidToken?)
  {
  }

  /** A token without a key id, and a key id the key set does not hold, end in 500,
      not in the 401 they were raised with. */
  lemma KeyErrorsBecome500(keys: map<string, Pem>, cache: Option<Jwks>, fetched: Option<Jwks>,
                           crypto: Crypto, jwt: Jwt, token: string)
    requires jwt.kidOf(token).Success?
    requires HeaderKid(jwt, token).Failure?
             || PublicKeyOutcome(keys, cache, fetched, crypto, HeaderKid(jwt, token).value).Failure?
    ensures VerifyOutcome(keys, cache, fetched, crypto, jwt, token) == Failure(HttpError(500, "Authentication verification failed"))
  {
    var kid := HeaderKid(jwt, token);
    if kid.Success? {
      var key := PublicKeyOutcome(keys, cache, fetched, crypto, kid.value);
      assert key.error.HttpError?;
    }
  }

  /** The public-key cache after get_public_key: one more entry when a key was converted. */
  function KeysAfter(keys: map<string, Pem>, cache: Option<Jwks>, fetched: Option<Jwks>, crypto: Crypto, kid: string): (r: map<string, Pem>)
    ensures keys.Keys <= r.Keys && r.Keys <= keys.Keys + {kid}
    ensures kid in r <==> PublicKeyOutcome(keys, cache, fetched, crypto, kid).Success?
    ensures kid in r ==> r[kid] == PublicKeyOutcome(keys, cache, fetched, crypto, kid).value
    ensures forall k :: k in keys ==> r[k] == keys[k]
  {
    var key := PublicKeyOutcome(keys, cache, fetched, crypto, kid);
    if kid !in keys && key.Success? then keys[kid := key.value] else keys
  }

  /** The key-set cache after get_public_key: untouched for a cached kid. */
  function JwksAfter(keys: map<string, Pem>, cache: Option<Jwks>, fetched: Option<Jwks>, kid: string): Option<Jwks>
  {
    if kid in keys then cache else CacheAfter(cache, fetched)
  }

  /** get_user_from_token's reading of the claims: the subject is both ids, a missing
      name is "", and the user is active. */
  function UserInfoOf(p: Claims): (r: UserInfo)
    ensures r.id == p.sub && r.clerkUserId == p.sub && r.isActive
    ensures r.email == p.email && r.sessionId == p.sid && r.issuedAt == p.iat && r.expiresAt == p.exp
    ensures r.fullName == p.name.GetOr("") && r.firstName == p.givenName.GetOr("") && r.lastName == p.familyName.GetOr("")
  {
    UserInfo(p.sub, p.email, p.name.GetOr(""), p.givenName.GetOr(""), p.familyName.GetOr(""), true,
             p.sub, p.sid, p.iat, p.exp)
  }

  /** GET /me (app/api/v1/endpoints/auth.py): created_at is always None, which UserResponse
      refuses, so the profile request always ends in 500. */
  function Me(user: UserInfo): (r: Reply<UserResponse>)
    ensures r.Fail? && r.status == 500
    ensures r.detail.Caught? && r.detail.e.Invalid? && "created_at" in r.detail.e.fields
  {
    match NewUserResponse(user.id, user.email, Some(user.fullName), user.isActive, None)
    case Success(u) => Ok(u)
    case Failure(e) => Reraise(e)
  }

  // ---------------------------------------------------------------- the service

  class ClerkAuthService {
    var jwksCache: Option<Jwks>
    var publicKeys: map<string, Pem>

    constructor ()
      ensures jwksCache == None && publicKeys == map[]
    {
      jwksCache := None;
      publicKeys := map[];
    }

    /** get_jwks; `fetched` is response.json() of the request, None when it raises. */
    method GetJwks(fetched: Option<Jwks>) returns (r: Result<Jwks, Exc>)
      modifies this
      ensures r == JwksOutcome(old(jwksCache), fetched) && jwksCache == CacheAfter(old(jwksCache), fetched)
      ensures publicKeys == old(publicKeys)
      ensures Truthy(old(jwksCache)) ==> r == Success(old(jwksCache).value) && jwksCache == old(jwksCache)
      ensures !Truthy(old(jwksCache)) && fetched.Some? ==> r == Success(fetched.value) && jwksCache == fetched
      ensures r.Failure? ==> r.error == HttpError(503, "Authentication service unavailable") && jwksCache == old(jwksCache)
    {
      if Truthy(jwksCache) {
        return Success(jwksCache.value);
      }
      if fetched.None? {
        return Failure(HttpError(503, "Authentication service unavailable"));
      }
      jwksCache := fetched;
      r := Success(fetched.value);
    }

    /** get_public_key: a cached kid is answered without a fetch; otherwise the first
        key with that kid is converted and stored under it. */
    method GetPublicKey(kid: string, fetched: Option<Jwks>, crypto: Crypto) returns (r: Result<Pem, Exc>)
      modifies this
      ensures r == PublicKeyOutcome(old(publicKeys), old(jwksCache), fetched, crypto, kid)
      ensures publicKeys == KeysAfter(old(publicKeys), old(jwksCache), fetched, crypto, kid)
      ensures jwksCache == JwksAfter(old(publicKeys), old(jwksCache), fetched, kid)
    {
      if kid in publicKeys {
        return Success(publicKeys[kid]);
      }
      var jwks := GetJwks(fetched);
      if jwks.Failure? {
        return Failure(jwks.error);
      }
      var keys := KeysOf(jwks.value);
      var i := 0;
      while i < |keys|
        invariant 0 <= i <= |keys|
        invariant forall j :: 0 <= j < i ==> keys[j].kid != Some(kid)
        invariant publicKeys == old(publicKeys) && jwksCache == CacheAfter(old(jwksCache), fetched)
      {
        if keys[i].kid == Some(kid) {
          assert FirstMatch(keys, kid) == Some(i);
          var pem := KeyPem(crypto, keys[i]);
          if pem.None? {
            return Failure(HttpError(500, "Failed to process authentication key"));
          }
          publicKeys := publicKeys[kid := pem.value];
          return Success(pem.value);
        }
        i := i + 1;
      }
      r := Failure(HttpError(401, "Invalid token: key not found"));
    }

    /** verify_token: the key id of the unverified header, its public key, then the
        signature check, with every failure routed through the two `except` clauses.
        Only a key id that passes the header check reaches the caches. */
    method VerifyToken(token: string, jwt: Jwt, fetched: Option<Jwks>, crypto: Crypto) returns (r: Result<Claims, Exc>)
      modifies this
      ensures r == VerifyOutcome(old(publicKeys), old(jwksCache), fetched, crypto, jwt, token)
      ensures HeaderKid(jwt, token).Failure? ==> publicKeys == old(publicKeys) && jwksCache == old(jwksCache)
      ensures HeaderKid(jwt, token).Success? ==>
        && publicKeys == KeysAfter(old(publicKeys), old(jwksCache), fetched, crypto, HeaderKid(jwt, token).value)
        && jwksCache == JwksAfter(old(publicKeys), old(jwksCache), fetched, HeaderKid(jwt, token).value)
    {
      var kid := HeaderKid(jwt, token);
      if kid.Failure? {
        return Failure(Routed(kid.error));
      }
      var key := GetPublicKey(kid.value, fetched, crypto);
      if key.Failure? {
        return Failure(Routed(key.error));
      }
      var payload := jwt.decode(token, key.value);
      if payload.Failure? {
        return Failure(Routed(payload.error));
      }
      r := payload;
    }

    /** get_user_from_token */
    method UserFromToken(token: string, jwt: Jwt, fetched: Option<Jwks>, crypto: Crypto) returns (r: Result<UserInfo, Exc>)
      modifies this
      ensures var v := VerifyOutcome(old(publicKeys), old(jwksCache), fetched, crypto, jwt, token);
        r == if v.Success? then Success(UserInfoOf(v.value)) else Failure(v.error)
      ensures HeaderKid(jwt, token).Failure? ==> publicKeys == old(publicKeys) && jwksCache == old(jwksCache)
      ensures HeaderKid(jwt, token).Success? ==>
        && publicKeys == KeysAfter(old(publicKeys), old(jwksCache), fetched, crypto, HeaderKid(jwt, token).value)
        && jwksCache == JwksAfter(old(publicKeys), old(jwksCache), fetched, HeaderKid(jwt, token).value)
    {
      var payload := VerifyToken(token, jwt, fetched, crypto);
      if payload.Failure? {
        return Failure(payload.error);
      }
      r := Success(UserInfoOf(payload.value));
    }
  }
}
