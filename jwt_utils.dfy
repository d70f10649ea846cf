/** The token helpers: issuing an HS256 token for a user, checking and
    decoding such a token through the JWT library, and the two legacy
    helpers that read an unsigned base64-encoded JSON blob.  The library's
    encoder and decoder, `time()`, `base64_decode`, `json_decode` and
    `is_numeric` are parameters. */
module JwtUtils {
  import opened Wrappers

  /** A decoded JSON value (objects decode to associative arrays). */
  datatype Json =
    | JNull
    | JBool(b: bool)
    | JNumber(n: int)
    | JString(s: string)
    | JArray(elems: seq<Json>)
    | JObject(fields: map<string, Json>)

  /** An associative array with string keys: a database row or a claims set. */
  type Row = map<string, Json>

  /** The shared secret and the signing algorithm every token uses. */
  const SecretKey: string := "JuanMichaelRicky"
  const Algorithm: string := "HS256"

  /** How long an issued token is valid, in seconds. */
  const Lifetime: int := 3600

  /** `JWT::encode($payload, $key, $alg)`. */
  type JwtEncoder = (Row, string, string) -> string

  /** What `JWT::decode($jwt, new Key($key, $alg))` does: return the claims,
      or throw. */
  datatype Decoding = Decoded(claims: Row) | Thrown(reason: string)
  type JwtDecoder = (string, string, string) -> Decoding

  /** `$row[$name]`: an undefined index reads as null. */
  function Field(row: Row, name: string): Json {
    if name in row then row[name] else JNull
  }

  /** The claims issued to `user` at time `now`: exactly these six keys, an
      expiry one lifetime after issue, and the user's fields copied. */
  ghost predicate IssuedClaims(p: Row, user: Row, now: int) {
    && p.Keys == {"iat", "exp", "sub", "email", "role", "name"}
    && p["iat"] == JNumber(now)
    && p["exp"] == JNumber(now + Lifetime)
    && p["sub"] == Field(user, "id")
    && p["email"] == Field(user, "email")
    && p["role"] == Field(user, "role")
    && p["name"] == Field(user, "name")
  }

  /** The claims a user and a time determine. */
  lemma IssuedClaimsUnique(p: Row, q: Row, user: Row, now: int)
    requires IssuedClaims(p, user, now) && IssuedClaims(q, user, now)
    ensures p == q
  {
  }

  /** The payload `generateJWT` builds. */
  function Payload(user: Row, now: int): (p: Row)
    ensures IssuedClaims(p, user, now)
    ensures p["exp"].n - p["iat"].n == Lifetime
  {
    map["iat" := JNumber(now), "exp" := JNumber(now + Lifetime), "sub" := Field(user, "id"),
        "email" := Field(user, "email"), "role" := Field(user, "role"), "name" := Field(user, "name")]
  }

  /** `generateJWT`: the library's HS256 encoding, under the shared secret,
      of the claims issued to `user` at `now`. */
  function GenerateJwt(user: Row, now: int, encode: JwtEncoder): (token: string)
    ensures exists p :: IssuedClaims(p, user, now) && token == encode(p, SecretKey, Algorithm)
  {
    var p := Payload(user, now);
    assert IssuedClaims(p, user, now);
    encode(p, SecretKey, Algorithm)
  }

  /** What `validateJWT` returns: the decoded claims or `false`. */
  datatype ClaimsOrFalse = Claims(claims: Row) | False

  /** `validateJWT`: the library's verdict under the shared secret and HS256,
      with a thrown exception turned into `false`. */
  function ValidateJwt(jwt: string, decode: JwtDecoder): (r: ClaimsOrFalse)
    ensures r.False? <==> decode(jwt, SecretKey, Algorithm).Thrown?
    ensures r.Claims? ==> r.claims == decode(jwt, SecretKey, Algorithm).claims
  {
    match decode(jwt, SecretKey, Algorithm)
    case Decoded(c) => Claims(c)
    case Thrown(_) => False
  }

  /** `decodeJWT`: the same, with a thrown exception turned into `null`. */
  function DecodeJwt(token: string, decode: JwtDecoder): (r: Option<Row>)
    ensures r.None? <==> decode(token, SecretKey, Algorithm).Thrown?
    ensures r.Some? ==> r.value == decode(token, SecretKey, Algorithm).claims
  {
    match decode(token, SecretKey, Algorithm)
    case Decoded(c) => Some(c)
    case Thrown(_) => None
  }

  /** The two decoders agree: one fails exactly when the other does, and
      otherwise both give the same claims. */
  lemma ValidateAgreesWithDecode(token: string, decode: JwtDecoder)
    ensures ValidateJwt(token, decode).False? <==> DecodeJwt(token, decode).None?
    ensures DecodeJwt(token, decode).Some? ==> ValidateJwt(token, decode) == Claims(DecodeJwt(token, decode).value)
  {
  }

  // ---------------------------------------------------------------------
  // The legacy helpers
  // ---------------------------------------------------------------------

  /** `base64_decode` (never fails in its non-strict form). */
  type Base64Decoder = string -> string

  /** `json_decode($s, true)`; `None` is its `null`, both for the JSON
      literal and for input it cannot parse. */
  type JsonDecoder = string -> Option<Json>

  /** `$data['user_id'] ?? null` on a decoded value: only an object with a
      non-null `user_id` yields it; a missing value, a list or scalar, or a
      failed decode yields null. */
  function UserIdOf(data: Option<Json>): Option<Json> {
    if data.Some? && data.value.JObject? && "user_id" in data.value.fields && data.value.fields["user_id"] != JNull
    then Some(data.value.fields["user_id"])
    else None
  }

  /** `isValidToken`: the blob decodes to an object whose `user_id` is set,
      not null, and numeric.  No signature and no expiry are looked at. */
  function IsValidToken(token: string, base64: Base64Decoder, json: JsonDecoder, isNumeric: Json -> bool): (r: bool)
    ensures r <==> var d := json(base64(token));
                   && d.Some? && d.value.JObject? && "user_id" in d.value.fields
                   && d.value.fields["user_id"] != JNull && isNumeric(d.value.fields["user_id"])
  {
    match UserIdOf(json(base64(token)))
    case Some(id) => isNumeric(id)
    case None => false
  }

  /** `getUserIdFromToken`: the decoded `user_id`, or null when it is
      missing, null, or the blob does not decode to an object. */
  function GetUserIdFromToken(token: string, base64: Base64Decoder, json: JsonDecoder): (r: Option<Json>)
    ensures json(base64(token)).None? ==> r.None?
    ensures r.Some? <==> var d := json(base64(token));
                         d.Some? && d.value.JObject? && "user_id" in d.value.fields && d.value.fields["user_id"] != JNull
    ensures r.Some? ==> r.value != JNull && r.value == json(base64(token)).value.fields["user_id"]
  {
    UserIdOf(json(base64(token)))
  }

  /** A token is valid exactly when its user id is present and numeric, so
      a valid token always yields the numeric id that was checked. */
  lemma ValidTokenYieldsUserId(token: string, base64: Base64Decoder, json: JsonDecoder, isNumeric: Json -> bool)
    ensures IsValidToken(token, base64, json, isNumeric) <==>
      GetUserIdFromToken(token, base64, json).Some? && isNumeric(GetUserIdFromToken(token, base64, json).value)
  {
  }

  /** Any blob that encodes an object with a numeric `user_id` passes, with
      no signature at all: the legacy check proves nothing about its issuer. */
  lemma AnyNumericUserIdPasses(token: string, base64: Base64Decoder, json: JsonDecoder, isNumeric: Json -> bool, fields: map<string, Json>)
    requires json(base64(token)) == Some(JObject(fields))
    requires "user_id" in fields && fields["user_id"] != JNull && isNumeric(fields["user_id"])
    ensures IsValidToken(token, base64, json, isNumeric)
    ensures GetUserIdFromToken(token, base64, json) == Some(fields["user_id"])
  {
  }
}
