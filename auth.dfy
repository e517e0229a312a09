/**
 * middleware/auth.js: `authenticate` reads the Authorization header, verifies
 * the bearer token and attaches `req.user`; `authorize(...roles)` admits a
 * request whose user has one of the roles.
 *
 * jsonwebtoken's verify is a foreign call; it is a parameter here, a total
 * function from the token text to what verification decided.
 */
module Auth {
  import opened Common

  /** `req.user` and the JWT payload: exactly an id, an email and a role. */
  datatype Identity = Identity(id: int, email: string, role: Role)

  /** The outcome of jwt.verify: the decoded payload, a TokenExpiredError, or any other failure. */
  datatype Verified = Decoded(claims: Identity) | Expired | Invalid

  /** A middleware's decision: continue with this user attached, or answer with a status and message. */
  datatype Outcome = Proceed(user: Identity) | Deny(status: int, message: string)

  const BearerPrefix := "Bearer "
  const MissingTokenMessage := "Token manquant ou format invalide"
  const ExpiredMessage := "Token expiré"
  const InvalidMessage := "Token invalide"
  const NotAuthenticatedMessage := "Non authentifié"
  const ForbiddenMessage := "Accès refusé : permissions insuffisantes"

  predicate StartsWith(s: string, prefix: string)
  {
    |prefix| <= |s| && s[..|prefix|] == prefix
  }

  /** `authHeader.substring(7)`: the header without its first seven characters. */
  function ExtractToken(header: string): (token: string)
    requires StartsWith(header, BearerPrefix)
    ensures BearerPrefix + token == header
  {
    header[|BearerPrefix|..]
  }

  function Authenticate(header: Option<string>, verify: string -> Verified): (o: Outcome)
    ensures header.None? || !StartsWith(header.value, BearerPrefix) ==> o == Deny(401, MissingTokenMessage)
    ensures o.Proceed? <==>
      header.Some? && StartsWith(header.value, BearerPrefix) && verify(ExtractToken(header.value)).Decoded?
    ensures o.Proceed? ==> o.user == verify(ExtractToken(header.value)).claims
    ensures header.Some? && StartsWith(header.value, BearerPrefix) && verify(ExtractToken(header.value)) == Expired ==>
      o == Deny(401, ExpiredMessage)
    ensures header.Some? && StartsWith(header.value, BearerPrefix) && verify(ExtractToken(header.value)) == Invalid ==>
      o == Deny(401, InvalidMessage)
  {
    if header.None? || !StartsWith(header.value, BearerPrefix) then Deny(401, MissingTokenMessage)
    else
      match verify(ExtractToken(header.value))
      case Decoded(c) => Proceed(Identity(c.id, c.email, c.role))
      case Expired => Deny(401, ExpiredMessage)
      case Invalid => Deny(401, InvalidMessage)
  }

  /** A header built as "Bearer " + t hands exactly t to the verifier. */
  lemma BearerRoundTrip(t: string, verify: string -> Verified)
    ensures StartsWith(BearerPrefix + t, BearerPrefix)
    ensures ExtractToken(BearerPrefix + t) == t
    ensures Authenticate(Some(BearerPrefix + t), verify) ==
      match verify(t)
      case Decoded(c) => Proceed(c)
      case Expired => Deny(401, ExpiredMessage)
      case Invalid => Deny(401, InvalidMessage)
  {
    assert (BearerPrefix + t)[..|BearerPrefix|] == BearerPrefix;
    assert (BearerPrefix + t)[|BearerPrefix|..] == t;
  }

  /** `authorize(...roles)`, with the user `authenticate` may have attached. */
  function Authorize(roles: seq<Role>, user: Option<Identity>): (o: Outcome)
    ensures user.None? ==> o == Deny(401, NotAuthenticatedMessage)
    ensures user.Some? && user.value.role !in roles ==> o == Deny(403, ForbiddenMessage)
    ensures o.Proceed? <==> user.Some? && user.value.role in roles
    ensures o.Proceed? ==> o.user == user.value
  {
    if user.None? then Deny(401, NotAuthenticatedMessage)
    else if user.value.role !in roles then Deny(403, ForbiddenMessage)
    else Proceed(user.value)
  }

  /** `router.use(authenticate); router.use(authorize(...roles))`: the guard every route of a router runs first. */
  function Guard(roles: seq<Role>, header: Option<string>, verify: string -> Verified): (o: Outcome)
    ensures o.Proceed? <==>
      Authenticate(header, verify).Proceed? && Authenticate(header, verify).user.role in roles
    ensures o.Proceed? ==> o.user == Authenticate(header, verify).user
    ensures Authenticate(header, verify).Deny? ==> o == Authenticate(header, verify)
    ensures o.Deny? ==> o.status == 401 || o.status == 403
  {
    match Authenticate(header, verify)
    case Deny(s, m) => Deny(s, m)
    case Proceed(u) => Authorize(roles, Some(u))
  }
}
