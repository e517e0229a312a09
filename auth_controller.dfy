/**
 * controllers/authController.js: client sign-up, login for every role, the
 * caller's own record, and the caller's profile update.
 *
 * bcrypt and jsonwebtoken are parameters: `passwordHash` is what
 * bcrypt.hash produced, `compare` is bcrypt.compare, and `sign` is jwt.sign
 * with the server's secret and expiry.
 */
module AuthController {
  import opened Common
  import opened ErrorHandler
  import Auth
  import Store

  const EmailUsedMessage := "Cet email est déjà utilisé"
  const BadCredentialsMessage := "Email ou mot de passe incorrect"
  const UserNotFoundMessage := "Utilisateur non trouvé"

  /** The profile a reply carries next to the user: none, a client's, or a driver's with its car (LEFT JOIN cars). */
  datatype ProfileView =
    | NoProfile
    | ClientView(client: Store.ClientProfile)
    | DriverView(driver: Store.DriverProfile, car: Option<Store.Car>)

  /** `data: { user, token }` of register and login. */
  datatype Session = Session(user: Auth.Identity, profile: ProfileView, token: string)

  /** getMe's row: the users columns and the profile the role's query joins. */
  datatype Me = Me(id: int, email: string, role: Role, profile: ProfileView)

  /** updateProfile echoes the four body fields it wrote. */
  datatype ProfileFields = ProfileFields(nom: Option<string>, prenom: Option<string>, telephone: Option<string>, residence: Option<string>)

  /** generateToken's payload: exactly the id, the email and the role. */
  function TokenPayload(id: int, user: Store.User): (claims: Auth.Identity)
    ensures claims.id == id && claims.email == user.email && claims.role == user.role
  {
    Auth.Identity(id, user.email, user.role)
  }

  /**
   * A token generateToken issued comes back through authenticate as the
   * same three claims, whenever jwt.verify decodes what jwt.sign encoded.
   */
  lemma IssuedTokenAuthenticates(id: int, user: Store.User, sign: Auth.Identity -> string, verify: string -> Auth.Verified)
    requires verify(sign(TokenPayload(id, user))) == Auth.Decoded(TokenPayload(id, user))
    ensures Auth.Authenticate(Some(Auth.BearerPrefix + sign(TokenPayload(id, user))), verify)
            == Auth.Proceed(Auth.Identity(id, user.email, user.role))
  {
    Auth.BearerRoundTrip(sign(TokenPayload(id, user)), verify);
  }

  /** The car a driver profile points at, when the LEFT JOIN finds it. */
  function CarOf(cars: map<int, Store.Car>, p: Store.DriverProfile): (car: Option<Store.Car>)
    ensures car.Some? <==> p.carId.Some? && p.carId.value in cars
    ensures car.Some? ==> car.value == cars[p.carId.value]
  {
    if p.carId.Some? && p.carId.value in cars then Some(cars[p.carId.value]) else None
  }

  /** The profile query by role: client_profiles for a client, driver_profiles for a driver, none for an admin. */
  function ProfileOf(db: Store.Database, id: int, role: Role): (v: ProfileView)
    reads db
    ensures role == Admin ==> v == NoProfile
    ensures v.ClientView? <==> role == Client && id in db.clients
    ensures v.ClientView? ==> v.client == db.clients[id]
    ensures v.DriverView? <==> role == Driver && id in db.drivers
    ensures v.DriverView? ==> v.driver == db.drivers[id] && v.car == CarOf(db.cars, db.drivers[id])
  {
    match role
    case Client => if id in db.clients then ClientView(db.clients[id]) else NoProfile
    case Driver => if id in db.drivers then DriverView(db.drivers[id], CarOf(db.cars, db.drivers[id])) else NoProfile
    case Admin => NoProfile
  }

  function ClientInsertViolation(nom: Option<string>, prenom: Option<string>, telephone: Option<string>): (v: Option<(string, string)>)
    ensures v.None? <==> nom.Some? && prenom.Some? && telephone.Some?
    ensures v.Some? ==> v.value.0 == Store.NotNullViolation
  {
    if nom.None? then Some((Store.NotNullViolation, Store.NotNullMessage("nom", "client_profiles")))
    else if prenom.None? then Some((Store.NotNullViolation, Store.NotNullMessage("prenom", "client_profiles")))
    else if telephone.None? then Some((Store.NotNullViolation, Store.NotNullMessage("telephone", "client_profiles")))
    else None
  }

  /**
   * registerClient: 409 when the email is taken, and nothing is written.
   * Otherwise a users row with role client and its client profile are
   * inserted in one transaction, and the reply carries a token for the new
   * user. A profile INSERT that fails rolls the user back too.
   */
  method RegisterClient(db: Store.Database, email: string, passwordHash: string, nom: Option<string>, prenom: Option<string>,
                        telephone: Option<string>, residence: Option<string>, sign: Auth.Identity -> string)
    returns (r: Reply<Session>)
    requires db.Valid()
    modifies db`users, db`clients, db`nextUserId
    ensures db.Valid()
    ensures Store.EmailTaken(old(db.users), email) ==> r == Err(409, EmailUsedMessage) && db.nextUserId == old(db.nextUserId)
    ensures !Store.EmailTaken(old(db.users), email) ==>
      && db.nextUserId == old(db.nextUserId) + 1
      && (var v := ClientInsertViolation(nom, prenom, telephone); v.Some? ==> r == ReplyToDbError(v.value.0, v.value.1))
    ensures r.Ok? <==> !Store.EmailTaken(old(db.users), email) && nom.Some? && prenom.Some? && telephone.Some?
    ensures r.Ok? ==>
      var id := old(db.nextUserId);
      var user := Store.User(email, passwordHash, Client);
      && id !in old(db.users) && r.value.user.role == Client
      && db.users == old(db.users)[id := user]
      && db.clients == old(db.clients)[id := Store.ClientProfile(nom.value, prenom.value, telephone.value, residence)]
      && r == Ok(201, Session(TokenPayload(id, user), ClientView(db.clients[id]), sign(TokenPayload(id, user))))
    ensures r.Err? ==> db.users == old(db.users) && db.clients == old(db.clients)
  {
    if Store.EmailTaken(db.users, email) {
      return Err(409, EmailUsedMessage);
    }
    var id := db.nextUserId;
    db.nextUserId := id + 1;
    var v := ClientInsertViolation(nom, prenom, telephone);
    if v.Some? {
      return ReplyToDbError(v.value.0, v.value.1);
    }
    var user := Store.User(email, passwordHash, Client);
    var profile := Store.ClientProfile(nom.value, prenom.value, telephone.value, residence);
    db.users := db.users[id := user];
    db.clients := db.clients[id := profile];
    var claims := TokenPayload(id, user);
    return Ok(201, Session(claims, ClientView(profile), sign(claims)));
  }

  /** Some account has this email and the password matches its hash. */
  predicate CredentialsMatch(users: map<int, Store.User>, email: string, password: string, compare: (string, string) -> bool)
  {
    exists u | u in users :: users[u].email == email && compare(password, users[u].passwordHash)
  }

  /**
   * login: an unknown email and a wrong password get the same 401 and the
   * same message; otherwise the token carries the account's id, email and
   * role, and the reply the profile chosen by the role.
   */
  method Login(db: Store.Database, email: string, password: string,
               compare: (string, string) -> bool, sign: Auth.Identity -> string)
    returns (r: Reply<Session>)
    requires db.Valid()
    ensures !CredentialsMatch(db.users, email, password, compare) ==> r == Err(401, BadCredentialsMessage)
    ensures r.Err? ==> r == Err(401, BadCredentialsMessage)
    ensures r.Ok? <==> CredentialsMatch(db.users, email, password, compare)
    ensures r.Ok? ==>
      var id := r.value.user.id;
      && id in db.users && db.users[id].email == email && r.value.user == TokenPayload(id, db.users[id])
      && r.value.token == sign(r.value.user)
      && r.value.profile == ProfileOf(db, id, db.users[id].role)
      && r.code == 200
  {
    if !Store.EmailTaken(db.users, email) {
      return Err(401, BadCredentialsMessage);
    }
    var id :| id in db.users && db.users[id].email == email;
    var user := db.users[id];
    if !compare(password, user.passwordHash) {
      return Err(401, BadCredentialsMessage);
    }
    var profile := NoProfile;
    if user.role == Client {
      if id in db.clients {
        profile := ClientView(db.clients[id]);
      }
    } else if user.role == Driver {
      if id in db.drivers {
        profile := DriverView(db.drivers[id], CarOf(db.cars, db.drivers[id]));
      }
    }
    var claims := TokenPayload(id, user);
    return Ok(200, Session(claims, profile, sign(claims)));
  }

  /**
   * getMe: the query the token's role picks (users joined with
   * client_profiles, with driver_profiles and cars, or users alone), and a
   * 404 when it finds no row.
   */
  method GetMe(db: Store.Database, me: Auth.Identity) returns (r: Reply<Me>)
    requires db.Valid()
    ensures r.Err? ==> r == Err(404, UserNotFoundMessage)
    ensures me.role == Client ==> (r.Ok? <==> me.id in db.users && me.id in db.clients)
    ensures me.role == Driver ==> (r.Ok? <==> me.id in db.users && me.id in db.drivers)
    ensures me.role == Admin ==> (r.Ok? <==> me.id in db.users)
    ensures r.Ok? ==>
      && me.id in db.users
      && r == Ok(200, Me(me.id, db.users[me.id].email, db.users[me.id].role, ProfileOf(db, me.id, me.role)))
  {
    if me.id !in db.users {
      return Err(404, UserNotFoundMessage);
    }
    var row := db.users[me.id];
    if me.role == Client && me.id !in db.clients {
      return Err(404, UserNotFoundMessage);
    }
    if me.role == Driver && me.id !in db.drivers {
      return Err(404, UserNotFoundMessage);
    }
    return Ok(200, Me(me.id, row.email, row.role, ProfileOf(db, me.id, me.role)));
  }

  /**
   * updateProfile: the table the caller's role names, the caller's row only,
   * every one of the four columns written from the body (an absent field
   * writes NULL); an admin writes nothing. A NULL in nom, prenom or
   * telephone fails their NOT NULL when a row matches, and the transaction
   * rolls back; with no matching row nothing happens and the reply is 200.
   */
  method UpdateProfile(db: Store.Database, me: Auth.Identity, nom: Option<string>, prenom: Option<string>,
                       telephone: Option<string>, residence: Option<string>)
    returns (r: Reply<ProfileFields>)
    requires db.Valid()
    modifies db`clients, db`drivers
    ensures db.Valid()
    ensures me.role == Admin ==> db.clients == old(db.clients) && db.drivers == old(db.drivers)
    ensures me.role == Client ==> db.drivers == old(db.drivers)
    ensures me.role == Driver ==> db.clients == old(db.clients)
    ensures (me.role == Client && me.id in old(db.clients)) || (me.role == Driver && me.id in old(db.drivers)) ==>
      && (nom.None? ==> r == ReplyToDbError(Store.NotNullViolation, Store.NotNullMessage("nom", if me.role == Client then "client_profiles" else "driver_profiles")))
      && (r.Ok? <==> nom.Some? && prenom.Some? && telephone.Some?)
    ensures r.Ok? ==> r == Ok(200, ProfileFields(nom, prenom, telephone, residence))
    ensures r.Ok? && me.role == Client && me.id in old(db.clients) ==>
      db.clients == old(db.clients)[me.id := Store.ClientProfile(nom.value, prenom.value, telephone.value, residence)]
    ensures r.Ok? && me.role == Driver && me.id in old(db.drivers) ==>
      db.drivers == old(db.drivers)[me.id := old(db.drivers)[me.id].(nom := nom.value, prenom := prenom.value,
                                                                      telephone := telephone.value, residence := residence)]
    ensures !(me.role == Client && me.id in old(db.clients)) && !(me.role == Driver && me.id in old(db.drivers)) ==>
      r == Ok(200, ProfileFields(nom, prenom, telephone, residence)) && db.clients == old(db.clients) && db.drivers == old(db.drivers)
    ensures r.Err? ==> db.clients == old(db.clients) && db.drivers == old(db.drivers)
  {
    var table := if me.role == Client then "client_profiles" else "driver_profiles";
    var matched := (me.role == Client && me.id in db.clients) || (me.role == Driver && me.id in db.drivers);
    if matched {
      if nom.None? {
        return ReplyToDbError(Store.NotNullViolation, Store.NotNullMessage("nom", table));
      }
      if prenom.None? {
        return ReplyToDbError(Store.NotNullViolation, Store.NotNullMessage("prenom", table));
      }
      if telephone.None? {
        return ReplyToDbError(Store.NotNullViolation, Store.NotNullMessage("telephone", table));
      }
      if me.role == Client {
        db.clients := db.clients[me.id := Store.ClientProfile(nom.value, prenom.value, telephone.value, residence)];
      } else {
        var p := db.drivers[me.id];
        var q := p.(nom := nom.value, prenom := prenom.value, telephone := telephone.value, residence := residence);
        Store.ReplaceDriverKeepsInvariants(db.users, db.drivers, db.cars, me.id, q);
        db.drivers := db.drivers[me.id := q];
      }
    }
    return Ok(200, ProfileFields(nom, prenom, telephone, residence));
  }
}
