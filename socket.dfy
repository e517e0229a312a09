/**
 * config/socket.js: the module-level socket.io server. The handshake
 * middleware reads the token and attaches the user to the socket; on
 * connection the socket joins its rooms; `update_location` stores a driver's
 * position and forwards it to the client of that driver's ride.
 *
 * The server is a Hub: which connections are open, with what identity, in
 * which rooms, and every event emitted so far. An event records the
 * connections it reached when it was emitted, since `io.to(room).emit`
 * delivers to the room's members at that instant and to nobody later.
 */
module Socket {
  import opened Common
  import Auth
  import Store

  type ConnId = int

  /** `driver_position` carries the position as the driver sent it, not as stored, and the time it was relayed. */
  datatype EventKind = NewRideRequest | RideAccepted | StatusChanged | DriverPosition(lat: real, long: real, timestamp: Timestamp) | SocketError

  datatype Target = ToRoom(room: Room) | ToSocket(conn: ConnId)

  datatype Event = Event(target: Target, kind: EventKind, rideId: Option<int>, message: string, recipients: set<ConnId>)

  const MissingTokenError := "Token manquant"
  const InvalidTokenError := "Token invalide"
  const DriversOnlyError := "Seuls les chauffeurs peuvent envoyer leur position"
  /** What JavaScript throws at `io.to(...)` in a handler whose `req.io` is undefined. */
  const IoUndefinedError := "Cannot read properties of undefined (reading 'to')"
  const NotInitializedError := "Socket.io n'est pas initialisé. Appelez initializeSocket() d'abord."

  /** The rooms a connection joins: its own `user_<id>`, plus `drivers` for a driver and `clients` for a client. */
  function RoomsFor(user: Auth.Identity): (rooms: set<Room>)
    ensures UserRoom(user.id) in rooms
    ensures DriversRoom in rooms <==> user.role == Driver
    ensures ClientsRoom in rooms <==> user.role == Client
    ensures forall id :: UserRoom(id) in rooms ==> id == user.id
  {
    {UserRoom(user.id)}
    + (if user.role == Driver then {DriversRoom} else {})
    + (if user.role == Client then {ClientsRoom} else {})
  }

  /** An admin's connection sits in its personal room alone. */
  lemma AdminJoinsOnlyItsRoom(user: Auth.Identity)
    requires user.role == Admin
    ensures RoomsFor(user) == {UserRoom(user.id)}
  {
    var rooms := RoomsFor(user);
    forall r | r in rooms ensures r == UserRoom(user.id) {
      match r
      case UserRoom(id) =>
      case DriversRoom =>
      case ClientsRoom =>
    }
  }

  /** The handshake middleware: a token that is absent or "" is missing; anything jwt.verify does not decode is invalid. */
  function Handshake(token: Option<string>, verify: string -> Auth.Verified): (r: Reply<Auth.Identity>)
    ensures token.None? || token == Some("") ==> r == Err(401, MissingTokenError)
    ensures r.Ok? <==> token.Some? && token.value != "" && verify(token.value).Decoded?
    ensures r.Ok? ==> r.value == verify(token.value).claims
    ensures token.Some? && token.value != "" && !verify(token.value).Decoded? ==> r == Err(401, InvalidTokenError)
  {
    if token.None? || token.value == "" then Err(401, MissingTokenError)
    else
      match verify(token.value)
      case Decoded(c) => Ok(200, Auth.Identity(c.id, c.email, c.role))
      case _ => Err(401, InvalidTokenError)
  }

  class Hub {
    var initialized: bool
    var identities: map<ConnId, Auth.Identity>
    var rooms: map<ConnId, set<Room>>
    var log: seq<Event>

    predicate Valid()
      reads this
    {
      identities.Keys == rooms.Keys
      && forall c | c in rooms :: rooms[c] == RoomsFor(identities[c])
    }

    /** The connections in a room right now. */
    function MembersOf(room: Room): (members: set<ConnId>)
      reads this
      ensures forall c :: c in members <==> c in rooms && room in rooms[c]
    {
      set c | c in rooms && room in rooms[c]
    }

    function Reached(target: Target): (reached: set<ConnId>)
      reads this
    {
      match target
      case ToRoom(room) => MembersOf(room)
      case ToSocket(c) => if c in rooms then {c} else {}
    }

    /** Before initializeSocket runs, `io` is undefined. */
    constructor ()
      ensures Valid() && !initialized
      ensures identities == map[] && rooms == map[] && log == []
    {
      initialized := false;
      identities, rooms, log := map[], map[], [];
    }

    /** initializeSocket: a new server, with no connection yet. */
    method Initialize()
      modifies this
      ensures Valid() && initialized
      ensures identities == map[] && rooms == map[] && log == old(log)
    {
      initialized := true;
      identities, rooms := map[], map[];
    }

    /** getIO: the server once initializeSocket has run, an error before. */
    method GetIO() returns (r: Reply<bool>)
      ensures r.Ok? <==> initialized
      ensures r.Err? ==> r == Err(500, NotInitializedError)
    {
      if !initialized {
        return Err(500, NotInitializedError);
      }
      return Ok(200, true);
    }

    /** `io.to(room).emit(...)` or `socket.emit(...)`: one event, delivered to who is reached now. */
    method Emit(target: Target, kind: EventKind, rideId: Option<int>, message: string)
      modifies this`log
      ensures log == old(log) + [Event(target, kind, rideId, message, Reached(target))]
    {
      log := log + [Event(target, kind, rideId, message, Reached(target))];
    }

    /**
     * A socket's handshake and, when it is accepted, the `connection`
     * handler's joins. socket.io never reuses a connection id.
     */
    method Connect(conn: ConnId, token: Option<string>, verify: string -> Auth.Verified) returns (r: Reply<Auth.Identity>)
      requires Valid() && conn !in identities
      modifies this`identities, this`rooms
      ensures Valid()
      ensures r == Handshake(token, verify)
      ensures r.Ok? ==> identities == old(identities)[conn := r.value] && rooms == old(rooms)[conn := RoomsFor(r.value)]
      ensures r.Err? ==> identities == old(identities) && rooms == old(rooms)
    {
      r := Handshake(token, verify);
      if r.Ok? {
        identities := identities[conn := r.value];
        var joined := {UserRoom(r.value.id)};
        if r.value.role == Driver {
          joined := joined + {DriversRoom};
        }
        if r.value.role == Client {
          joined := joined + {ClientsRoom};
        }
        rooms := rooms[conn := joined];
      }
    }

    /** socket.io drops a closed connection from every room; the source's own handler only logs. */
    method Disconnect(conn: ConnId)
      requires Valid()
      modifies this`identities, this`rooms
      ensures Valid()
      ensures identities == old(identities) - {conn} && rooms == old(rooms) - {conn}
    {
      identities := identities - {conn};
      rooms := rooms - {conn};
    }

    /**
     * `update_location` from a connected socket. A non-driver gets an error
     * event back and nothing is stored. A driver's lat/long, to eight
     * places, and the time of the update go into its own profile (if it has
     * one); then, when some ride has this driver and is accepted, arrived or
     * in progress, the position goes to that ride's client room. Which of
     * several such rides is picked is the database's choice (`LIMIT 1`
     * without an order). A position too large for its columns makes the
     * UPDATE fail; the handler's catch only logs it, so nothing is stored
     * and nothing is sent.
     */
    method UpdateLocation(conn: ConnId, lat: real, long: real, db: Store.Database, now: Timestamp)
      requires Valid() && db.Valid() && conn in identities
      modifies this`log, db`drivers
      ensures Valid() && db.Valid()
      ensures identities[conn].role != Driver ==>
        db.drivers == old(db.drivers)
        && log == old(log) + [Event(ToSocket(conn), SocketError, None, DriversOnlyError, {conn})]
      ensures identities[conn].role == Driver ==>
        var me := identities[conn].id;
        var overflow := me in old(db.drivers) && !Store.PositionFits(lat, long);
        && (overflow ==> db.drivers == old(db.drivers) && log == old(log))
        && (me in old(db.drivers) && !overflow ==>
              db.drivers == old(db.drivers)[me := old(db.drivers)[me].(position := Some(Store.Position(Store.StoredCoordinate(lat), Store.StoredCoordinate(long))),
                                                                     locatedAt := Some(now))])
        && (me !in old(db.drivers) ==> db.drivers == old(db.drivers))
        && (!overflow && !Following(db.rides, me) ==> log == old(log))
        && (!overflow && Following(db.rides, me) ==>
              exists r | r in db.rides && Follows(db.rides[r], me) ::
                log == old(log) + [Event(ToRoom(UserRoom(db.rides[r].clientId)), DriverPosition(lat, long, now), None, "",
                                         MembersOf(UserRoom(db.rides[r].clientId)))])
    {
      var user := identities[conn];
      if user.role != Driver {
        Emit(ToSocket(conn), SocketError, None, DriversOnlyError);
        return;
      }
      if user.id in db.drivers {
        if !Store.PositionFits(lat, long) {
          return;
        }
        StorePosition(db, user.id, lat, long, now);
      }
      if Following(db.rides, user.id) {
        var r :| r in db.rides && Follows(db.rides[r], user.id);
        Emit(ToRoom(UserRoom(db.rides[r].clientId)), DriverPosition(lat, long, now), None, "");
      }
    }
  }

  /** `UPDATE driver_profiles SET current_lat, current_long, last_location_update`: only the position, to eight places, and its time change. */
  method StorePosition(db: Store.Database, me: int, lat: real, long: real, now: Timestamp)
    requires db.Valid() && me in db.drivers
    modifies db`drivers
    ensures db.Valid()
    ensures db.drivers == old(db.drivers)[me := old(db.drivers)[me].(position := Some(Store.Position(Store.StoredCoordinate(lat), Store.StoredCoordinate(long))),
                                                                     locatedAt := Some(now))]
  {
    var p := db.drivers[me];
    var q := p.(position := Some(Store.Position(Store.StoredCoordinate(lat), Store.StoredCoordinate(long))), locatedAt := Some(now));
    assert q.carId.Some? ==> !Store.CarHeld(db.drivers, q.carId.value, Some(me));
    Store.ReplaceDriverKeepsInvariants(db.users, db.drivers, db.cars, me, q);
    db.drivers := db.drivers[me := q];
  }

  /** The ride has this driver and is accepted, arrived or in progress. */
  predicate Follows(ride: Store.Ride, driver: int)
  {
    ride.driverId == Some(driver) && (ride.status == Accepted || ride.status == Arrived || ride.status == InProgress)
  }

  predicate Following(rides: map<int, Store.Ride>, driver: int)
  {
    exists r | r in rides :: Follows(rides[r], driver)
  }
}
