/**
 * controllers/clientController.js: a client requests a ride, follows its
 * active ride, reads its history, rates a completed ride and cancels one
 * that has not started.
 *
 * Every handler takes the shared database and the socket server; `attached`
 * says whether `req.io` is set on the request, since the handlers test it
 * (or not) before notifying. `now` is CURRENT_TIMESTAMP and `distance` is
 * the haversine distance of the trip, computed outside the model.
 */
module ClientController {
  import opened Common
  import opened ErrorHandler
  import Store
  import Socket
  import Pagination
  import Validation

  const BasePrice: real := 500.0
  const PricePerKm: real := 200.0

  const ActiveRideMessage := "Vous avez déjà une course en cours"
  const RideNotFoundMessage := "Course non trouvée"
  const NotCompletedMessage := "Vous ne pouvez noter qu'une course terminée"
  const NotCancellableMessage := "Cette course ne peut plus être annulée (trajet déjà commencé ou terminé)"

  /** What JavaScript throws when cancelRide reads the unbound `profile`. */
  const ProfileUndefinedError := "profile is not defined"

  /** `500 + (distance * 200)`. */
  function EstimatedPrice(distance: real): (price: real)
    requires distance >= 0.0
    ensures price >= BasePrice
  {
    BasePrice + distance * PricePerKm
  }

  /** A longer trip never costs less, and a dearer one was never shorter. */
  lemma PriceFollowsDistance(d1: real, d2: real)
    requires d1 >= 0.0 && d2 >= 0.0
    ensures d1 <= d2 <==> EstimatedPrice(d1) <= EstimatedPrice(d2)
  {
  }

  /** The price a ride keeps, in cents: at least the base fare, and never lower for a longer trip. */
  lemma StoredPriceFollowsDistance(d1: real, d2: real)
    requires 0.0 <= d1 <= d2
    ensures BasePrice <= Store.StoredCents(EstimatedPrice(d1)) <= Store.StoredCents(EstimatedPrice(d2))
  {
    var t1, t2 := EstimatedPrice(d1) * 100.0, EstimatedPrice(d2) * 100.0;
    assert 50000.0 <= t1 <= t2;
    assert 50000 <= (t1 + 0.5).Floor <= (t2 + 0.5).Floor;
  }

  /**
   * `${profile?.prenom || 'Client'} ${profile?.nom || ''}`.trim(): the name
   * the drivers see; an empty or missing first name reads "Client".
   */
  function ClientName(clients: map<int, Store.ClientProfile>, client: int): (name: string)
    ensures client !in clients ==> name == "Client"
    ensures client in clients && clients[client].prenom == "" && clients[client].nom == "" ==> name == "Client"
    ensures |name| > 0 ==> !Validation.IsSpace(name[0]) && !Validation.IsSpace(name[|name| - 1])
  {
    var first := if client in clients && clients[client].prenom != "" then clients[client].prenom else "Client";
    var last := if client in clients then clients[client].nom else "";
    if first == "Client" && last == "" then
      TrimmedDefaultName();
      "Client"
    else
      Validation.TrimSpaces(first + " " + last)
  }

  lemma TrimmedDefaultName()
    ensures Validation.TrimSpaces("Client" + " " + "") == "Client"
  {
    var s := "Client" + " " + "";
    assert s == "Client ";
    assert !Validation.IsSpace(s[0]);
    assert Validation.TrimStart(s) == s;
    assert Validation.IsSpace(s[|s| - 1]);
    assert s[..|s| - 1] == "Client";
    var t := "Client";
    assert !Validation.IsSpace(t[|t| - 1]);
    assert Validation.TrimEnd(t) == t;
  }

  predicate ActiveFor(ride: Store.Ride, client: int)
  {
    ride.clientId == client && IsActive(ride.status)
  }

  predicate InHistoryOf(ride: Store.Ride, client: int)
  {
    ride.clientId == client && IsFinished(ride.status)
  }

  /** The rows `WHERE client_id = $1 AND status IN ('completed', 'cancelled')` selects. */
  function HistoryOf(rides: map<int, Store.Ride>, client: int): (ids: set<int>)
    ensures forall r :: r in ids <==> r in rides && InHistoryOf(rides[r], client)
  {
    set r | r in rides && InHistoryOf(rides[r], client)
  }

  /**
   * requestRide: refused while the client has an active ride; otherwise a
   * pending ride with no driver is inserted at the estimated price, which
   * the DECIMAL(10, 2) column keeps in whole cents, and, when
   * `req.io` is set, `new_ride_request` goes to the `drivers` room. A token
   * whose user no longer exists fails the client_id foreign key.
   */
  method RequestRide(db: Store.Database, io: Socket.Hub, attached: bool, me: int,
                     pickup: Store.Place, destination: Store.Place, distance: real, now: Timestamp)
    returns (r: Reply<int>)
    requires db.Valid() && io.Valid() && distance >= 0.0
    modifies db`rides, db`nextRideId, io`log
    ensures db.Valid() && io.Valid()
    ensures Store.HasActiveRideAsClient(old(db.rides), me) ==>
      r == Err(400, ActiveRideMessage) && db.rides == old(db.rides) && db.nextRideId == old(db.nextRideId) && io.log == old(io.log)
    ensures !Store.HasActiveRideAsClient(old(db.rides), me) && me !in db.users ==>
      && r == ReplyToDbError(ForeignKeyViolation, Store.ForeignKeyMessage) && db.rides == old(db.rides) && io.log == old(io.log)
      && db.nextRideId == old(db.nextRideId) + 1
    ensures r.Ok? ==>
      && !Store.HasActiveRideAsClient(old(db.rides), me) && me in db.users
      && r == Ok(201, old(db.nextRideId)) && r.value !in old(db.rides)
      && db.rides == old(db.rides)[r.value := Store.Ride(me, None, Store.StoredPlace(pickup), Store.StoredPlace(destination),
                                                        Store.StoredCents(EstimatedPrice(distance)), Pending, None, None, now, now, None)]
      && db.nextRideId == old(db.nextRideId) + 1
      && io.log == old(io.log) + (if attached then [Socket.Event(Socket.ToRoom(DriversRoom), Socket.NewRideRequest, Some(r.value),
                                                                 ClientName(db.clients, me), io.MembersOf(DriversRoom))]
                                  else [])
    ensures r.Err? ==> db.rides == old(db.rides) && io.log == old(io.log)
    ensures !Store.HasActiveRideAsClient(old(db.rides), me) && me in db.users ==> r.Ok?
  {
    if Store.HasActiveRideAsClient(db.rides, me) {
      return Err(400, ActiveRideMessage);
    }
    if me !in db.users {
      // The INSERT draws its id before the foreign key is checked.
      db.nextRideId := db.nextRideId + 1;
      return ReplyToDbError(ForeignKeyViolation, Store.ForeignKeyMessage);
    }
    var id := db.nextRideId;
    var ride := Store.Ride(me, None, Store.StoredPlace(pickup), Store.StoredPlace(destination),
                           Store.StoredCents(EstimatedPrice(distance)), Pending, None, None, now, now, None);
    db.rides := db.rides[id := ride];
    db.nextRideId := id + 1;
    if attached {
      io.Emit(Socket.ToRoom(DriversRoom), Socket.NewRideRequest, Some(id), ClientName(db.clients, me));
    }
    return Ok(201, id);
  }

  /**
   * getActiveRide: the client's most recently created ride that is pending,
   * accepted, arrived or in progress (`ORDER BY created_at DESC LIMIT 1`),
   * or none. Among rides created at the same instant the database may return
   * any; this one returns the lowest id.
   */
  method GetActiveRide(db: Store.Database, me: int) returns (r: Option<int>)
    requires db.Valid()
    ensures r.None? <==> !Store.HasActiveRideAsClient(db.rides, me)
    ensures r.Some? ==> r.value in db.rides && ActiveFor(db.rides[r.value], me)
    ensures r.Some? ==> forall k | k in db.rides && ActiveFor(db.rides[k], me) :: db.rides[k].createdAt <= db.rides[r.value].createdAt
  {
    r := None;
    var i := 1;
    while i < db.nextRideId
      invariant 1 <= i
      invariant r.None? ==> forall k | k in db.rides && k < i :: !ActiveFor(db.rides[k], me)
      invariant r.Some? ==> r.value in db.rides && ActiveFor(db.rides[r.value], me)
      invariant r.Some? ==> forall k | k in db.rides && k < i && ActiveFor(db.rides[k], me) ::
        db.rides[k].createdAt <= db.rides[r.value].createdAt
      decreases db.nextRideId - i
    {
      if i in db.rides && ActiveFor(db.rides[i], me) {
        if r.None? || db.rides[i].createdAt > db.rides[r.value].createdAt {
          r := Some(i);
        }
      }
      i := i + 1;
    }
    if r.None? {
      forall k | k in db.rides
        ensures !ActiveFor(db.rides[k], me)
      {
        assert k < db.nextRideId <= i;
      }
    }
  }

  /**
   * getRideHistory: the client's completed and cancelled rides, newest
   * first, one page of them, with the COUNT(*) total and total_pages.
   * Callers come through the history route, whose rules guarantee page >= 1
   * and limit in 1..100.
   */
  method GetRideHistory(db: Store.Database, me: int, page: int, limit: int) returns (rows: seq<int>, total: nat, pages: nat)
    requires db.Valid() && page >= 1 && limit >= 1
    ensures total == |HistoryOf(db.rides, me)| && pages == Pagination.TotalPages(total, limit)
    ensures exists ordered :: Pagination.ListsDescending(ordered, HistoryOf(db.rides, me)) && rows == Pagination.Page(ordered, page, limit)
    ensures forall x | x in rows :: x in db.rides && InHistoryOf(db.rides[x], me)
  {
    Pagination.AcceptedIff(page, limit);
    var json;
    rows, total, json := Pagination.ListPage(HistoryOf(db.rides, me), db.nextRideId, page, limit);
    pages := json.value;
  }

  /**
   * rateRide: only the client's own ride (404 otherwise), only once it is
   * completed (400 otherwise); any earlier score and comment are replaced.
   */
  method RateRide(db: Store.Database, me: int, rideId: int, rating: int, comment: Option<string>, now: Timestamp)
    returns (r: Reply<int>)
    requires db.Valid()
    modifies db`rides
    ensures db.Valid()
    ensures rideId !in old(db.rides) || old(db.rides)[rideId].clientId != me ==>
      r == Err(404, RideNotFoundMessage) && db.rides == old(db.rides)
    ensures rideId in old(db.rides) && old(db.rides)[rideId].clientId == me && old(db.rides)[rideId].status != Completed ==>
      r == Err(400, NotCompletedMessage) && db.rides == old(db.rides)
    ensures rideId in old(db.rides) && old(db.rides)[rideId].clientId == me && old(db.rides)[rideId].status == Completed ==>
      r == Ok(200, rideId)
      && db.rides == old(db.rides)[rideId := old(db.rides)[rideId].(score := Some(rating), comment := comment, updatedAt := now)]
  {
    if rideId !in db.rides || db.rides[rideId].clientId != me {
      return Err(404, RideNotFoundMessage);
    }
    if db.rides[rideId].status != Completed {
      return Err(400, NotCompletedMessage);
    }
    db.rides := db.rides[rideId := db.rides[rideId].(score := Some(rating), comment := comment, updatedAt := now)];
    return Ok(200, rideId);
  }

  /** cancelRide's `['pending', 'accepted'].includes(ride.status)`. */
  predicate Cancellable(s: RideStatus)
  {
    s == Pending || s == Accepted
  }

  /**
   * cancelRide as the code reads: after the guards and the UPDATE, the
   * notification dereferences `req.io` (a TypeError when it is unset) and
   * then the unbound `profile` (a ReferenceError), so the error handler
   * answers 500 although the ride is cancelled, and nothing is emitted.
   */
  method CancelRideAsWritten(db: Store.Database, io: Socket.Hub, attached: bool, me: int, rideId: int, now: Timestamp)
    returns (r: Reply<int>)
    requires db.Valid() && io.Valid()
    modifies db`rides
    ensures db.Valid() && io.Valid()
    ensures rideId !in old(db.rides) || old(db.rides)[rideId].clientId != me ==>
      r == Err(404, RideNotFoundMessage) && db.rides == old(db.rides)
    ensures rideId in old(db.rides) && old(db.rides)[rideId].clientId == me && !Cancellable(old(db.rides)[rideId].status) ==>
      r == Err(400, NotCancellableMessage) && db.rides == old(db.rides)
    ensures rideId in old(db.rides) && old(db.rides)[rideId].clientId == me && Cancellable(old(db.rides)[rideId].status) ==>
      && r == Err(500, if attached then ProfileUndefinedError else Socket.IoUndefinedError)
      && db.rides == old(db.rides)[rideId := old(db.rides)[rideId].(status := Cancelled, updatedAt := now)]
  {
    if rideId !in db.rides || db.rides[rideId].clientId != me {
      return Err(404, RideNotFoundMessage);
    }
    if !Cancellable(db.rides[rideId].status) {
      return Err(400, NotCancellableMessage);
    }
    db.rides := db.rides[rideId := db.rides[rideId].(status := Cancelled, updatedAt := now)];
    if !attached {
      return ReplyToThrown(Thrown(None, None, Some(Socket.IoUndefinedError)));
    }
    return ReplyToThrown(Thrown(None, None, Some(ProfileUndefinedError)));
  }

  /**
   * cancelRide as evidently intended: the same guards and UPDATE, then the
   * notification to the `drivers` room the code attempts, under requestRide's
   * `if (req.io)` guard and with the client's name looked up, and the 200.
   */
  method CancelRide(db: Store.Database, io: Socket.Hub, attached: bool, me: int, rideId: int, now: Timestamp)
    returns (r: Reply<int>)
    requires db.Valid() && io.Valid()
    modifies db`rides, io`log
    ensures db.Valid() && io.Valid()
    ensures rideId !in old(db.rides) || old(db.rides)[rideId].clientId != me ==>
      r == Err(404, RideNotFoundMessage) && db.rides == old(db.rides) && io.log == old(io.log)
    ensures rideId in old(db.rides) && old(db.rides)[rideId].clientId == me && !Cancellable(old(db.rides)[rideId].status) ==>
      r == Err(400, NotCancellableMessage) && db.rides == old(db.rides) && io.log == old(io.log)
    ensures rideId in old(db.rides) && old(db.rides)[rideId].clientId == me && Cancellable(old(db.rides)[rideId].status) ==>
      && r == Ok(200, rideId)
      && db.rides == old(db.rides)[rideId := old(db.rides)[rideId].(status := Cancelled, updatedAt := now)]
      && io.log == old(io.log) + (if attached then [Socket.Event(Socket.ToRoom(DriversRoom), Socket.NewRideRequest, Some(rideId),
                                                                 ClientName(db.clients, me), io.MembersOf(DriversRoom))]
                                  else [])
  {
    if rideId !in db.rides || db.rides[rideId].clientId != me {
      return Err(404, RideNotFoundMessage);
    }
    if !Cancellable(db.rides[rideId].status) {
      return Err(400, NotCancellableMessage);
    }
    db.rides := db.rides[rideId := db.rides[rideId].(status := Cancelled, updatedAt := now)];
    if attached {
      io.Emit(Socket.ToRoom(DriversRoom), Socket.NewRideRequest, Some(rideId), ClientName(db.clients, me));
    }
    return Ok(200, rideId);
  }
}
