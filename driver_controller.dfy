/**
 * controllers/driverController.js: a driver goes online or offline, accepts
 * a pending ride, moves an assigned ride through arrived, in progress and
 * completed, and reads its past rides.
 *
 * updateRideStatus checks the target and the assignment, never the ride's
 * current status, so a completed or cancelled ride can be set back to
 * `arrived`.
 */
module DriverController {
  import opened Common
  import opened ErrorHandler
  import Store
  import Socket
  import Pagination

  const RideNotFoundMessage := "Course non trouvée"
  const NoLongerAvailableMessage := "Cette course n'est plus disponible"
  const AcceptedNotice := "Un chauffeur a accepté votre course !"
  const InvalidTargetMessage := "Statut invalide. Valeurs acceptées: arrived, in_progress, completed"
  const NotAssignedMessage := "Course non trouvée ou vous n'êtes pas assigné à cette course"

  const ArrivedNotice := "Votre chauffeur est arrivé au point de départ !"
  const StartedNotice := "Votre trajet a commencé"
  const CompletedNotice := "Votre trajet est terminé. Merci d'avoir utilisé TaxiTrack !"
  const FallbackNotice := "Statut de la course mis à jour"

  /** updateOnlineStatus: `UPDATE driver_profiles SET is_online = $1 WHERE user_id = $2`, always answered with success. */
  method UpdateOnlineStatus(db: Store.Database, me: int, online: bool) returns (r: Reply<bool>)
    requires db.Valid()
    modifies db`drivers
    ensures db.Valid()
    ensures r == Ok(200, online)
    ensures me in old(db.drivers) ==> db.drivers == old(db.drivers)[me := old(db.drivers)[me].(online := online)]
    ensures me !in old(db.drivers) ==> db.drivers == old(db.drivers)
  {
    if me in db.drivers {
      var p := db.drivers[me].(online := online);
      Store.AssignKeepsOneDriverPerCar(db.drivers, me, p);
      db.drivers := db.drivers[me := p];
    }
    return Ok(200, online);
  }

  /**
   * acceptRide: 404 for an unknown ride, 400 unless it is exactly pending;
   * otherwise the caller becomes its driver and it is accepted. The client's
   * room hears `ride_accepted` when `req.io` is set and the caller has a
   * driver profile. A caller whose user row is gone fails the driver_id
   * foreign key and the transaction is rolled back.
   */
  method AcceptRide(db: Store.Database, io: Socket.Hub, attached: bool, me: int, rideId: int, now: Timestamp)
    returns (r: Reply<int>)
    requires db.Valid() && io.Valid()
    modifies db`rides, io`log
    ensures db.Valid() && io.Valid()
    ensures rideId !in old(db.rides) ==> r == Err(404, RideNotFoundMessage) && db.rides == old(db.rides) && io.log == old(io.log)
    ensures rideId in old(db.rides) && old(db.rides)[rideId].status != Pending ==>
      r == Err(400, NoLongerAvailableMessage) && db.rides == old(db.rides) && io.log == old(io.log)
    ensures rideId in old(db.rides) && old(db.rides)[rideId].status == Pending && me !in db.users ==>
      r == ReplyToDbError(ForeignKeyViolation, Store.ForeignKeyMessage) && db.rides == old(db.rides) && io.log == old(io.log)
    ensures rideId in old(db.rides) && old(db.rides)[rideId].status == Pending && me in db.users ==>
      var client := old(db.rides)[rideId].clientId;
      && r == Ok(200, rideId)
      && db.rides == old(db.rides)[rideId := old(db.rides)[rideId].(driverId := Some(me), status := Accepted, updatedAt := now)]
      && io.log == old(io.log) + (if attached && me in db.drivers
                                  then [Socket.Event(Socket.ToRoom(UserRoom(client)), Socket.RideAccepted, Some(rideId),
                                                     AcceptedNotice, io.MembersOf(UserRoom(client)))]
                                  else [])
  {
    if rideId !in db.rides {
      return Err(404, RideNotFoundMessage);
    }
    if db.rides[rideId].status != Pending {
      return Err(400, NoLongerAvailableMessage);
    }
    if me !in db.users {
      return ReplyToDbError(ForeignKeyViolation, Store.ForeignKeyMessage);
    }
    var client := db.rides[rideId].clientId;
    db.rides := db.rides[rideId := db.rides[rideId].(driverId := Some(me), status := Accepted, updatedAt := now)];
    if attached && me in db.drivers {
      io.Emit(Socket.ToRoom(UserRoom(client)), Socket.RideAccepted, Some(rideId), AcceptedNotice);
    }
    return Ok(200, rideId);
  }

  /** `validStatuses = ['arrived', 'in_progress', 'completed']`, read as statuses. */
  predicate IsTarget(s: RideStatus)
  {
    s == Arrived || s == InProgress || s == Completed
  }

  /** `validStatuses.includes(status)`: the target a request body names, if it is one of the three. */
  function ParseTarget(text: string): (t: Option<RideStatus>)
    ensures t.Some? ==> IsTarget(t.value) && StatusName(t.value) == text
    ensures forall s | IsTarget(s) :: text == StatusName(s) ==> t == Some(s)
  {
    match ParseStatus(text)
    case Some(s) => if IsTarget(s) then Some(s) else None
    case None => None
  }

  /** The `messages` table, with its fallback for a status it does not list. */
  function StatusNotice(status: string): (notice: string)
    ensures notice == FallbackNotice <==> ParseTarget(status).None?
  {
    match ParseTarget(status)
    case Some(Arrived) => ArrivedNotice
    case Some(InProgress) => StartedNotice
    case Some(Completed) => CompletedNotice
    case _ => FallbackNotice
  }

  /** Each target has its own notice, so the client can tell which transition happened. */
  lemma StatusNoticesDistinct(a: RideStatus, b: RideStatus)
    requires IsTarget(a) && IsTarget(b) && StatusNotice(StatusName(a)) == StatusNotice(StatusName(b))
    ensures a == b
  {
    ParseStatusName(a);
    ParseStatusName(b);
  }

  /** The row updateRideStatus writes: completed_at only moves for `completed`. */
  function WithStatus(ride: Store.Ride, t: RideStatus, now: Timestamp): (updated: Store.Ride)
    ensures updated.status == t && updated.updatedAt == now
    ensures t == Completed ==> updated.completedAt == Some(now)
    ensures t != Completed ==> updated.completedAt == ride.completedAt
    ensures updated.(status := ride.status, updatedAt := ride.updatedAt, completedAt := ride.completedAt) == ride
  {
    if t == Completed then ride.(status := t, completedAt := Some(now), updatedAt := now)
    else ride.(status := t, updatedAt := now)
  }

  /**
   * updateRideStatus as the code reads: after the UPDATE it calls
   * `io.to(...)` with no `if (io)` check, so without `req.io` the error
   * handler answers 500 although the status has changed.
   */
  method UpdateRideStatusAsWritten(db: Store.Database, io: Socket.Hub, attached: bool, me: int, rideId: int,
                                   status: string, now: Timestamp)
    returns (r: Reply<RideStatus>)
    requires db.Valid() && io.Valid()
    modifies db`rides, io`log
    ensures db.Valid() && io.Valid()
    ensures ParseTarget(status).None? ==> r == Err(400, InvalidTargetMessage) && db.rides == old(db.rides) && io.log == old(io.log)
    ensures ParseTarget(status).Some? && (rideId !in old(db.rides) || old(db.rides)[rideId].driverId != Some(me)) ==>
      r == Err(404, NotAssignedMessage) && db.rides == old(db.rides) && io.log == old(io.log)
    ensures ParseTarget(status).Some? && rideId in old(db.rides) && old(db.rides)[rideId].driverId == Some(me) && !attached ==>
      && r == Err(500, Socket.IoUndefinedError)
      && db.rides == old(db.rides)[rideId := WithStatus(old(db.rides)[rideId], ParseTarget(status).value, now)]
      && io.log == old(io.log)
    ensures ParseTarget(status).Some? && rideId in old(db.rides) && old(db.rides)[rideId].driverId == Some(me) && attached ==>
      var client := old(db.rides)[rideId].clientId;
      && r == Ok(200, ParseTarget(status).value)
      && db.rides == old(db.rides)[rideId := WithStatus(old(db.rides)[rideId], ParseTarget(status).value, now)]
      && io.log == old(io.log) + [Socket.Event(Socket.ToRoom(UserRoom(client)), Socket.StatusChanged, Some(rideId),
                                               StatusNotice(status), io.MembersOf(UserRoom(client)))]
  {
    var target := ParseTarget(status);
    if target.None? {
      return Err(400, InvalidTargetMessage);
    }
    if rideId !in db.rides || db.rides[rideId].driverId != Some(me) {
      return Err(404, NotAssignedMessage);
    }
    var client := db.rides[rideId].clientId;
    db.rides := db.rides[rideId := WithStatus(db.rides[rideId], target.value, now)];
    if !attached {
      return ReplyToThrown(Thrown(None, None, Some(Socket.IoUndefinedError)));
    }
    io.Emit(Socket.ToRoom(UserRoom(client)), Socket.StatusChanged, Some(rideId), StatusNotice(status));
    return Ok(200, target.value);
  }

  /**
   * updateRideStatus as evidently intended: the notification sits behind
   * the same `if (io)` check acceptRide uses, and the request succeeds
   * either way.
   */
  method UpdateRideStatus(db: Store.Database, io: Socket.Hub, attached: bool, me: int, rideId: int,
                          status: string, now: Timestamp)
    returns (r: Reply<RideStatus>)
    requires db.Valid() && io.Valid()
    modifies db`rides, io`log
    ensures db.Valid() && io.Valid()
    ensures ParseTarget(status).None? ==> r == Err(400, InvalidTargetMessage) && db.rides == old(db.rides) && io.log == old(io.log)
    ensures ParseTarget(status).Some? && (rideId !in old(db.rides) || old(db.rides)[rideId].driverId != Some(me)) ==>
      r == Err(404, NotAssignedMessage) && db.rides == old(db.rides) && io.log == old(io.log)
    ensures ParseTarget(status).Some? && rideId in old(db.rides) && old(db.rides)[rideId].driverId == Some(me) ==>
      var client := old(db.rides)[rideId].clientId;
      && r == Ok(200, ParseTarget(status).value)
      && db.rides == old(db.rides)[rideId := WithStatus(old(db.rides)[rideId], ParseTarget(status).value, now)]
      && io.log == old(io.log) + (if attached
                                  then [Socket.Event(Socket.ToRoom(UserRoom(client)), Socket.StatusChanged, Some(rideId),
                                                     StatusNotice(status), io.MembersOf(UserRoom(client)))]
                                  else [])
  {
    var target := ParseTarget(status);
    if target.None? {
      return Err(400, InvalidTargetMessage);
    }
    if rideId !in db.rides || db.rides[rideId].driverId != Some(me) {
      return Err(404, NotAssignedMessage);
    }
    var client := db.rides[rideId].clientId;
    db.rides := db.rides[rideId := WithStatus(db.rides[rideId], target.value, now)];
    if attached {
      io.Emit(Socket.ToRoom(UserRoom(client)), Socket.StatusChanged, Some(rideId), StatusNotice(status));
    }
    return Ok(200, target.value);
  }

  /**
   * The rows getDriverRideHistory selects: this driver's completed and
   * cancelled rides whose client has a profile (the inner JOIN on
   * client_profiles).
   */
  function DriverHistoryOf(rides: map<int, Store.Ride>, clients: map<int, Store.ClientProfile>, driver: int): (ids: set<int>)
    ensures forall r :: r in ids <==>
      r in rides && rides[r].driverId == Some(driver) && IsFinished(rides[r].status) && rides[r].clientId in clients
  {
    set r | r in rides && rides[r].driverId == Some(driver) && IsFinished(rides[r].status) && rides[r].clientId in clients
  }

  /**
   * getDriverRideHistory: one page of those rows, newest first. No route
   * mounts this handler and no rule checks its page and limit, so any
   * integer reaches `LIMIT $2 OFFSET $3`: a negative offset or limit is
   * refused by PostgreSQL and answered 500 with its message, and a limit of
   * 0 lists nothing.
   */
  method GetDriverRideHistory(db: Store.Database, me: int, page: int, limit: int) returns (r: Reply<seq<int>>)
    requires db.Valid()
    ensures r.Ok? <==> Pagination.Accepted(page, limit)
    ensures Pagination.PagingViolation(page, limit).Some? ==> r == Err(500, Pagination.PagingViolation(page, limit).value.message)
    ensures r.Ok? ==> r.code == 200
    ensures r.Ok? ==> exists ordered :: Pagination.ListsDescending(ordered, DriverHistoryOf(db.rides, db.clients, me))
                                        && r.value == Pagination.Page(ordered, page, limit)
    ensures r.Ok? ==> forall x | x in r.value :: x in db.rides && db.rides[x].driverId == Some(me) && IsFinished(db.rides[x].status)
    ensures r.Ok? ==> |r.value| <= limit && (limit == 0 ==> r.value == [])
  {
    match Pagination.PagingViolation(page, limit) {
      case Some(v) =>
        r := ReplyToDbError(v.code, v.message);
      case None =>
        var rows, total, pages := Pagination.ListPage(DriverHistoryOf(db.rides, db.clients, me), db.nextRideId, page, limit);
        r := Ok(200, rows);
    }
  }
}
