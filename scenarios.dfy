/**
 * Short runs of the handlers from the empty schema, showing behaviour that
 * follows from the code as the controllers are written.
 */
module Scenarios {
  import opened Common
  import Store
  import Socket
  import ClientController
  import DriverController
  import Auth

  /**
   * A client requests a ride and cancels it at once, on a server whose
   * requests carry no `io` (server.js never sets one): the ride ends
   * cancelled, yet the client is told 500.
   */
  method CancelAfterRequestAnswers500() returns (r: Reply<int>, status: RideStatus)
    ensures r == Err(500, Socket.IoUndefinedError) && status == Cancelled
  {
    var db, io := PendingRide(false);
    r := ClientController.CancelRideAsWritten(db, io, false, 1, 1, 5);
    status := db.rides[1].status;
  }

  /** Users 1 (a client) and 2 (a driver), with no profile and no ride. */
  method SeedClientAndDriver() returns (db: Store.Database)
    ensures fresh(db) && db.Valid()
    ensures db.users.Keys == {1, 2} && db.users[1].role == Client && db.users[2].role == Driver
    ensures db.rides == map[] && db.nextRideId == 1 && db.drivers == map[] && db.clients == map[]
  {
    db := new Store.Database();
    var client := Store.User("c", "hash", Client);
    var driver := Store.User("d", "hash", Driver);
    assert client.email != driver.email;
    db.users := map[1 := client, 2 := driver];
    db.nextUserId := 3;
  }

  /** The seeded client has requested ride 1. */
  method PendingRide(attached: bool) returns (db: Store.Database, io: Socket.Hub)
    ensures fresh(db) && fresh(io) && db.Valid() && io.Valid()
    ensures 1 in db.users && 2 in db.users
    ensures db.rides.Keys == {1} && db.nextRideId == 2 && db.rides[1].clientId == 1 && db.rides[1].status == Pending
  {
    db := SeedClientAndDriver();
    io := new Socket.Hub();
    var place := Store.Place("Ouaga 2000", 12.3, -1.5);
    var created := ClientController.RequestRide(db, io, attached, 1, place, place, 0.0, 0);
  }

  /** The seeded driver has accepted ride 1. */
  method AcceptedRide(attached: bool) returns (db: Store.Database, io: Socket.Hub)
    ensures fresh(db) && fresh(io) && db.Valid() && io.Valid()
    ensures 1 in db.users && 2 in db.users
    ensures db.rides.Keys == {1} && db.nextRideId == 2 && db.rides[1].clientId == 1 && db.rides[1].driverId == Some(2)
    ensures db.rides[1].status == Accepted
  {
    db, io := PendingRide(attached);
    var a := DriverController.AcceptRide(db, io, attached, 2, 1, 1);
  }

  /** The seeded driver has completed ride 1, so its client has no active ride. */
  method CompletedRide() returns (db: Store.Database, io: Socket.Hub)
    ensures fresh(db) && fresh(io) && db.Valid() && io.Valid()
    ensures 1 in db.users
    ensures db.rides.Keys == {1} && db.nextRideId == 2 && db.rides[1].clientId == 1 && db.rides[1].driverId == Some(2)
    ensures db.rides[1].status == Completed && db.rides[1].completedAt.Some?
    ensures !Store.HasActiveRideAsClient(db.rides, 1)
  {
    db, io := AcceptedRide(true);
    assert DriverController.ParseTarget("completed") == Some(Completed) by {
      ParseStatusName(Completed);
    }
    var c := DriverController.UpdateRideStatus(db, io, true, 2, 1, "completed", 2);
  }

  /**
   * A driver completes a ride, its client requests a new one, and the
   * driver then sets the completed ride to `arrived`: both rides of the
   * client are active at once, although requestRide refuses a second active
   * ride.
   */
  method CompletedRideReopens() returns (first: Store.Ride, second: Store.Ride)
    ensures first.clientId == second.clientId
    ensures IsActive(first.status) && IsActive(second.status)
    ensures first.status == Arrived && first.completedAt.Some?
  {
    var db, io := CompletedRide();
    var place := Store.Place("Ouaga 2000", 12.3, -1.5);
    var r2 := ClientController.RequestRide(db, io, true, 1, place, place, 0.0, 3);
    assert r2 == Ok(201, 2) && db.rides[2].clientId == 1 && db.rides[2].status == Pending;
    assert DriverController.ParseTarget("arrived") == Some(Arrived) by {
      ParseStatusName(Arrived);
    }
    var back := DriverController.UpdateRideStatus(db, io, true, 2, 1, "arrived", 4);
    first, second := db.rides[1], db.rides[2];
  }

  /**
   * A driver marks its accepted ride as arrived on a server whose requests
   * carry no `io`: the ride is now arrived, yet the driver is told 500.
   */
  method StatusUpdateAnswers500() returns (r: Reply<RideStatus>, status: RideStatus)
    ensures r == Err(500, Socket.IoUndefinedError) && status == Arrived
  {
    var db, io := AcceptedRide(false);
    assert DriverController.ParseTarget("arrived") == Some(Arrived) by {
      ParseStatusName(Arrived);
    }
    r := DriverController.UpdateRideStatusAsWritten(db, io, false, 2, 1, "arrived", 2);
    status := db.rides[1].status;
  }

  /** The tokens of this scenario: "c" is client 1, "d" driver 2, "a" admin 3; nothing else decodes. */
  function Tokens(t: string): Auth.Verified
  {
    if t == "c" then Auth.Decoded(Auth.Identity(1, "c", Client))
    else if t == "d" then Auth.Decoded(Auth.Identity(2, "d", Driver))
    else if t == "a" then Auth.Decoded(Auth.Identity(3, "a", Admin))
    else Auth.Invalid
  }

  /** Client 1 on connection 10. */
  method ConnectClient() returns (io: Socket.Hub)
    ensures fresh(io) && io.Valid() && io.log == []
    ensures io.rooms == map[10 := {UserRoom(1), ClientsRoom}]
  {
    var client := Auth.Identity(1, "c", Client);
    assert Tokens("c") == Auth.Decoded(client);
    assert Socket.RoomsFor(client) == {UserRoom(1), ClientsRoom};
    io := new Socket.Hub();
    io.Initialize();
    var c := io.Connect(10, Some("c"), Tokens);
  }

  /** Driver 2 opens connections 20 and 21 beside client 1's. */
  method ConnectDriverTwice(io: Socket.Hub)
    requires io.Valid() && io.rooms == map[10 := {UserRoom(1), ClientsRoom}]
    modifies io
    ensures io.Valid() && io.log == old(io.log)
    ensures io.rooms == map[10 := {UserRoom(1), ClientsRoom}, 20 := {UserRoom(2), DriversRoom}, 21 := {UserRoom(2), DriversRoom}]
  {
    var driver := Auth.Identity(2, "d", Driver);
    assert Tokens("d") == Auth.Decoded(driver);
    assert Socket.RoomsFor(driver) == {UserRoom(2), DriversRoom};
    var d1 := io.Connect(20, Some("d"), Tokens);
    var d2 := io.Connect(21, Some("d"), Tokens);
  }

  /** Admin 3 connects on 30, and a bad token is refused on 40. */
  method ConnectAdminAndStranger(io: Socket.Hub)
    requires io.Valid() && 30 !in io.rooms && 40 !in io.rooms
    modifies io
    ensures io.Valid() && io.log == old(io.log)
    ensures io.rooms == old(io.rooms)[30 := {UserRoom(3)}]
  {
    var admin := Auth.Identity(3, "a", Admin);
    assert Tokens("a") == Auth.Decoded(admin) && Tokens("x") == Auth.Invalid;
    Socket.AdminJoinsOnlyItsRoom(admin);
    var a := io.Connect(30, Some("a"), Tokens);
    var bad := io.Connect(40, Some("x"), Tokens);
  }

  /** The rooms once everyone has connected. */
  function AllJoined(): map<Socket.ConnId, set<Room>>
  {
    map[10 := {UserRoom(1), ClientsRoom}, 20 := {UserRoom(2), DriversRoom}, 21 := {UserRoom(2), DriversRoom}, 30 := {UserRoom(3)}]
  }

  /** The rooms once connection 21 has closed. */
  function AfterClose(): map<Socket.ConnId, set<Room>>
  {
    map[10 := {UserRoom(1), ClientsRoom}, 20 := {UserRoom(2), DriversRoom}, 30 := {UserRoom(3)}]
  }

  lemma CloseDropsOnlyIt()
    ensures AllJoined() - {21} == AfterClose()
  {
    assert (AllJoined() - {21}).Keys == AfterClose().Keys;
  }

  lemma WhoIsWhere(rooms: map<Socket.ConnId, set<Room>>)
    requires rooms == AfterClose()
    ensures (set c | c in rooms && DriversRoom in rooms[c]) == {20}
    ensures (set c | c in rooms && UserRoom(1) in rooms[c]) == {10}
  {
    assert rooms.Keys == {10, 20, 30};
  }

  /**
   * Client 1 on connection 10, driver 2 on connections 20 and 21, admin 3
   * on connection 30, and a bad token refused on connection 40; then
   * connection 21 closes.
   */
  method ConnectEveryone() returns (io: Socket.Hub)
    ensures fresh(io) && io.Valid() && io.log == []
    ensures io.MembersOf(DriversRoom) == {20} && io.MembersOf(UserRoom(1)) == {10}
  {
    io := ConnectClient();
    ConnectDriverTwice(io);
    ConnectAdminAndStranger(io);
    assert io.rooms == AllJoined();
    io.Disconnect(21);
    CloseDropsOnlyIt();
    WhoIsWhere(io.rooms);
  }

  /** The seeded users, with a profile for driver 2. */
  method SeedDriverProfile() returns (db: Store.Database)
    ensures fresh(db) && db.Valid()
    ensures 1 in db.users && 2 in db.users && 2 in db.drivers && db.rides == map[] && db.nextRideId == 1
  {
    db := SeedClientAndDriver();
    db.drivers := map[2 := Store.DriverProfile("Ouedraogo", "Ali", "70000000", None, "B123", "2024-01-01", None, false, None, None)];
  }

  /** Client 1 requests ride 1: the one event goes to the drivers' room. */
  method RequestFromClient(db: Store.Database, io: Socket.Hub) returns (request: Socket.Event)
    requires db.Valid() && io.Valid() && 1 in db.users && db.rides == map[] && db.nextRideId == 1
    modifies db`rides, db`nextRideId, io`log
    ensures db.Valid() && io.Valid() && db.rides.Keys == {1} && db.rides[1].status == Pending && db.rides[1].clientId == 1
    ensures request == Socket.Event(Socket.ToRoom(DriversRoom), Socket.NewRideRequest, Some(1),
                                    ClientController.ClientName(db.clients, 1), io.MembersOf(DriversRoom))
  {
    var place := Store.Place("Ouaga 2000", 12.3, -1.5);
    var created := ClientController.RequestRide(db, io, true, 1, place, place, 2.0, 0);
    request := io.log[|io.log| - 1];
  }

  /** Driver 2, who has a profile, accepts ride 1: the one event goes to client 1's room. */
  method AcceptAsDriver(db: Store.Database, io: Socket.Hub) returns (accepted: Socket.Event)
    requires db.Valid() && io.Valid() && 2 in db.users && 2 in db.drivers
    requires db.rides.Keys == {1} && db.rides[1].status == Pending && db.rides[1].clientId == 1
    modifies db`rides, io`log
    ensures accepted == Socket.Event(Socket.ToRoom(UserRoom(1)), Socket.RideAccepted, Some(1),
                                     DriverController.AcceptedNotice, io.MembersOf(UserRoom(1)))
  {
    var taken := DriverController.AcceptRide(db, io, true, 2, 1, 1);
    accepted := io.log[|io.log| - 1];
  }

  /**
   * On the connections of ConnectEveryone, the client's ride request
   * reaches connection 20 alone, and the driver's acceptance reaches
   * connection 10 alone: the admin and the closed connection hear neither.
   */
  method NotificationsReachTheirRooms() returns (request: Socket.Event, accepted: Socket.Event)
    ensures request.kind == Socket.NewRideRequest && request.target == Socket.ToRoom(DriversRoom)
    ensures request.recipients == {20}
    ensures accepted.kind == Socket.RideAccepted && accepted.target == Socket.ToRoom(UserRoom(1))
    ensures accepted.recipients == {10}
  {
    var db := SeedDriverProfile();
    var io := ConnectEveryone();
    request := RequestFromClient(db, io);
    accepted := AcceptAsDriver(db, io);
  }
}
