/**
 * The PostgreSQL tables the handlers read and write (backend/database/migrate.js,
 * with the ride statuses of update_ride_statuses.js and the driver presence
 * columns of add_driver_online_status.js), held in one object the way the
 * shared pg pool is.
 *
 * Profiles are keyed by their user_id (UNIQUE in both profile tables); every
 * other table is keyed by its SERIAL id, handed out from a counter. `Valid`
 * is what the schema's UNIQUE, FOREIGN KEY and cars CHECK constraints
 * guarantee, plus the two facts the handlers keep: a profile's user has the matching role, and
 * no car is held by two drivers.
 */
module Store {
  import opened Common

  datatype User = User(email: string, passwordHash: string, role: Role)

  datatype ClientProfile = ClientProfile(nom: string, prenom: string, telephone: string, residence: Option<string>)

  datatype Position = Position(lat: real, long: real)

  datatype DriverProfile = DriverProfile(
    nom: string, prenom: string, telephone: string, residence: Option<string>,
    cnib: string, hiredOn: string, carId: Option<int>,
    online: bool, position: Option<Position>, locatedAt: Option<Timestamp>)

  /** status is nullable: the column has a default but no NOT NULL. */
  datatype Car = Car(model: string, plate: string, status: Option<string>, vehicleType: string)

  /** date_maintenance is the date the admin sent, or the time of the insert when none was sent. */
  datatype MaintenanceDate = OnDate(text: string) | At(time: Timestamp)

  datatype Maintenance = Maintenance(carId: int, kind: Option<string>, description: string, cost: real, date: MaintenanceDate)

  datatype Place = Place(address: string, lat: real, long: real)

  /** `DECIMAL(10, 8)` and `DECIMAL(11, 8)`: a point as its columns keep it, to eight decimal places. */
  function StoredPlace(p: Place): (q: Place)
    ensures q.address == p.address
    ensures -0.000000005 <= p.lat - q.lat <= 0.000000005 && -0.000000005 <= p.long - q.long <= 0.000000005
  {
    Place(p.address, StoredCoordinate(p.lat), StoredCoordinate(p.long))
  }

  /** The whole number nearest t, a half rounding away from zero, as PostgreSQL's numeric rounds. */
  function RoundHalfAway(t: real): (k: int)
    ensures t >= 0.0 ==> k >= 0 && k as real - 0.5 <= t < k as real + 0.5
    ensures t < 0.0 ==> k <= 0 && k as real - 0.5 < t <= k as real + 0.5
  {
    if t >= 0.0 then (t + 0.5).Floor else -((-t + 0.5).Floor)
  }

  /**
   * `DECIMAL(10, 2)` (rides.prix, maintenance.cout): an amount as the column
   * keeps it, in whole cents, within half a cent of the value sent, a half
   * cent rounding away from zero.
   */
  function StoredCents(amount: real): (stored: real)
    ensures (stored * 100.0).Floor as real == stored * 100.0
    ensures amount >= 0.0 ==> stored >= 0.0 && stored - 0.005 <= amount < stored + 0.005
    ensures amount < 0.0 ==> stored <= 0.0 && stored - 0.005 < amount <= stored + 0.005
  {
    var cents := RoundHalfAway(amount * 100.0);
    assert (cents as real).Floor == cents;
    cents as real / 100.0
  }

  /** An amount DECIMAL(10, 2) holds: eight digits before the point once rounded to cents. */
  predicate CentsFit(amount: real)
  {
    -100000000.0 < StoredCents(amount) < 100000000.0
  }

  /** `DECIMAL(10, 8)` and `DECIMAL(11, 8)`: a coordinate to eight decimal places, within half a unit of the last. */
  function StoredCoordinate(x: real): (stored: real)
    ensures (stored * 100000000.0).Floor as real == stored * 100000000.0
    ensures -0.000000005 <= x - stored <= 0.000000005
  {
    var units := RoundHalfAway(x * 100000000.0);
    assert (units as real).Floor == units;
    units as real / 100000000.0
  }

  /**
   * A point the position columns hold: after rounding to eight places,
   * DECIMAL(10, 8) keeps two digits before the point and DECIMAL(11, 8)
   * three; a larger value is a numeric field overflow.
   */
  predicate PositionFits(lat: real, long: real)
  {
    -100.0 < StoredCoordinate(lat) < 100.0 && -1000.0 < StoredCoordinate(long) < 1000.0
  }

  datatype Ride = Ride(
    clientId: int, driverId: Option<int>, pickup: Place, destination: Place, price: real,
    status: RideStatus, score: Option<int>, comment: Option<string>,
    createdAt: Timestamp, updatedAt: Timestamp, completedAt: Option<Timestamp>)

  /** PostgreSQL's code for a NOT NULL violation; the error handler passes it through as a 500. */
  const NotNullViolation := "23502"

  function NotNullMessage(column: string, table: string): string
  {
    "null value in column \"" + column + "\" of relation \"" + table + "\" violates not-null constraint"
  }

  const CheckViolation := "23514"

  function CheckMessage(table: string, constraint: string): string
  {
    "new row for relation \"" + table + "\" violates check constraint \"" + constraint + "\""
  }

  /** PostgreSQL's code for a value too large for its numeric column. */
  const NumericOverflow := "22003"
  const NumericOverflowMessage := "numeric field overflow"

  /** PostgreSQL's code for text its date input cannot read. */
  const DateSyntaxViolation := "22007"

  function DateSyntaxMessage(text: string): string
  {
    "invalid input syntax for type date: \"" + text + "\""
  }

  /** PostgreSQL's code for a date whose fields it reads but no calendar has, such as 30 February. */
  const DateRangeViolation := "22008"

  function DateRangeMessage(text: string): string
  {
    "date/time field value out of range: \"" + text + "\""
  }

  /** What PostgreSQL's date input makes of a text: a date, text it cannot parse, or fields out of range. */
  datatype DateRead = Readable | Malformed | OutOfRange

  const ForeignKeyMessage := "violates foreign key constraint"
  const UniqueMessage := "duplicate key value violates unique constraint"

  // ---------------------------------------------------------------------------
  // Facts about table values.

  predicate KeysBelow<V>(m: map<int, V>, next: int)
  {
    forall k | k in m :: 1 <= k < next
  }

  predicate EmailsUnique(users: map<int, User>)
  {
    forall a, b | a in users && b in users && users[a].email == users[b].email :: a == b
  }

  predicate EmailTaken(users: map<int, User>, email: string)
  {
    exists u | u in users :: users[u].email == email
  }

  /** `CHECK (status IN ('available', 'in_use', 'maintenance'))` on cars; a NULL status passes a CHECK. */
  predicate CarStatusAllowed(status: Option<string>)
  {
    status.None? || status.value in {"available", "in_use", "maintenance"}
  }

  predicate CarStatusesChecked(cars: map<int, Car>)
  {
    forall c | c in cars :: CarStatusAllowed(cars[c].status)
  }

  predicate PlatesUnique(cars: map<int, Car>)
  {
    forall a, b | a in cars && b in cars && cars[a].plate == cars[b].plate :: a == b
  }

  predicate PlateTaken(cars: map<int, Car>, plate: string, except: Option<int>)
  {
    exists c | c in cars && Some(c) != except :: cars[c].plate == plate
  }

  predicate CnibsUnique(drivers: map<int, DriverProfile>)
  {
    forall a, b | a in drivers && b in drivers && drivers[a].cnib == drivers[b].cnib :: a == b
  }

  predicate CnibTaken(drivers: map<int, DriverProfile>, cnib: string)
  {
    exists d | d in drivers :: drivers[d].cnib == cnib
  }

  /** Some driver other than `except` holds the car. */
  predicate CarHeld(drivers: map<int, DriverProfile>, car: int, except: Option<int>)
  {
    exists d | d in drivers && Some(d) != except :: drivers[d].carId == Some(car)
  }

  predicate OneDriverPerCar(drivers: map<int, DriverProfile>)
  {
    forall a, b | a in drivers && b in drivers && drivers[a].carId.Some? && drivers[a].carId == drivers[b].carId :: a == b
  }

  predicate ProfilesHaveRole(profiles: set<int>, users: map<int, User>, role: Role)
  {
    forall u | u in profiles :: u in users && users[u].role == role
  }

  predicate DriverCarsExist(drivers: map<int, DriverProfile>, cars: map<int, Car>)
  {
    forall d | d in drivers && drivers[d].carId.Some? :: drivers[d].carId.value in cars
  }

  predicate MaintenanceCarsExist(maintenance: map<int, Maintenance>, cars: map<int, Car>)
  {
    forall m | m in maintenance :: maintenance[m].carId in cars
  }

  predicate RideUsersExist(rides: map<int, Ride>, users: map<int, User>)
  {
    forall r | r in rides :: rides[r].clientId in users && (rides[r].driverId.Some? ==> rides[r].driverId.value in users)
  }

  /** `WHERE client_id = $1 AND status IN ('pending', 'accepted', 'arrived', 'in_progress')` finds a row. */
  predicate HasActiveRideAsClient(rides: map<int, Ride>, user: int)
  {
    exists r | r in rides :: rides[r].clientId == user && IsActive(rides[r].status)
  }

  /** The same query on driver_id. */
  predicate HasActiveRideAsDriver(rides: map<int, Ride>, user: int)
  {
    exists r | r in rides :: rides[r].driverId == Some(user) && IsActive(rides[r].status)
  }

  /** Some ride row points at the user through rides.client_id or rides.driver_id (no ON DELETE action). */
  predicate RideReferences(rides: map<int, Ride>, user: int)
  {
    exists r | r in rides :: rides[r].clientId == user || rides[r].driverId == Some(user)
  }

  /** Giving one driver a car nobody else holds keeps every car to at most one driver. */
  lemma AssignKeepsOneDriverPerCar(drivers: map<int, DriverProfile>, d: int, p: DriverProfile)
    requires OneDriverPerCar(drivers)
    requires p.carId.None? || !CarHeld(drivers, p.carId.value, Some(d))
    ensures OneDriverPerCar(drivers[d := p])
  {
    var m := drivers[d := p];
    forall a, b | a in m && b in m && m[a].carId.Some? && m[a].carId == m[b].carId
      ensures a == b
    {
      if a != d && b != d {
        assert drivers[a].carId == drivers[b].carId;
      }
    }
  }

  /**
   * Rewriting one driver's row, with its cnib kept and a car that exists and
   * no other driver holds, keeps the driver-profile invariants.
   */
  lemma ReplaceDriverKeepsInvariants(users: map<int, User>, drivers: map<int, DriverProfile>, cars: map<int, Car>,
                                     d: int, p: DriverProfile)
    requires d in drivers && p.cnib == drivers[d].cnib
    requires CnibsUnique(drivers) && DriverCarsExist(drivers, cars) && OneDriverPerCar(drivers)
    requires ProfilesHaveRole(drivers.Keys, users, Driver)
    requires p.carId.None? || (p.carId.value in cars && !CarHeld(drivers, p.carId.value, Some(d)))
    ensures CnibsUnique(drivers[d := p]) && DriverCarsExist(drivers[d := p], cars) && OneDriverPerCar(drivers[d := p])
    ensures ProfilesHaveRole(drivers[d := p].Keys, users, Driver)
  {
    AssignKeepsOneDriverPerCar(drivers, d, p);
    var m := drivers[d := p];
    assert m.Keys == drivers.Keys;
    forall a, b | a in m && b in m && m[a].cnib == m[b].cnib ensures a == b {
      assert m[a].cnib == drivers[a].cnib && m[b].cnib == drivers[b].cnib;
    }
  }

  class Database {
    var users: map<int, User>
    var clients: map<int, ClientProfile>
    var drivers: map<int, DriverProfile>
    var cars: map<int, Car>
    var maintenance: map<int, Maintenance>
    var rides: map<int, Ride>
    var nextUserId: int
    var nextCarId: int
    var nextMaintenanceId: int
    var nextRideId: int

    predicate Valid()
      reads this
    {
      && nextUserId >= 1 && nextCarId >= 1 && nextMaintenanceId >= 1 && nextRideId >= 1
      && KeysBelow(users, nextUserId) && KeysBelow(cars, nextCarId)
      && KeysBelow(maintenance, nextMaintenanceId) && KeysBelow(rides, nextRideId)
      && EmailsUnique(users) && PlatesUnique(cars) && CnibsUnique(drivers) && CarStatusesChecked(cars)
      && ProfilesHaveRole(clients.Keys, users, Client) && ProfilesHaveRole(drivers.Keys, users, Driver)
      && DriverCarsExist(drivers, cars) && OneDriverPerCar(drivers)
      && MaintenanceCarsExist(maintenance, cars)
      && RideUsersExist(rides, users)
    }

    /** The empty schema migrate.js creates: every table empty, every sequence at 1. */
    constructor ()
      ensures Valid()
      ensures users == map[] && clients == map[] && drivers == map[] && cars == map[]
      ensures maintenance == map[] && rides == map[]
      ensures nextUserId == 1 && nextCarId == 1 && nextMaintenanceId == 1 && nextRideId == 1
    {
      users, clients, drivers, cars, maintenance, rides := map[], map[], map[], map[], map[], map[];
      nextUserId, nextCarId, nextMaintenanceId, nextRideId := 1, 1, 1, 1;
    }
  }
}
