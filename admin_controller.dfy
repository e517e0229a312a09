/**
 * controllers/adminController.js: the fleet back office. Four list handlers
 * filter and page drivers, cars, clients and maintenance records through the
 * shared WHERE builder; the others create, patch and delete drivers, cars
 * and clients and record maintenance, each guarded by the checks the
 * handler runs before its write.
 *
 * A handler that runs in a transaction (BEGIN ... COMMIT, ROLLBACK on every
 * early return and in the catch) leaves every table as it was when it
 * fails. An error thrown by PostgreSQL goes to the error handler, whose
 * reply the methods return. A SERIAL value drawn by an INSERT stays drawn
 * even when that INSERT fails or is rolled back, so the counters advance.
 */
module AdminController {
  import opened Common
  import opened ErrorHandler
  import Store
  import Pagination
  import opened QueryBuilder

  const EmailUsedMessage := "Cet email est déjà utilisé"
  const CarAssignedMessage := "Ce véhicule est déjà assigné à un autre chauffeur"
  const DriverNotFoundMessage := "Chauffeur non trouvé"
  const NothingToUpdateMessage := "Aucune donnée à mettre à jour"
  const DriverBusyMessage := "Impossible de supprimer ce chauffeur car il a des courses en cours"
  const PlateExistsMessage := "Cette plaque d'immatriculation existe déjà"
  const PlateUsedMessage := "Cette plaque d'immatriculation est déjà utilisée"
  const CarNotFoundMessage := "Véhicule non trouvé"
  const CarHeldMessage := "Impossible de supprimer ce véhicule car il est assigné à un chauffeur"
  const ClientBusyMessage := "Impossible de supprimer ce client car il a des courses en cours"
  const ClientNotFoundMessage := "Client non trouvé"

  /** `status || 'active'` and the column default of type_vehicule. */
  const DefaultCarStatus := "active"
  const DefaultVehicleType := "Sedan"

  /** A body field of a PATCH: absent (`undefined`), JSON null, or a value. */
  datatype Patch<+T> = Omitted | SetNull | SetTo(value: T)

  /** A query-string or body value JavaScript treats as true: present and not "". */
  predicate Truthy(o: Option<string>)
  {
    o.Some? && o.value != ""
  }

  /**
   * The search filter: the text matches `%term%` under ILIKE, so a `%`, `_`
   * or `\` typed into the term acts as a wildcard or an escape; a term free
   * of them simply occurs in the text, case aside (QueryBuilder.SearchMeaning).
   */
  predicate Mentions(value: string, term: string)
  {
    ILike(value, Pattern(term))
  }

  lemma SingleFilter(f: Filter, row: Row)
    ensures SatisfiesAll([f], row) <==> Satisfies(f, row)
  {
    assert [f][0] == f;
  }

  // ---------------------------------------------------------------------------
  // The page every list handler answers with.

  /** `{ rows, pagination: { total, total_pages } }`: the page's ids, the COUNT(*) total, and total_pages or null. */
  datatype Listing = Listing(rows: seq<int>, total: nat, pages: Option<nat>)

  /**
   * The end of every list handler, once the count query has run: the list
   * query is refused and the error handler answers 500 with PostgreSQL's
   * message, or it returns one page of the selected keys, largest first.
   */
  method AnswerPage(keys: set<int>, bound: int, page: int, limit: int) returns (r: Reply<Listing>)
    requires forall k | k in keys :: 1 <= k < bound
    ensures r.Ok? <==> Pagination.Accepted(page, limit)
    ensures Pagination.PagingViolation(page, limit).Some? ==> r == Err(500, Pagination.PagingViolation(page, limit).value.message)
    ensures r.Ok? ==> r.code == 200 && r.value.total == |keys| && r.value.pages == Pagination.JsonPages(|keys|, limit)
    ensures r.Ok? ==> exists ordered :: Pagination.ListsDescending(ordered, keys) && r.value.rows == Pagination.Page(ordered, page, limit)
    ensures r.Ok? ==> forall x | x in r.value.rows :: x in keys
  {
    match Pagination.PagingViolation(page, limit) {
      case Some(v) =>
        r := ReplyToDbError(v.code, v.message);
      case None =>
        var rows, total, pages := Pagination.ListPage(keys, bound, page, limit);
        r := Ok(200, Listing(rows, total, pages));
    }
  }

  // ---------------------------------------------------------------------------
  // getDrivers.

  /** A driver_profiles row as its WHERE clause reads it. */
  function DriverRow(p: Store.DriverProfile): Row
  {
    (c: Column) =>
      match c
      case DriverNom => Some(p.nom)
      case DriverPrenom => Some(p.prenom)
      case DriverTelephone => Some(p.telephone)
      case DriverResidence => p.residence
      case DriverCar => if p.carId.Some? then Some(IntToString(p.carId.value)) else None
      case _ => None
  }

  /** `if (search)` adds the name/phone search; `has_car` tests presence, "true" meaning a car and anything else none. */
  function DriverFilters(search: string, hasCar: Option<string>): seq<Filter>
  {
    (if search != "" then [Search([DriverNom, DriverPrenom, DriverTelephone], search)] else [])
    + (if hasCar.Some? then [HasValue(DriverCar, hasCar.value == "true")] else [])
  }

  /** What getDrivers's filters select, in terms of the profile. */
  predicate DriverMatches(p: Store.DriverProfile, search: string, hasCar: Option<string>)
  {
    && (search == "" || Mentions(p.nom, search) || Mentions(p.prenom, search) || Mentions(p.telephone, search))
    && (hasCar.Some? ==> (p.carId.Some? <==> hasCar.value == "true"))
  }

  lemma DriverFiltersMean(search: string, hasCar: Option<string>, p: Store.DriverProfile)
    ensures SatisfiesAll(DriverFilters(search, hasCar), DriverRow(p)) <==> DriverMatches(p, search, hasCar)
  {
    var row := DriverRow(p);
    var a := if search != "" then [Search([DriverNom, DriverPrenom, DriverTelephone], search)] else [];
    var b := if hasCar.Some? then [HasValue(DriverCar, hasCar.value == "true")] else [];
    SatisfiesAllAppend(a, b, row);
    if search != "" {
      SingleFilter(a[0], row);
      assert row(DriverNom) == Some(p.nom) && row(DriverPrenom) == Some(p.prenom) && row(DriverTelephone) == Some(p.telephone);
    }
    if hasCar.Some? {
      SingleFilter(b[0], row);
    }
  }

  /** `has_car=1`, which the route's isBoolean rule admits, lists the drivers without a car. */
  lemma HasCarOneMeansCarless(p: Store.DriverProfile)
    ensures SatisfiesAll(DriverFilters("", Some("1")), DriverRow(p)) <==> p.carId.None?
  {
    DriverFiltersMean("", Some("1"), p);
  }

  /** `search=_` lists every driver with a non-empty name, first name or phone: `_` is ILIKE's one-character wildcard. */
  lemma UnderscoreSearchesAnyDriver(p: Store.DriverProfile)
    ensures SatisfiesAll(DriverFilters("_", None), DriverRow(p)) <==> p.nom != "" || p.prenom != "" || p.telephone != ""
  {
    DriverFiltersMean("_", None, p);
    WildcardSearches(p.nom);
    WildcardSearches(p.prenom);
    WildcardSearches(p.telephone);
  }

  function MatchingDrivers(drivers: map<int, Store.DriverProfile>, search: string, hasCar: Option<string>): (ids: set<int>)
    ensures forall d :: d in ids <==> d in drivers && DriverMatches(drivers[d], search, hasCar)
  {
    set d | d in drivers && DriverMatches(drivers[d], search, hasCar)
  }

  /** The WHERE clause built from the filters selects exactly the matching drivers. */
  lemma DriversSelected(conditions: seq<Condition>, params: seq<Param>, drivers: map<int, Store.DriverProfile>,
                        search: string, hasCar: Option<string>)
    requires forall row: Row :: HoldsAll(conditions, params, row) <==> SatisfiesAll(DriverFilters(search, hasCar), row)
    ensures (set d | d in drivers && HoldsAll(conditions, params, DriverRow(drivers[d]))) == MatchingDrivers(drivers, search, hasCar)
  {
    forall d | d in drivers
      ensures HoldsAll(conditions, params, DriverRow(drivers[d])) <==> DriverMatches(drivers[d], search, hasCar)
    {
      DriverFiltersMean(search, hasCar, drivers[d]);
    }
  }

  /**
   * getDrivers: the matching drivers, `ORDER BY dp.user_id DESC`, one page,
   * with the COUNT(*) total and total_pages. The route lets any integer page
   * and limit through, so a negative offset or limit reaches PostgreSQL.
   */
  method ListDrivers(db: Store.Database, page: int, limit: int, search: string, hasCar: Option<string>)
    returns (r: Reply<Listing>)
    requires db.Valid()
    ensures r.Ok? <==> Pagination.Accepted(page, limit)
    ensures Pagination.PagingViolation(page, limit).Some? ==> r == Err(500, Pagination.PagingViolation(page, limit).value.message)
    ensures r.Ok? ==> r.code == 200 && r.value.total == |MatchingDrivers(db.drivers, search, hasCar)| && r.value.pages == Pagination.JsonPages(r.value.total, limit)
    ensures r.Ok? ==> exists ordered :: Pagination.ListsDescending(ordered, MatchingDrivers(db.drivers, search, hasCar)) && r.value.rows == Pagination.Page(ordered, page, limit)
    ensures r.Ok? ==> forall d | d in r.value.rows :: d in db.drivers && DriverMatches(db.drivers[d], search, hasCar)
  {
    var conditions, countParams, listParams, limitAt, offsetAt := BuildWhere(DriverFilters(search, hasCar), limit, Pagination.Offset(page, limit));
    var keys := set d | d in db.drivers && HoldsAll(conditions, countParams, DriverRow(db.drivers[d]));
    DriversSelected(conditions, countParams, db.drivers, search, hasCar);
    r := AnswerPage(keys, db.nextUserId, page, limit);
  }

  // ---------------------------------------------------------------------------
  // getCars.

  function CarRow(c: Store.Car): Row
  {
    (col: Column) =>
      match col
      case CarModel => Some(c.model)
      case CarPlate => Some(c.plate)
      case CarStatus => c.status
      case CarType => Some(c.vehicleType)
      case _ => None
  }

  /** Search on model and plate; `status` and `type_vehicule` compared for equality when truthy. */
  function CarFilters(search: string, status: Option<string>, vehicleType: Option<string>): seq<Filter>
  {
    (if search != "" then [Search([CarModel, CarPlate], search)] else [])
    + (if Truthy(status) then [Equals(CarStatus, status.value)] else [])
    + (if Truthy(vehicleType) then [Equals(CarType, vehicleType.value)] else [])
  }

  predicate CarMatches(c: Store.Car, search: string, status: Option<string>, vehicleType: Option<string>)
  {
    && (search == "" || Mentions(c.model, search) || Mentions(c.plate, search))
    && (Truthy(status) ==> c.status == status)
    && (Truthy(vehicleType) ==> c.vehicleType == vehicleType.value)
  }

  /** A search over two columns holds when either column mentions the term. */
  lemma SearchTwoColumns(first: Column, second: Column, term: string, row: Row)
    ensures Satisfies(Search([first, second], term), row) <==>
      (row(first).Some? && Mentions(row(first).value, term)) || (row(second).Some? && Mentions(row(second).value, term))
  {
    var cols := [first, second];
    if row(first).Some? && Mentions(row(first).value, term) {
      assert cols[0] == first;
    }
    if row(second).Some? && Mentions(row(second).value, term) {
      assert cols[1] == second;
    }
  }

  lemma CarFiltersMean(search: string, status: Option<string>, vehicleType: Option<string>, c: Store.Car)
    ensures SatisfiesAll(CarFilters(search, status, vehicleType), CarRow(c)) <==> CarMatches(c, search, status, vehicleType)
  {
    var row := CarRow(c);
    var a := if search != "" then [Search([CarModel, CarPlate], search)] else [];
    var b := if Truthy(status) then [Equals(CarStatus, status.value)] else [];
    var t := if Truthy(vehicleType) then [Equals(CarType, vehicleType.value)] else [];
    assert CarFilters(search, status, vehicleType) == a + b + t;
    SatisfiesAllAppend(a + b, t, row);
    SatisfiesAllAppend(a, b, row);
    if search != "" {
      SingleFilter(a[0], row);
      SearchTwoColumns(CarModel, CarPlate, search, row);
      assert row(CarModel) == Some(c.model) && row(CarPlate) == Some(c.plate);
    }
    assert SatisfiesAll(a, row) <==> search == "" || Mentions(c.model, search) || Mentions(c.plate, search);
    if Truthy(status) {
      SingleFilter(b[0], row);
    }
    assert SatisfiesAll(b, row) <==> (Truthy(status) ==> c.status == status);
    if Truthy(vehicleType) {
      SingleFilter(t[0], row);
    }
    assert SatisfiesAll(t, row) <==> (Truthy(vehicleType) ==> c.vehicleType == vehicleType.value);
  }

  function MatchingCars(cars: map<int, Store.Car>, search: string, status: Option<string>, vehicleType: Option<string>): (ids: set<int>)
    ensures forall c :: c in ids <==> c in cars && CarMatches(cars[c], search, status, vehicleType)
  {
    set c | c in cars && CarMatches(cars[c], search, status, vehicleType)
  }

  /** The WHERE clause built from the filters selects exactly the matching cars. */
  lemma CarsSelected(conditions: seq<Condition>, params: seq<Param>, cars: map<int, Store.Car>,
                     search: string, status: Option<string>, vehicleType: Option<string>)
    requires forall row: Row :: HoldsAll(conditions, params, row) <==> SatisfiesAll(CarFilters(search, status, vehicleType), row)
    ensures (set c | c in cars && HoldsAll(conditions, params, CarRow(cars[c]))) == MatchingCars(cars, search, status, vehicleType)
  {
    forall c | c in cars
      ensures HoldsAll(conditions, params, CarRow(cars[c])) <==> CarMatches(cars[c], search, status, vehicleType)
    {
      CarFiltersMean(search, status, vehicleType, cars[c]);
    }
  }

  /** getCars: the matching cars, `ORDER BY c.id DESC`, one page. */
  method ListCars(db: Store.Database, page: int, limit: int, search: string, status: Option<string>, vehicleType: Option<string>)
    returns (r: Reply<Listing>)
    requires db.Valid()
    ensures r.Ok? <==> Pagination.Accepted(page, limit)
    ensures Pagination.PagingViolation(page, limit).Some? ==> r == Err(500, Pagination.PagingViolation(page, limit).value.message)
    ensures r.Ok? ==> r.code == 200 && r.value.total == |MatchingCars(db.cars, search, status, vehicleType)| && r.value.pages == Pagination.JsonPages(r.value.total, limit)
    ensures r.Ok? ==> exists ordered :: Pagination.ListsDescending(ordered, MatchingCars(db.cars, search, status, vehicleType)) && r.value.rows == Pagination.Page(ordered, page, limit)
    ensures r.Ok? ==> forall c | c in r.value.rows :: c in db.cars && CarMatches(db.cars[c], search, status, vehicleType)
  {
    var conditions, countParams, listParams, limitAt, offsetAt := BuildWhere(CarFilters(search, status, vehicleType), limit, Pagination.Offset(page, limit));
    var keys := set c | c in db.cars && HoldsAll(conditions, countParams, CarRow(db.cars[c]));
    CarsSelected(conditions, countParams, db.cars, search, status, vehicleType);
    r := AnswerPage(keys, db.nextCarId, page, limit);
  }

  // ---------------------------------------------------------------------------
  // getClients.

  /** A client_profiles row joined with its users row. */
  function ClientRow(p: Store.ClientProfile, u: Store.User): Row
  {
    (col: Column) =>
      match col
      case ClientNom => Some(p.nom)
      case ClientPrenom => Some(p.prenom)
      case ClientTelephone => Some(p.telephone)
      case UserEmail => Some(u.email)
      case _ => None
  }

  function ClientFilters(search: string): seq<Filter>
  {
    if search != "" then [Search([ClientNom, ClientPrenom, ClientTelephone, UserEmail], search)] else []
  }

  predicate ClientMatches(p: Store.ClientProfile, u: Store.User, search: string)
  {
    search == "" || Mentions(p.nom, search) || Mentions(p.prenom, search) || Mentions(p.telephone, search) || Mentions(u.email, search)
  }

  lemma ClientFiltersMean(search: string, p: Store.ClientProfile, u: Store.User)
    ensures SatisfiesAll(ClientFilters(search), ClientRow(p, u)) <==> ClientMatches(p, u, search)
  {
    var row := ClientRow(p, u);
    if search != "" {
      SingleFilter(ClientFilters(search)[0], row);
      assert row(ClientNom) == Some(p.nom) && row(ClientPrenom) == Some(p.prenom);
      assert row(ClientTelephone) == Some(p.telephone) && row(UserEmail) == Some(u.email);
    }
  }

  /** `FROM client_profiles cp JOIN users u ON u.id = cp.user_id` and the search. */
  function MatchingClients(clients: map<int, Store.ClientProfile>, users: map<int, Store.User>, search: string): (ids: set<int>)
    ensures forall c :: c in ids <==> c in clients && c in users && ClientMatches(clients[c], users[c], search)
  {
    set c | c in clients && c in users && ClientMatches(clients[c], users[c], search)
  }

  /** The WHERE clause built from the filters selects exactly the matching clients. */
  lemma ClientsSelected(conditions: seq<Condition>, params: seq<Param>, clients: map<int, Store.ClientProfile>,
                        users: map<int, Store.User>, search: string)
    requires forall row: Row :: HoldsAll(conditions, params, row) <==> SatisfiesAll(ClientFilters(search), row)
    ensures (set c | c in clients && c in users && HoldsAll(conditions, params, ClientRow(clients[c], users[c])))
            == MatchingClients(clients, users, search)
  {
    forall c | c in clients && c in users
      ensures HoldsAll(conditions, params, ClientRow(clients[c], users[c])) <==> ClientMatches(clients[c], users[c], search)
    {
      ClientFiltersMean(search, clients[c], users[c]);
    }
  }

  /** getClients: the matching clients, newest account first, one page. */
  method ListClients(db: Store.Database, page: int, limit: int, search: string)
    returns (r: Reply<Listing>)
    requires db.Valid()
    ensures r.Ok? <==> Pagination.Accepted(page, limit)
    ensures Pagination.PagingViolation(page, limit).Some? ==> r == Err(500, Pagination.PagingViolation(page, limit).value.message)
    ensures r.Ok? ==> r.code == 200 && r.value.total == |MatchingClients(db.clients, db.users, search)| && r.value.pages == Pagination.JsonPages(r.value.total, limit)
    ensures r.Ok? ==> exists ordered :: Pagination.ListsDescending(ordered, MatchingClients(db.clients, db.users, search)) && r.value.rows == Pagination.Page(ordered, page, limit)
    ensures r.Ok? ==> forall c | c in r.value.rows :: c in db.clients && c in db.users && ClientMatches(db.clients[c], db.users[c], search)
  {
    var conditions, countParams, listParams, limitAt, offsetAt := BuildWhere(ClientFilters(search), limit, Pagination.Offset(page, limit));
    var keys := set c | c in db.clients && c in db.users && HoldsAll(conditions, countParams, ClientRow(db.clients[c], db.users[c]));
    ClientsSelected(conditions, countParams, db.clients, db.users, search);
    r := AnswerPage(keys, db.nextUserId, page, limit);
  }

  // ---------------------------------------------------------------------------
  // getMaintenanceHistory.

  function MaintenanceRow(m: Store.Maintenance): Row
  {
    (col: Column) =>
      match col
      case MaintenanceCar => Some(IntToString(m.carId))
      case MaintenanceKind => m.kind
      case _ => None
  }

  /** `m.car_id = $n` on the query-string text, and `m.type_maintenance = $n`, each when truthy. */
  function MaintenanceFilters(carId: Option<int>, kind: Option<string>): seq<Filter>
  {
    (if carId.Some? then [Equals(MaintenanceCar, IntToString(carId.value))] else [])
    + (if Truthy(kind) then [Equals(MaintenanceKind, kind.value)] else [])
  }

  predicate MaintenanceMatches(m: Store.Maintenance, carId: Option<int>, kind: Option<string>)
  {
    (carId.Some? ==> m.carId == carId.value) && (Truthy(kind) ==> m.kind == kind)
  }

  lemma MaintenanceFiltersMean(carId: Option<int>, kind: Option<string>, m: Store.Maintenance)
    ensures SatisfiesAll(MaintenanceFilters(carId, kind), MaintenanceRow(m)) <==> MaintenanceMatches(m, carId, kind)
  {
    var row := MaintenanceRow(m);
    var a := if carId.Some? then [Equals(MaintenanceCar, IntToString(carId.value))] else [];
    var b := if Truthy(kind) then [Equals(MaintenanceKind, kind.value)] else [];
    SatisfiesAllAppend(a, b, row);
    if carId.Some? {
      SingleFilter(a[0], row);
      if IntToString(m.carId) == IntToString(carId.value) {
        IntToStringInjective(m.carId, carId.value);
      }
    }
    if Truthy(kind) {
      SingleFilter(b[0], row);
    }
  }

  function MatchingMaintenance(maintenance: map<int, Store.Maintenance>, carId: Option<int>, kind: Option<string>): (ids: set<int>)
    ensures forall k :: k in ids <==> k in maintenance && MaintenanceMatches(maintenance[k], carId, kind)
  {
    set k | k in maintenance && MaintenanceMatches(maintenance[k], carId, kind)
  }

  /** The WHERE clause built from the filters selects exactly the matching records. */
  lemma MaintenanceSelected(conditions: seq<Condition>, params: seq<Param>, maintenance: map<int, Store.Maintenance>,
                            carId: Option<int>, kind: Option<string>)
    requires forall row: Row :: HoldsAll(conditions, params, row) <==> SatisfiesAll(MaintenanceFilters(carId, kind), row)
    ensures (set k | k in maintenance && HoldsAll(conditions, params, MaintenanceRow(maintenance[k])))
            == MatchingMaintenance(maintenance, carId, kind)
  {
    forall k | k in maintenance
      ensures HoldsAll(conditions, params, MaintenanceRow(maintenance[k])) <==> MaintenanceMatches(maintenance[k], carId, kind)
    {
      MaintenanceFiltersMean(carId, kind, maintenance[k]);
    }
  }

  /** getMaintenanceHistory: the matching records, latest first, one page. */
  method ListMaintenance(db: Store.Database, page: int, limit: int, carId: Option<int>, kind: Option<string>)
    returns (r: Reply<Listing>)
    requires db.Valid()
    ensures r.Ok? <==> Pagination.Accepted(page, limit)
    ensures Pagination.PagingViolation(page, limit).Some? ==> r == Err(500, Pagination.PagingViolation(page, limit).value.message)
    ensures r.Ok? ==> r.code == 200 && r.value.total == |MatchingMaintenance(db.maintenance, carId, kind)| && r.value.pages == Pagination.JsonPages(r.value.total, limit)
    ensures r.Ok? ==> exists ordered :: Pagination.ListsDescending(ordered, MatchingMaintenance(db.maintenance, carId, kind)) && r.value.rows == Pagination.Page(ordered, page, limit)
    ensures r.Ok? ==> forall k | k in r.value.rows :: k in db.maintenance && MaintenanceMatches(db.maintenance[k], carId, kind)
  {
    var conditions, countParams, listParams, limitAt, offsetAt := BuildWhere(MaintenanceFilters(carId, kind), limit, Pagination.Offset(page, limit));
    var keys := set k | k in db.maintenance && HoldsAll(conditions, countParams, MaintenanceRow(db.maintenance[k]));
    MaintenanceSelected(conditions, countParams, db.maintenance, carId, kind);
    r := AnswerPage(keys, db.nextMaintenanceId, page, limit);
  }

  // ---------------------------------------------------------------------------
  // createDriver, updateDriver, deleteDriver.

  /** `car_id || null`: an absent car and car 0 are both stored as NULL. */
  function StoredCar(car: Option<int>): (stored: Option<int>)
    ensures stored.Some? <==> car.Some? && car.value != 0
    ensures stored.Some? ==> stored == car
  {
    if car.Some? && car.value != 0 then car else None
  }

  /**
   * The first constraint that `INSERT INTO driver_profiles` breaks, in the
   * order PostgreSQL checks them: NOT NULL column by column, then the UNIQUE
   * cnib, then the foreign key to cars.
   */
  function DriverInsertViolation(drivers: map<int, Store.DriverProfile>, cars: map<int, Store.Car>,
                                 nom: Option<string>, prenom: Option<string>, telephone: Option<string>,
                                 cnib: Option<string>, hiredOn: Option<string>, car: Option<int>): (v: Option<Violation>)
    ensures v.None? <==>
      && nom.Some? && prenom.Some? && telephone.Some? && cnib.Some? && hiredOn.Some?
      && !Store.CnibTaken(drivers, cnib.value) && (StoredCar(car).Some? ==> car.value in cars)
    ensures v.Some? && v.value.code == Store.NotNullViolation ==>
      nom.None? || prenom.None? || telephone.None? || cnib.None? || hiredOn.None?
    ensures nom.None? ==> v == Some(Violation(Store.NotNullViolation, Store.NotNullMessage("nom", "driver_profiles")))
  {
    if nom.None? then Some(Violation(Store.NotNullViolation, Store.NotNullMessage("nom", "driver_profiles")))
    else if prenom.None? then Some(Violation(Store.NotNullViolation, Store.NotNullMessage("prenom", "driver_profiles")))
    else if telephone.None? then Some(Violation(Store.NotNullViolation, Store.NotNullMessage("telephone", "driver_profiles")))
    else if cnib.None? then Some(Violation(Store.NotNullViolation, Store.NotNullMessage("cnib", "driver_profiles")))
    else if hiredOn.None? then Some(Violation(Store.NotNullViolation, Store.NotNullMessage("date_entree", "driver_profiles")))
    else if Store.CnibTaken(drivers, cnib.value) then Some(Violation(UniqueViolation, Store.UniqueMessage))
    else if StoredCar(car).Some? && car.value !in cars then Some(Violation(ForeignKeyViolation, Store.ForeignKeyMessage))
    else None
  }

  /**
   * createDriver: refused with 400 when the email is taken or a truthy
   * car_id is already held, before anything is written. Otherwise the users
   * row (role driver) draws an id and the profile follows; if the profile
   * INSERT breaks a constraint the transaction rolls back and the error
   * handler answers, the drawn id staying used.
   */
  method CreateDriver(db: Store.Database, email: string, passwordHash: string,
                      nom: Option<string>, prenom: Option<string>, telephone: Option<string>, residence: Option<string>,
                      car: Option<int>, cnib: Option<string>, hiredOn: Option<string>)
    returns (r: Reply<int>)
    requires db.Valid()
    modifies db`users, db`drivers, db`nextUserId
    ensures db.Valid()
    ensures Store.EmailTaken(old(db.users), email) ==> r == Err(400, EmailUsedMessage) && db.nextUserId == old(db.nextUserId)
    ensures !Store.EmailTaken(old(db.users), email) && StoredCar(car).Some? && Store.CarHeld(old(db.drivers), car.value, None) ==>
      r == Err(400, CarAssignedMessage) && db.nextUserId == old(db.nextUserId)
    ensures !Store.EmailTaken(old(db.users), email) && !(StoredCar(car).Some? && Store.CarHeld(old(db.drivers), car.value, None)) ==>
      && db.nextUserId == old(db.nextUserId) + 1
      && (var v := DriverInsertViolation(old(db.drivers), db.cars, nom, prenom, telephone, cnib, hiredOn, car);
          v.Some? ==> r == ReplyToDbError(v.value.code, v.value.message))
    ensures r.Ok? <==>
      && !Store.EmailTaken(old(db.users), email) && !(StoredCar(car).Some? && Store.CarHeld(old(db.drivers), car.value, None))
      && DriverInsertViolation(old(db.drivers), db.cars, nom, prenom, telephone, cnib, hiredOn, car).None?
    ensures r.Ok? ==> nom.Some? && prenom.Some? && telephone.Some? && cnib.Some? && hiredOn.Some?
    ensures r.Ok? ==>
      && r == Ok(201, old(db.nextUserId)) && r.value !in old(db.users)
      && db.users == old(db.users)[r.value := Store.User(email, passwordHash, Driver)]
      && db.drivers == old(db.drivers)[r.value := Store.DriverProfile(nom.value, prenom.value, telephone.value, residence,
                                                                     cnib.value, hiredOn.value, StoredCar(car), false, None, None)]
    ensures r.Err? ==> db.users == old(db.users) && db.drivers == old(db.drivers)
  {
    if Store.EmailTaken(db.users, email) {
      return Err(400, EmailUsedMessage);
    }
    if StoredCar(car).Some? && Store.CarHeld(db.drivers, car.value, None) {
      return Err(400, CarAssignedMessage);
    }
    r := DriverTransaction(db, email, passwordHash, nom, prenom, telephone, residence, car, cnib, hiredOn);
  }

  /** The transaction of createDriver once the email is free and no one holds the car: an id is drawn whatever follows. */
  method DriverTransaction(db: Store.Database, email: string, passwordHash: string,
                           nom: Option<string>, prenom: Option<string>, telephone: Option<string>, residence: Option<string>,
                           car: Option<int>, cnib: Option<string>, hiredOn: Option<string>)
    returns (r: Reply<int>)
    requires db.Valid() && !Store.EmailTaken(db.users, email)
    requires !(StoredCar(car).Some? && Store.CarHeld(db.drivers, car.value, None))
    modifies db`users, db`drivers, db`nextUserId
    ensures db.Valid() && db.nextUserId == old(db.nextUserId) + 1
    ensures var v := DriverInsertViolation(old(db.drivers), db.cars, nom, prenom, telephone, cnib, hiredOn, car);
      && (v.Some? ==> r == ReplyToDbError(v.value.code, v.value.message))
      && (r.Ok? <==> v.None?)
    ensures r.Ok? ==> nom.Some? && prenom.Some? && telephone.Some? && cnib.Some? && hiredOn.Some?
    ensures r.Ok? ==>
      && r == Ok(201, old(db.nextUserId)) && r.value !in old(db.users)
      && db.users == old(db.users)[r.value := Store.User(email, passwordHash, Driver)]
      && db.drivers == old(db.drivers)[r.value := Store.DriverProfile(nom.value, prenom.value, telephone.value, residence,
                                                                     cnib.value, hiredOn.value, StoredCar(car), false, None, None)]
    ensures r.Err? ==> db.users == old(db.users) && db.drivers == old(db.drivers)
  {
    var id := db.nextUserId;
    db.nextUserId := id + 1;
    var v := DriverInsertViolation(db.drivers, db.cars, nom, prenom, telephone, cnib, hiredOn, car);
    if v.Some? {
      return ReplyToDbError(v.value.code, v.value.message);
    }
    var profile := Store.DriverProfile(nom.value, prenom.value, telephone.value, residence, cnib.value, hiredOn.value,
                                       StoredCar(car), false, None, None);
    InsertDriver(db, id, Store.User(email, passwordHash, Driver), profile);
    return Ok(201, id);
  }

  /** The two INSERTs of createDriver, for a fresh id, a free email and cnib, and an existing car no one holds. */
  method InsertDriver(db: Store.Database, id: int, user: Store.User, profile: Store.DriverProfile)
    requires db.Valid() && id !in db.users && 1 <= id < db.nextUserId && user.role == Driver
    requires !Store.EmailTaken(db.users, user.email) && !Store.CnibTaken(db.drivers, profile.cnib)
    requires profile.carId.None? || (profile.carId.value in db.cars && !Store.CarHeld(db.drivers, profile.carId.value, None))
    modifies db`users, db`drivers
    ensures db.Valid() && db.users == old(db.users)[id := user] && db.drivers == old(db.drivers)[id := profile]
  {
    assert id !in db.drivers;
    Store.AssignKeepsOneDriverPerCar(db.drivers, id, profile);
    var users := db.users[id := user];
    var drivers := db.drivers[id := profile];
    assert Store.EmailsUnique(users) by {
      forall a, b | a in users && b in users && users[a].email == users[b].email ensures a == b {
        if a != id && b != id { assert db.users[a].email == db.users[b].email; }
      }
    }
    assert Store.CnibsUnique(drivers) by {
      forall a, b | a in drivers && b in drivers && drivers[a].cnib == drivers[b].cnib ensures a == b {
        if a != id && b != id { assert db.drivers[a].cnib == db.drivers[b].cnib; }
      }
    }
    db.users := users;
    db.drivers := drivers;
  }

  /** No field of the PATCH body was sent. */
  predicate NothingSent(nom: Patch<string>, prenom: Patch<string>, telephone: Patch<string>, residence: Patch<string>, car: Patch<int>)
  {
    nom.Omitted? && prenom.Omitted? && telephone.Omitted? && residence.Omitted? && car.Omitted?
  }

  /** The first constraint the UPDATE breaks: a NULL in a NOT NULL column, in column order, then the car's foreign key. */
  function DriverUpdateViolation(cars: map<int, Store.Car>, nom: Patch<string>, prenom: Patch<string>, telephone: Patch<string>,
                                 car: Patch<int>): (v: Option<Violation>)
    ensures v.None? <==> !nom.SetNull? && !prenom.SetNull? && !telephone.SetNull? && (car.SetTo? && car.value != 0 ==> car.value in cars)
  {
    if nom.SetNull? then Some(Violation(Store.NotNullViolation, Store.NotNullMessage("nom", "driver_profiles")))
    else if prenom.SetNull? then Some(Violation(Store.NotNullViolation, Store.NotNullMessage("prenom", "driver_profiles")))
    else if telephone.SetNull? then Some(Violation(Store.NotNullViolation, Store.NotNullMessage("telephone", "driver_profiles")))
    else if car.SetTo? && car.value != 0 && car.value !in cars then Some(Violation(ForeignKeyViolation, Store.ForeignKeyMessage))
    else None
  }

  /** The row after `SET f = $n` for each field sent: an omitted field keeps its value; nothing outside the five changes. */
  function PatchedDriver(p: Store.DriverProfile, nom: Patch<string>, prenom: Patch<string>, telephone: Patch<string>,
                         residence: Patch<string>, car: Patch<int>): (q: Store.DriverProfile)
    requires !nom.SetNull? && !prenom.SetNull? && !telephone.SetNull?
    ensures q.cnib == p.cnib && q.hiredOn == p.hiredOn && q.online == p.online && q.position == p.position
    ensures q.locatedAt == p.locatedAt
    ensures (nom.Omitted? ==> q.nom == p.nom) && (nom.SetTo? ==> q.nom == nom.value)
    ensures (prenom.Omitted? ==> q.prenom == p.prenom) && (prenom.SetTo? ==> q.prenom == prenom.value)
    ensures (telephone.Omitted? ==> q.telephone == p.telephone) && (telephone.SetTo? ==> q.telephone == telephone.value)
    ensures (residence.Omitted? ==> q.residence == p.residence) && (residence.SetNull? ==> q.residence.None?)
    ensures residence.SetTo? ==> q.residence == Some(residence.value)
    ensures (car.Omitted? ==> q.carId == p.carId) && (car.SetNull? ==> q.carId.None?)
    ensures car.SetTo? ==> q.carId == StoredCar(Some(car.value))
  {
    p.(nom := if nom.SetTo? then nom.value else p.nom,
       prenom := if prenom.SetTo? then prenom.value else p.prenom,
       telephone := if telephone.SetTo? then telephone.value else p.telephone,
       residence := PatchedResidence(p.residence, residence),
       carId := PatchedCarId(p.carId, car))
  }

  /** The nullable lieu_residence column after the PATCH. */
  function PatchedResidence(current: Option<string>, residence: Patch<string>): Option<string>
  {
    match residence
    case Omitted => current
    case SetNull => None
    case SetTo(v) => Some(v)
  }

  /** The car_id column after the PATCH: `car_id || null` for a value sent. */
  function PatchedCarId(current: Option<int>, car: Patch<int>): Option<int>
  {
    match car
    case Omitted => current
    case SetNull => None
    case SetTo(c) => StoredCar(Some(c))
  }

  /** A car that its own driver holds is held by nobody else. */
  lemma OwnCarNotHeldByOthers(drivers: map<int, Store.DriverProfile>, d: int)
    requires Store.OneDriverPerCar(drivers) && d in drivers && drivers[d].carId.Some?
    ensures !Store.CarHeld(drivers, drivers[d].carId.value, Some(d))
  {
  }

  /**
   * updateDriver: 404 for an unknown driver; 400 when the car sent (not
   * null) is held by another driver, or when no field is sent; otherwise
   * the sent fields, and only they, are written, unless PostgreSQL refuses
   * the UPDATE, which rolls back.
   */
  method UpdateDriver(db: Store.Database, id: int, nom: Patch<string>, prenom: Patch<string>, telephone: Patch<string>,
                      residence: Patch<string>, car: Patch<int>)
    returns (r: Reply<Store.DriverProfile>)
    requires db.Valid()
    modifies db`drivers
    ensures db.Valid()
    ensures id !in old(db.drivers) ==> r == Err(404, DriverNotFoundMessage)
    ensures id in old(db.drivers) && car.SetTo? && Store.CarHeld(old(db.drivers), car.value, Some(id)) ==>
      r == Err(400, CarAssignedMessage)
    ensures id in old(db.drivers) && !(car.SetTo? && Store.CarHeld(old(db.drivers), car.value, Some(id))) ==>
      && (NothingSent(nom, prenom, telephone, residence, car) ==> r == Err(400, NothingToUpdateMessage))
      && (var v := DriverUpdateViolation(db.cars, nom, prenom, telephone, car);
          !NothingSent(nom, prenom, telephone, residence, car) && v.Some? ==> r == ReplyToDbError(v.value.code, v.value.message))
    ensures r.Ok? <==>
      && id in old(db.drivers) && !(car.SetTo? && Store.CarHeld(old(db.drivers), car.value, Some(id)))
      && !NothingSent(nom, prenom, telephone, residence, car) && DriverUpdateViolation(db.cars, nom, prenom, telephone, car).None?
    ensures r.Ok? ==>
      && r == Ok(200, PatchedDriver(old(db.drivers)[id], nom, prenom, telephone, residence, car))
      && db.drivers == old(db.drivers)[id := r.value]
    ensures r.Err? ==> db.drivers == old(db.drivers)
  {
    if id !in db.drivers {
      return Err(404, DriverNotFoundMessage);
    }
    r := UpdateFoundDriver(db, id, nom, prenom, telephone, residence, car);
  }

  /** updateDriver once the profile is known to exist: the car check, the empty-body check, then the UPDATE. */
  method UpdateFoundDriver(db: Store.Database, id: int, nom: Patch<string>, prenom: Patch<string>, telephone: Patch<string>,
                           residence: Patch<string>, car: Patch<int>)
    returns (r: Reply<Store.DriverProfile>)
    requires db.Valid() && id in db.drivers
    modifies db`drivers
    ensures db.Valid()
    ensures car.SetTo? && Store.CarHeld(old(db.drivers), car.value, Some(id)) ==> r == Err(400, CarAssignedMessage)
    ensures !(car.SetTo? && Store.CarHeld(old(db.drivers), car.value, Some(id))) ==>
      && (NothingSent(nom, prenom, telephone, residence, car) ==> r == Err(400, NothingToUpdateMessage))
      && (var v := DriverUpdateViolation(db.cars, nom, prenom, telephone, car);
          !NothingSent(nom, prenom, telephone, residence, car) && v.Some? ==> r == ReplyToDbError(v.value.code, v.value.message))
    ensures r.Ok? <==>
      && !(car.SetTo? && Store.CarHeld(old(db.drivers), car.value, Some(id)))
      && !NothingSent(nom, prenom, telephone, residence, car) && DriverUpdateViolation(db.cars, nom, prenom, telephone, car).None?
    ensures r.Ok? ==>
      && r == Ok(200, PatchedDriver(old(db.drivers)[id], nom, prenom, telephone, residence, car))
      && db.drivers == old(db.drivers)[id := r.value]
    ensures r.Err? ==> db.drivers == old(db.drivers)
  {
    if car.SetTo? && Store.CarHeld(db.drivers, car.value, Some(id)) {
      return Err(400, CarAssignedMessage);
    }
    if NothingSent(nom, prenom, telephone, residence, car) {
      return Err(400, NothingToUpdateMessage);
    }
    var v := DriverUpdateViolation(db.cars, nom, prenom, telephone, car);
    if v.Some? {
      return ReplyToDbError(v.value.code, v.value.message);
    }
    var q := PatchDriver(db, id, nom, prenom, telephone, residence, car);
    return Ok(200, q);
  }

  /** The UPDATE of updateDriver once every check has passed: the patched row replaces the old one. */
  method PatchDriver(db: Store.Database, id: int, nom: Patch<string>, prenom: Patch<string>, telephone: Patch<string>,
                     residence: Patch<string>, car: Patch<int>)
    returns (q: Store.DriverProfile)
    requires db.Valid() && id in db.drivers && !(car.SetTo? && Store.CarHeld(db.drivers, car.value, Some(id)))
    requires DriverUpdateViolation(db.cars, nom, prenom, telephone, car).None?
    modifies db`drivers
    ensures db.Valid() && q == PatchedDriver(old(db.drivers)[id], nom, prenom, telephone, residence, car)
    ensures db.drivers == old(db.drivers)[id := q]
  {
    q := PatchedDriver(db.drivers[id], nom, prenom, telephone, residence, car);
    if car.Omitted? && q.carId.Some? {
      OwnCarNotHeldByOthers(db.drivers, id);
    }
    WriteDriver(db, id, q);
  }

  /** `UPDATE driver_profiles SET … WHERE user_id = $n` for a row that keeps its cnib and takes a car no one else holds. */
  method WriteDriver(db: Store.Database, id: int, q: Store.DriverProfile)
    requires db.Valid() && id in db.drivers && q.cnib == db.drivers[id].cnib
    requires q.carId.None? || (q.carId.value in db.cars && !Store.CarHeld(db.drivers, q.carId.value, Some(id)))
    modifies db`drivers
    ensures db.Valid() && db.drivers == old(db.drivers)[id := q]
  {
    Store.ReplaceDriverKeepsInvariants(db.users, db.drivers, db.cars, id, q);
    db.drivers := db.drivers[id := q];
  }

  /**
   * deleteDriver: refused while the driver has a pending, accepted, arrived
   * or in-progress ride; 404 without a profile. Deleting the users row fails
   * the rides foreign keys when any ride still names the user, and the
   * transaction rolls back; otherwise profile and user are both gone.
   */
  method DeleteDriver(db: Store.Database, id: int) returns (r: Reply<()>)
    requires db.Valid()
    modifies db`users, db`drivers
    ensures db.Valid()
    ensures Store.HasActiveRideAsDriver(db.rides, id) ==> r == Err(400, DriverBusyMessage)
    ensures !Store.HasActiveRideAsDriver(db.rides, id) && id !in old(db.drivers) ==> r == Err(404, DriverNotFoundMessage)
    ensures !Store.HasActiveRideAsDriver(db.rides, id) && id in old(db.drivers) && Store.RideReferences(db.rides, id) ==>
      r == ReplyToDbError(ForeignKeyViolation, Store.ForeignKeyMessage)
    ensures r.Ok? <==> id in old(db.drivers) && !Store.RideReferences(db.rides, id)
    ensures r.Ok? ==> r == Ok(200, ()) && db.users == old(db.users) - {id} && db.drivers == old(db.drivers) - {id}
    ensures r.Err? ==> db.users == old(db.users) && db.drivers == old(db.drivers)
  {
    if Store.HasActiveRideAsDriver(db.rides, id) {
      return Err(400, DriverBusyMessage);
    }
    if id !in db.drivers {
      return Err(404, DriverNotFoundMessage);
    }
    if Store.RideReferences(db.rides, id) {
      return ReplyToDbError(ForeignKeyViolation, Store.ForeignKeyMessage);
    }
    db.drivers := db.drivers - {id};
    db.users := db.users - {id};
    return Ok(200, ());
  }

  // ---------------------------------------------------------------------------
  // deleteClient.

  /** deleteClient: deleteDriver's sequence on client_profiles, with the client's active rides. */
  method DeleteClient(db: Store.Database, id: int) returns (r: Reply<()>)
    requires db.Valid()
    modifies db`users, db`clients
    ensures db.Valid()
    ensures Store.HasActiveRideAsClient(db.rides, id) ==> r == Err(400, ClientBusyMessage)
    ensures !Store.HasActiveRideAsClient(db.rides, id) && id !in old(db.clients) ==> r == Err(404, ClientNotFoundMessage)
    ensures !Store.HasActiveRideAsClient(db.rides, id) && id in old(db.clients) && Store.RideReferences(db.rides, id) ==>
      r == ReplyToDbError(ForeignKeyViolation, Store.ForeignKeyMessage)
    ensures r.Ok? <==> id in old(db.clients) && !Store.RideReferences(db.rides, id)
    ensures r.Ok? ==> r == Ok(200, ()) && db.users == old(db.users) - {id} && db.clients == old(db.clients) - {id}
    ensures r.Err? ==> db.users == old(db.users) && db.clients == old(db.clients)
  {
    if Store.HasActiveRideAsClient(db.rides, id) {
      return Err(400, ClientBusyMessage);
    }
    if id !in db.clients {
      return Err(404, ClientNotFoundMessage);
    }
    if Store.RideReferences(db.rides, id) {
      return ReplyToDbError(ForeignKeyViolation, Store.ForeignKeyMessage);
    }
    db.clients := db.clients - {id};
    db.users := db.users - {id};
    return Ok(200, ());
  }

  // ---------------------------------------------------------------------------
  // createCar, updateCar, deleteCar.

  /** `status || 'active'`. */
  function CarStatusOrDefault(status: Option<string>): (s: string)
    ensures Truthy(status) ==> s == status.value
    ensures !Truthy(status) ==> s == DefaultCarStatus
  {
    if Truthy(status) then status.value else DefaultCarStatus
  }

  /** What PostgreSQL says when the cars CHECK refuses a status. */
  const CarStatusRefused := Violation(Store.CheckViolation, Store.CheckMessage("cars", "cars_status_check"))

  /** The first constraint createCar's INSERT breaks: NOT NULL on model, then plate; then the CHECK on the status. */
  function CarInsertViolation(model: Option<string>, plate: Option<string>, status: Option<string>): (v: Option<Violation>)
    ensures v.None? <==> model.Some? && plate.Some? && Store.CarStatusAllowed(Some(CarStatusOrDefault(status)))
    ensures model.Some? && plate.Some? && !Store.CarStatusAllowed(Some(CarStatusOrDefault(status))) ==> v == Some(CarStatusRefused)
  {
    if model.None? then Some(Violation(Store.NotNullViolation, Store.NotNullMessage("nom_modele", "cars")))
    else if plate.None? then Some(Violation(Store.NotNullViolation, Store.NotNullMessage("plaque_immatriculation", "cars")))
    else if !Store.CarStatusAllowed(Some(CarStatusOrDefault(status))) then Some(CarStatusRefused)
    else None
  }

  /**
   * createCar's default status `active` is not one the table admits: a car
   * created without a status is refused with 500, and a created car has
   * one of the three statuses the CHECK lists.
   */
  lemma DefaultCarStatusRefused(model: Option<string>, plate: Option<string>, status: Option<string>)
    ensures !Truthy(status) ==> CarInsertViolation(model, plate, status).Some?
    ensures !Truthy(status) && model.Some? && plate.Some? ==>
      ReplyToDbError<int>(CarStatusRefused.code, CarStatusRefused.message) == Err(500, CarStatusRefused.message)
    ensures CarInsertViolation(model, plate, status).None? ==> status.Some? && status.value in {"available", "in_use", "maintenance"}
  {
    assert DefaultCarStatus !in {"available", "in_use", "maintenance"};
  }

  /**
   * createCar: refused with 400 when the plate exists; otherwise one INSERT,
   * status defaulting to "active" and the type to the column default. It
   * runs outside a transaction, and a failing INSERT writes nothing; the
   * cars CHECK refuses every status but available, in_use and maintenance,
   * the default among them.
   */
  method CreateCar(db: Store.Database, model: Option<string>, plate: Option<string>, status: Option<string>)
    returns (r: Reply<int>)
    requires db.Valid()
    modifies db`cars, db`nextCarId
    ensures db.Valid()
    ensures plate.Some? && Store.PlateTaken(old(db.cars), plate.value, None) ==>
      r == Err(400, PlateExistsMessage) && db.nextCarId == old(db.nextCarId)
    ensures !(plate.Some? && Store.PlateTaken(old(db.cars), plate.value, None)) ==>
      && db.nextCarId == old(db.nextCarId) + 1
      && (var v := CarInsertViolation(model, plate, status); v.Some? ==> r == ReplyToDbError(v.value.code, v.value.message))
    ensures r.Ok? <==> !(plate.Some? && Store.PlateTaken(old(db.cars), plate.value, None)) && CarInsertViolation(model, plate, status).None?
    ensures r.Ok? ==>
      && r == Ok(201, old(db.nextCarId)) && r.value !in old(db.cars)
      && db.cars == old(db.cars)[r.value := Store.Car(model.value, plate.value, Some(CarStatusOrDefault(status)), DefaultVehicleType)]
    ensures r.Err? ==> db.cars == old(db.cars)
  {
    if plate.Some? && Store.PlateTaken(db.cars, plate.value, None) {
      return Err(400, PlateExistsMessage);
    }
    var id := db.nextCarId;
    db.nextCarId := id + 1;
    var v := CarInsertViolation(model, plate, status);
    if v.Some? {
      return ReplyToDbError(v.value.code, v.value.message);
    }
    db.cars := db.cars[id := Store.Car(model.value, plate.value, Some(CarStatusOrDefault(status)), DefaultVehicleType)];
    return Ok(201, id);
  }

  /**
   * The first constraint updateCar's UPDATE breaks: NOT NULL on model, then
   * plate; then the CHECK on a status sent as text (the stored status of a
   * row already passed it, and NULL passes); then the UNIQUE plate.
   */
  function CarUpdateViolation(cars: map<int, Store.Car>, id: int, model: Patch<string>, plate: Patch<string>, status: Patch<string>)
    : (v: Option<Violation>)
    ensures v.None? <==>
      && !model.SetNull? && !plate.SetNull? && (status.SetTo? ==> Store.CarStatusAllowed(Some(status.value)))
      && (plate.SetTo? ==> !Store.PlateTaken(cars, plate.value, Some(id)))
    ensures !model.SetNull? && !plate.SetNull? && status.SetTo? && !Store.CarStatusAllowed(Some(status.value)) ==> v == Some(CarStatusRefused)
  {
    if model.SetNull? then Some(Violation(Store.NotNullViolation, Store.NotNullMessage("nom_modele", "cars")))
    else if plate.SetNull? then Some(Violation(Store.NotNullViolation, Store.NotNullMessage("plaque_immatriculation", "cars")))
    else if status.SetTo? && !Store.CarStatusAllowed(Some(status.value)) then Some(CarStatusRefused)
    else if plate.SetTo? && Store.PlateTaken(cars, plate.value, Some(id)) then Some(Violation(UniqueViolation, Store.UniqueMessage))
    else None
  }

  /** The car after the sent fields are written; its type never changes. */
  function PatchedCar(c: Store.Car, model: Patch<string>, plate: Patch<string>, status: Patch<string>): (d: Store.Car)
    requires !model.SetNull? && !plate.SetNull?
    ensures d.vehicleType == c.vehicleType
    ensures (model.Omitted? ==> d.model == c.model) && (model.SetTo? ==> d.model == model.value)
    ensures (plate.Omitted? ==> d.plate == c.plate) && (plate.SetTo? ==> d.plate == plate.value)
    ensures (status.Omitted? ==> d.status == c.status) && (status.SetNull? ==> d.status.None?)
    ensures status.SetTo? ==> d.status == Some(status.value)
  {
    c.(model := if model.SetTo? then model.value else c.model,
       plate := if plate.SetTo? then plate.value else c.plate,
       status := match status case Omitted => c.status case SetNull => None case SetTo(s) => Some(s))
  }

  /**
   * updateCar: 404 for an unknown car; 400 when a truthy plate belongs to
   * another car, or when nothing is sent; otherwise the sent fields are
   * written unless PostgreSQL refuses the UPDATE (an empty plate escapes the
   * handler's check and meets the UNIQUE constraint instead).
   */
  method UpdateCar(db: Store.Database, id: int, model: Patch<string>, plate: Patch<string>, status: Patch<string>)
    returns (r: Reply<Store.Car>)
    requires db.Valid()
    modifies db`cars
    ensures db.Valid()
    ensures id !in old(db.cars) ==> r == Err(404, CarNotFoundMessage)
    ensures id in old(db.cars) && plate.SetTo? && plate.value != "" && Store.PlateTaken(old(db.cars), plate.value, Some(id)) ==>
      r == Err(400, PlateUsedMessage)
    ensures id in old(db.cars) && !(plate.SetTo? && plate.value != "" && Store.PlateTaken(old(db.cars), plate.value, Some(id))) ==>
      && (model.Omitted? && plate.Omitted? && status.Omitted? ==> r == Err(400, NothingToUpdateMessage))
      && (var v := CarUpdateViolation(old(db.cars), id, model, plate, status);
          !(model.Omitted? && plate.Omitted? && status.Omitted?) && v.Some? ==> r == ReplyToDbError(v.value.code, v.value.message))
    ensures r.Ok? <==>
      && id in old(db.cars) && !(model.Omitted? && plate.Omitted? && status.Omitted?)
      && CarUpdateViolation(old(db.cars), id, model, plate, status).None?
    ensures r.Ok? ==> r == Ok(200, PatchedCar(old(db.cars)[id], model, plate, status)) && db.cars == old(db.cars)[id := r.value]
    ensures r.Err? ==> db.cars == old(db.cars)
  {
    if id !in db.cars {
      return Err(404, CarNotFoundMessage);
    }
    if plate.SetTo? && plate.value != "" && Store.PlateTaken(db.cars, plate.value, Some(id)) {
      return Err(400, PlateUsedMessage);
    }
    if model.Omitted? && plate.Omitted? && status.Omitted? {
      return Err(400, NothingToUpdateMessage);
    }
    var v := CarUpdateViolation(db.cars, id, model, plate, status);
    if v.Some? {
      return ReplyToDbError(v.value.code, v.value.message);
    }
    var c := PatchedCar(db.cars[id], model, plate, status);
    db.cars := db.cars[id := c];
    return Ok(200, c);
  }

  /** `DELETE FROM maintenance WHERE car_id = $1`: the records of every other car, untouched. */
  function WithoutCar(maintenance: map<int, Store.Maintenance>, car: int): (kept: map<int, Store.Maintenance>)
    ensures forall k :: k in kept <==> k in maintenance && maintenance[k].carId != car
    ensures forall k | k in kept :: kept[k] == maintenance[k]
  {
    map k | k in maintenance && maintenance[k].carId != car :: maintenance[k]
  }

  /**
   * deleteCar: refused while a driver holds the car; otherwise its
   * maintenance records and then the car are deleted, and an unknown car is
   * a 404 after the rollback.
   */
  method DeleteCar(db: Store.Database, id: int) returns (r: Reply<()>)
    requires db.Valid()
    modifies db`cars, db`maintenance
    ensures db.Valid()
    ensures Store.CarHeld(db.drivers, id, None) ==> r == Err(400, CarHeldMessage)
    ensures !Store.CarHeld(db.drivers, id, None) && id !in old(db.cars) ==> r == Err(404, CarNotFoundMessage)
    ensures r.Ok? <==> !Store.CarHeld(db.drivers, id, None) && id in old(db.cars)
    ensures r.Ok? ==> r == Ok(200, ()) && db.cars == old(db.cars) - {id} && db.maintenance == WithoutCar(old(db.maintenance), id)
    ensures r.Err? ==> db.cars == old(db.cars) && db.maintenance == old(db.maintenance)
  {
    if Store.CarHeld(db.drivers, id, None) {
      return Err(400, CarHeldMessage);
    }
    if id !in db.cars {
      return Err(404, CarNotFoundMessage);
    }
    db.maintenance := WithoutCar(db.maintenance, id);
    db.cars := db.cars - {id};
    return Ok(200, ());
  }

  // ---------------------------------------------------------------------------
  // createMaintenance.

  /** `date_maintenance || new Date()`. */
  function MaintenanceDateOf(date: Option<string>, now: Timestamp): (d: Store.MaintenanceDate)
    ensures Truthy(date) ==> d == Store.OnDate(date.value)
    ensures !Truthy(date) ==> d == Store.At(now)
  {
    if Truthy(date) then Store.OnDate(date.value) else Store.At(now)
  }

  /**
   * The date parameter, read by PostgreSQL's date input when it binds the
   * INSERT's parameters, before any row is built; `readDate` is that input
   * function, whose grammar and calendar are not modelled. Text it cannot
   * parse is 22007; a date it parses but no calendar has is 22008. A date
   * left out is the insert time, which always reads.
   */
  function MaintenanceDateViolation(date: Option<string>, readDate: string -> Store.DateRead): (v: Option<Violation>)
    ensures v.None? <==> !Truthy(date) || readDate(date.value).Readable?
    ensures v.Some? && readDate(date.value).Malformed? ==>
      v.value == Violation(Store.DateSyntaxViolation, Store.DateSyntaxMessage(date.value))
    ensures v.Some? && readDate(date.value).OutOfRange? ==>
      v.value == Violation(Store.DateRangeViolation, Store.DateRangeMessage(date.value))
  {
    if !Truthy(date) then None
    else match readDate(date.value)
      case Readable => None
      case Malformed => Some(Violation(Store.DateSyntaxViolation, Store.DateSyntaxMessage(date.value)))
      case OutOfRange => Some(Violation(Store.DateRangeViolation, Store.DateRangeMessage(date.value)))
  }

  /**
   * The first error the INSERT's row raises: the cost rounded to cents must
   * fit DECIMAL(10, 2) (the row is built before its constraints are
   * checked); then NOT NULL on description, then on cout.
   */
  function MaintenanceInsertViolation(description: Option<string>, cost: Option<real>): (v: Option<Violation>)
    ensures v.None? <==> description.Some? && cost.Some? && Store.CentsFit(cost.value)
    ensures cost.Some? && !Store.CentsFit(cost.value) ==> v == Some(Violation(Store.NumericOverflow, Store.NumericOverflowMessage))
  {
    if cost.Some? && !Store.CentsFit(cost.value) then Some(Violation(Store.NumericOverflow, Store.NumericOverflowMessage))
    else if description.None? then Some(Violation(Store.NotNullViolation, Store.NotNullMessage("description", "maintenance")))
    else if cost.None? then Some(Violation(Store.NotNullViolation, Store.NotNullMessage("cout", "maintenance")))
    else None
  }

  /** A cost of 100 000 000 rounds to more than DECIMAL(10, 2) holds, so createMaintenance answers 500. */
  lemma HundredMillionOverflows()
    ensures !Store.CentsFit(100000000.0)
    ensures MaintenanceInsertViolation(Some("vidange"), Some(100000000.0)) == Some(Violation(Store.NumericOverflow, Store.NumericOverflowMessage))
    ensures ReplyToDbError<int>(Store.NumericOverflow, Store.NumericOverflowMessage) == Err(500, Store.NumericOverflowMessage)
  {
  }

  /**
   * createMaintenance: 404 unless the car exists (an absent car_id finds no
   * car); then a date PostgreSQL cannot read, or reads out of range, is
   * refused before the INSERT runs; otherwise one INSERT, dated now when no
   * date is sent, whose cost is kept to the cent. Every refusal goes
   * through the error handler.
   */
  method CreateMaintenance(db: Store.Database, carId: Option<int>, kind: Option<string>, description: Option<string>,
                           cost: Option<real>, date: Option<string>, readDate: string -> Store.DateRead, now: Timestamp)
    returns (r: Reply<int>)
    requires db.Valid()
    modifies db`maintenance, db`nextMaintenanceId
    ensures db.Valid()
    ensures carId.None? || carId.value !in db.cars ==>
      r == Err(404, CarNotFoundMessage) && db.nextMaintenanceId == old(db.nextMaintenanceId)
    ensures carId.Some? && carId.value in db.cars && MaintenanceDateViolation(date, readDate).Some? ==>
      r == Err(500, MaintenanceDateViolation(date, readDate).value.message) && db.nextMaintenanceId == old(db.nextMaintenanceId)
    ensures carId.Some? && carId.value in db.cars && MaintenanceDateViolation(date, readDate).None? ==>
      && db.nextMaintenanceId == old(db.nextMaintenanceId) + 1
      && (var v := MaintenanceInsertViolation(description, cost); v.Some? ==> r == ReplyToDbError(v.value.code, v.value.message))
    ensures r.Ok? <==>
      carId.Some? && carId.value in db.cars && MaintenanceDateViolation(date, readDate).None?
      && description.Some? && cost.Some? && Store.CentsFit(cost.value)
    ensures r.Ok? ==>
      && r == Ok(201, old(db.nextMaintenanceId)) && r.value !in old(db.maintenance)
      && db.maintenance == old(db.maintenance)[r.value := Store.Maintenance(carId.value, kind, description.value, Store.StoredCents(cost.value),
                                                                           MaintenanceDateOf(date, now))]
    ensures r.Err? ==> db.maintenance == old(db.maintenance)
  {
    if carId.None? || carId.value !in db.cars {
      return Err(404, CarNotFoundMessage);
    }
    var refused := MaintenanceDateViolation(date, readDate);
    if refused.Some? {
      return ReplyToDbError(refused.value.code, refused.value.message);
    }
    var id := db.nextMaintenanceId;
    db.nextMaintenanceId := id + 1;
    var v := MaintenanceInsertViolation(description, cost);
    if v.Some? {
      return ReplyToDbError(v.value.code, v.value.message);
    }
    db.maintenance := db.maintenance[id := Store.Maintenance(carId.value, kind, description.value, Store.StoredCents(cost.value), MaintenanceDateOf(date, now))];
    return Ok(201, id);
  }
}
