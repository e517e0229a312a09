# TaxiTrack backend in Dafny

TaxiTrack is a ride-hailing backend with three roles: clients, drivers and
admins. Clients request rides, and drivers see them, accept them and move
them through `accepted → arrived → in_progress → completed`. Admins manage
drivers, cars, clients and maintenance records. An Express server answers
HTTP requests against PostgreSQL, and a socket.io server pushes live events
into per-user and per-role rooms.

This project models the backend's sequential rules:

- **The database** is one class, `Store.Database`. Each table is a map from
  id to record, and each SERIAL column is a next-id counter.
  `Database.Valid()` holds the uniqueness and foreign-key constraints the
  handlers rely on: unique email, plate and CNIB, at most one driver per
  car, profiles whose user has the matching role, and rides whose users
  exist.
- **The socket.io server** is the class `Socket.Hub`. It holds every open
  connection's identity and rooms, plus a log of every event emitted. Each
  event records the connections it reached at the moment it was emitted.
- **Handlers** are methods over the database and the hub, with `modifies`
  clauses naming exactly the tables they write. They are grouped in one
  module per controller file: `ClientController`, `DriverController`,
  `AdminController` and `AuthController`.
  - Each method's postcondition gives the HTTP status and the new state on
    every path.
  - A database constraint error goes through the error middleware, whose
    model is `ErrorHandler.HandleError`.
- **Middleware** is pure:
  - `Auth` covers the Bearer header, token verification and role checks.
  - `ErrorHandler` maps errors to HTTP replies.
  - `Validation` models the express-validator chains as data. A rule names
    a location, a field, an optional flag and a sequence of tests and trim
    sanitizers. `Validate` runs a list of rules over a request.
- **Route files** (`ClientRoutes`, `DriverRoutes`, `AdminRoutes`) define each
  route's chain. Lemmas state what a request that passes the chain
  satisfies.
- **SQL helpers**:
  - `QueryBuilder` has the dynamic WHERE builder and the UPDATE SET
    builder. They are loops over a filter list, proved equivalent to the
    filters' meaning.
  - `Pagination` has the offset and page-count arithmetic, and a loop that
    lists ids in descending order.
- **Scenarios** are short runs from an empty database. They show behaviour
  that follows from the code as written.

Outside collaborators become parameters:

- jwt signing and verification: `sign`, `verify`
- bcrypt: a password hash input and a `compare` function
- the clock: `now`
- the haversine distance: a non-negative `distance`
- whether a request carries `req.io`: a boolean `attached`
- PostgreSQL's date input, for the maintenance date: a function `readDate` that says whether a text reads as a date, cannot be parsed, or has fields out of range

## Model

| member | source | states |
|---|---|---|
| Common.ParseStatusName | backend/database/update_ride_statuses.js:19 | each of the six ride statuses is read back from its stored name |
| Common.ParseStatus | backend/database/update_ride_statuses.js:19 | a name parses to a status exactly when that status's stored name is that text |
| Common.RoomNameInjective | backend/src/config/socket.js:47-57 | distinct rooms (`user_<id>`, `drivers`, `clients`) have distinct names, so a personal room never coincides with another user's or a role room |
| Store.AssignKeepsOneDriverPerCar | backend/src/controllers/adminController.js:475-489 | giving a driver a car that no other driver holds keeps "at most one driver per car" |
| Store.ReplaceDriverKeepsInvariants | backend/src/controllers/adminController.js:565-579 | rewriting one driver profile, with the same CNIB and a car that exists and is free, keeps every driver-table constraint |
| Store.StoredCents | backend/database/migrate.js:99-116 | DECIMAL(10,2) (`prix`, `cout`): the stored amount is a whole number of cents, within half a cent of the one sent, with halves rounded away from zero, for either sign |
| Store.StoredCoordinate | backend/database/migrate.js:91-95 | DECIMAL(·,8): the stored coordinate has eight decimal places and lies within half of 10⁻⁸ of the given one |
| Store.StoredPlace | backend/database/migrate.js:91-95 | a stored place keeps its address and holds both coordinates rounded to eight places |
| ErrorHandler.HandleValidationErrors | backend/src/middleware/errorHandler.js:6-18 | the request goes on exactly when there are no validation errors; otherwise the reply is 400 'Erreur de validation' |
| ErrorHandler.HandleError | backend/src/middleware/errorHandler.js:23-50 | 23505 gives 409 and 23503 gives 400; any other error uses its status or 500 and its message or 'Erreur serveur interne'; the stack is included only in development |
| ErrorHandler.OtherDatabaseErrorsAre500 | backend/src/middleware/errorHandler.js:45-48 | any other database error is a 500 carrying its own message, with the stack exactly in development |
| ErrorHandler.ReplyToThrown | backend/src/middleware/errorHandler.js:23-50 | a thrown error reaches the client as the error handler's status and message |
| ErrorHandler.ReplyToDbError | backend/src/middleware/errorHandler.js:26-48 | a constraint error becomes 409 (unique), 400 (foreign key) or 500 with its message |
| Auth.ExtractToken | backend/src/middleware/auth.js:18 | the token is the header with the 7-character "Bearer " prefix removed |
| Auth.Authenticate | backend/src/middleware/auth.js:6-44 | a missing or non-Bearer header gives 401; the request goes on exactly when the token decodes, with req.user being the decoded id, email and role; an expired token gives 'Token expiré' and any other failure 'Token invalide' |
| Auth.BearerRoundTrip | backend/src/middleware/auth.js:11-28 | "Bearer " + t is accepted, the token read back is t, and the outcome is exactly the verification of t |
| Auth.Authorize | backend/src/middleware/auth.js:50-68 | no user gives 401, a role outside the list gives 403, and the request goes on exactly when the user's role is listed |
| Auth.Guard | backend/src/routes/clientRoutes.js:17-18 | authenticate then authorize: the request goes on exactly when the token decodes to a listed role; every refusal is 401 or 403 |
| Socket.RoomsFor | backend/src/config/socket.js:47-58 | every connection joins `user_<id>` and no other user's room; it joins `drivers` exactly when it is a driver and `clients` exactly when it is a client |
| Socket.AdminJoinsOnlyItsRoom | backend/src/config/socket.js:47-58 | an admin's connection is in its personal room only |
| Socket.Handshake | backend/src/config/socket.js:21-40 | a missing or empty token is refused with 'Token manquant', and one that does not verify with 'Token invalide'; otherwise the socket carries the decoded identity |
| Socket.Hub.Initialize | backend/src/config/socket.js:8-111 | initializeSocket creates the server with no connection yet |
| Socket.Hub.GetIO | backend/src/config/socket.js:116-121 | getIO succeeds exactly when initializeSocket has run, and otherwise fails with its error |
| Socket.Hub.Emit | backend/src/config/socket.js:91-95 | an emit appends one event, delivered to the room's members at that moment |
| Socket.Hub.Connect | backend/src/config/socket.js:21-58 | the handshake decides; an accepted connection records its identity and joins RoomsFor of it; a refused one changes nothing |
| Socket.Hub.Disconnect | backend/src/config/socket.js:104-106 | a closed connection leaves every room and keeps the hub consistent |
| Socket.Hub.UpdateLocation | backend/src/config/socket.js:62-101 | a non-driver gets an error event back and no position changes; a driver's position, rounded to eight places, and its time are stored in its own profile only; a position too large for DECIMAL(10,8)/DECIMAL(11,8) changes nothing and sends nothing, the failure being caught; otherwise, when the driver has an accepted, arrived or in-progress ride, one `driver_position` event goes to that ride's client room, carrying lat and long as received (not the rounded stored values) and the time, and nothing is sent when it has none |
| Socket.StorePosition | backend/src/config/socket.js:72-77 | only this driver's position, rounded to eight places, and its location time change |
| ClientController.EstimatedPrice | backend/src/controllers/clientController.js:46-47 | the price is at least 500 for any non-negative distance |
| ClientController.PriceFollowsDistance | backend/src/controllers/clientController.js:46-47 | the price is monotone in the distance, in both directions |
| ClientController.StoredPriceFollowsDistance | backend/src/controllers/clientController.js:46-47 | the price stored in `prix`, rounded to cents, is at least 500 and still never decreases as the distance grows |
| ClientController.ClientName | backend/src/controllers/clientController.js:73 | the name shown to drivers is "Client" without a profile or with a blank one, and it never begins or ends with a character JavaScript's `trim` strips |
| ClientController.HistoryOf | backend/src/controllers/clientController.js:212-213 | the history is exactly the caller's completed and cancelled rides |
| ClientController.RequestRide | backend/src/controllers/clientController.js:8-121 | a client with a pending, accepted, arrived or in-progress ride gets 400 and nothing changes; otherwise a pending ride with no driver, the caller, the given places rounded to eight places and the estimated price rounded to cents is inserted and answered 201; `new_ride_request` goes only to `drivers`, only after the insert, and only when `req.io` exists |
| ClientController.GetActiveRide | backend/src/controllers/clientController.js:127-193 | null exactly when the caller has no active ride; otherwise one active ride of the caller, created no earlier than any other |
| ClientController.GetRideHistory | backend/src/controllers/clientController.js:199-262 | the caller's finished rides, newest first, sliced by page and limit, with the total and ⌈total/limit⌉ pages |
| ClientController.RateRide | backend/src/controllers/clientController.js:268-316 | another client's or a missing ride gives 404, and a ride that is not completed gives 400, both changing nothing; otherwise the score and comment are overwritten with no already-rated guard |
| ClientController.CancelRideAsWritten | backend/src/controllers/clientController.js:346-417 | as written: 404 and 400 as below, but a cancellable ride is cancelled and then answered 500 |
| ClientController.CancelRide | backend/src/controllers/clientController.js:346-417 | a missing or foreign ride gives 404, and a status other than pending or accepted gives 400, both changing nothing; otherwise the ride is cancelled and 200 is answered |
| DriverController.UpdateOnlineStatus | backend/src/controllers/driverController.js:7-31 | only the caller's `is_online` changes, to the supplied value |
| DriverController.AcceptRide | backend/src/controllers/driverController.js:114-216 | an unknown ride gives 404, and a ride that is not pending gives 400 'no longer available', both changing nothing; otherwise the ride gets the caller as driver and status accepted, no other ride changes, and `ride_accepted` goes only to `user_<client_id>` |
| DriverController.ParseTarget | backend/src/controllers/driverController.js:229-235 | the accepted targets are exactly arrived, in_progress and completed |
| DriverController.StatusNotice | backend/src/controllers/driverController.js:267-276 | the fallback message is used exactly for a status without its own entry |
| DriverController.StatusNoticesDistinct | backend/src/controllers/driverController.js:267-271 | the three targets have three different messages |
| DriverController.WithStatus | backend/src/controllers/driverController.js:252-262 | the status and updated_at change, completed_at is set only for completed, and nothing else changes |
| DriverController.UpdateRideStatusAsWritten | backend/src/controllers/driverController.js:222-309 | as written: after the UPDATE a request without `io` is answered 500 |
| DriverController.UpdateRideStatus | backend/src/controllers/driverController.js:222-309 | an invalid target gives 400, and a ride not assigned to the caller gives 404, both changing nothing; otherwise the ride takes the target, whatever its current status; `status_changed` goes to the client's room |
| DriverController.DriverHistoryOf | backend/src/controllers/driverController.js:441-444 | the driver's completed and cancelled rides whose client has a profile (the JOIN) |
| DriverController.GetDriverRideHistory | backend/src/controllers/driverController.js:430-467 | any integer page and limit: a negative OFFSET or LIMIT is answered 500 with PostgreSQL's message; otherwise 200 with those rides, newest first, at most `limit` of them (none for limit 0), on the requested page |
| Pagination.TotalPages | backend/src/controllers/adminController.js:342 | ⌈total/limit⌉: enough pages for every row, no empty trailing page, and zero pages exactly when there are no rows |
| Pagination.OffsetSign | backend/src/controllers/adminController.js:262 | the offset (page−1)·limit is negative exactly when page < 1 with limit ≥ 1, or page > 1 with limit < 0 |
| Pagination.AcceptedIff | backend/src/controllers/adminController.js:262-303 | PostgreSQL takes the LIMIT and OFFSET exactly when limit is 0, or limit ≥ 1 and page ≥ 1 |
| Pagination.PagingViolation | backend/src/controllers/adminController.js:262-303 | the OFFSET error 2201X exactly when the offset is negative, else the LIMIT error 2201W exactly when the limit is negative, and none exactly when PostgreSQL accepts them |
| Pagination.JsonPages | backend/src/controllers/adminController.js:342 | `Math.ceil(total/limit)` as JSON: null exactly when limit is 0 (Infinity or NaN), otherwise ⌈total/limit⌉ |
| Pagination.Page | backend/src/controllers/adminController.js:329 | the page is the window of rows starting at offset (page−1)·limit, LIMIT rows long |
| Pagination.PageNonEmptyIff | backend/src/controllers/adminController.js:342 | a page has rows exactly when its number is at most total_pages |
| Pagination.RowOnItsPage | backend/src/controllers/adminController.js:262 | row i is on page ⌊i/limit⌋+1 at position i mod limit, and that page is at most total_pages |
| Pagination.DescendingKeys | backend/src/controllers/adminController.js:328 | ORDER BY id DESC: the ids of the set, each once, strictly decreasing |
| Pagination.PageOfDecreasing | backend/src/controllers/adminController.js:328-329 | a page of a descending listing is descending and drawn from it |
| Pagination.ListPage | backend/src/controllers/adminController.js:262-342 | for any accepted page and limit: a page of the matching ids in descending order, with the count and the JSON page count; limit 0 gives no rows |
| QueryBuilder.Pattern | backend/src/controllers/adminController.js:276 | the ILIKE pattern is the search term between two `%` |
| QueryBuilder.SearchMeaning | backend/src/controllers/adminController.js:271-276 | `col ILIKE %term%` with a term free of `%`, `_` and `\` holds exactly when the lower-cased column contains the lower-cased term |
| QueryBuilder.LikeLeadingPercent | backend/src/controllers/adminController.js:276 | LIKE: a leading `%` matches exactly when the rest of the pattern matches some suffix of the value |
| QueryBuilder.LikeLiteralPrefix | backend/src/controllers/adminController.js:276 | LIKE: a pattern starting with literal characters matches exactly when the value starts with them and the rest matches the rest |
| QueryBuilder.WildcardSearches | backend/src/controllers/adminController.js:270-277 | a search typed as `_` (pattern `%_%`) matches exactly the non-empty values, and `%` matches every value |
| QueryBuilder.EscapedPercent | backend/src/controllers/adminController.js:270-277 | a search typed as `\%` matches exactly the values containing a literal `%` |
| QueryBuilder.SatisfiesAllAppend | backend/src/controllers/adminController.js:289-291 | conditions joined by AND: a row satisfies a concatenation of filters exactly when it satisfies both parts |
| QueryBuilder.HoldsExtends | backend/src/controllers/adminController.js:303 | pushing LIMIT and OFFSET after the filter parameters does not change what the conditions select |
| QueryBuilder.BuildWhere | backend/src/controllers/adminController.js:265-329 | one condition per present filter and one parameter per valued filter; the WHERE clause selects exactly the rows the filters accept; LIMIT and OFFSET sit at $paramIndex and $paramIndex+1, the last two parameters |
| QueryBuilder.BuildSet | backend/src/controllers/adminController.js:584-624 | one `column = $i` per supplied field, with $i bound to that field's value and the id at the last placeholder |
| AdminController.AnswerPage | backend/src/controllers/adminController.js:299-349 | a refused LIMIT or OFFSET is answered 500 with PostgreSQL's message; otherwise 200 with a descending page of the rows, their count and the JSON page count |
| AdminController.DriverFiltersMean | backend/src/controllers/adminController.js:269-287 | the driver filters accept a profile exactly when nom, prenom or telephone is ILIKE `%search%`, and has_car gives 'true' → has a car, anything else → no car |
| AdminController.UnderscoreSearchesAnyDriver | backend/src/controllers/adminController.js:269-277 | `?search=_` accepts exactly the drivers with a non-empty nom, prenom or telephone |
| AdminController.HasCarOneMeansCarless | backend/src/controllers/adminController.js:282-286 | has_car=1 passes validation as a boolean but selects drivers without a car |
| AdminController.MatchingDrivers | backend/src/controllers/adminController.js:253-349 | exactly the driver profiles the filters accept |
| AdminController.DriversSelected | backend/src/controllers/adminController.js:289-299 | a WHERE clause equivalent to the filters selects exactly the matching drivers |
| AdminController.ListDrivers | backend/src/controllers/adminController.js:253-349 | any integer page and limit: a negative OFFSET or LIMIT is answered 500; otherwise a page of the matching drivers, newest id first, with their count and the page count (null for limit 0) |
| AdminController.SearchTwoColumns | backend/src/controllers/adminController.js:731-737 | the car search holds exactly when the model or the plate is ILIKE `%term%` |
| AdminController.CarFiltersMean | backend/src/controllers/adminController.js:726-764 | the car filters accept exactly the cars matching the search, status and type |
| AdminController.MatchingCars | backend/src/controllers/adminController.js:714-795 | exactly the cars the filters accept |
| AdminController.CarsSelected | backend/src/controllers/adminController.js:754-761 | a WHERE clause equivalent to the filters selects exactly the matching cars |
| AdminController.ListCars | backend/src/controllers/adminController.js:714-795 | any integer page and limit: a negative OFFSET or LIMIT is answered 500; otherwise a page of the matching cars, newest id first, with their count and the page count |
| AdminController.ClientFiltersMean | backend/src/controllers/adminController.js:1066-1075 | the client search holds exactly when nom, prenom, telephone or the user's email is ILIKE `%term%` |
| AdminController.MatchingClients | backend/src/controllers/adminController.js:1052-1131 | exactly the clients, joined with their users, that the search accepts |
| AdminController.ClientsSelected | backend/src/controllers/adminController.js:1077-1088 | a WHERE clause equivalent to the filters selects exactly the matching clients |
| AdminController.ListClients | backend/src/controllers/adminController.js:1052-1131 | any integer page and limit: a negative OFFSET or LIMIT is answered 500; otherwise a page of the matching clients, in descending order, with their count and the page count |
| AdminController.MaintenanceFiltersMean | backend/src/controllers/adminController.js:1213-1224 | the maintenance filters accept exactly the records of the given car and type |
| AdminController.MatchingMaintenance | backend/src/controllers/adminController.js:1200-1268 | exactly the maintenance records the filters accept |
| AdminController.MaintenanceSelected | backend/src/controllers/adminController.js:1227-1234 | a WHERE clause equivalent to the filters selects exactly the matching records |
| AdminController.ListMaintenance | backend/src/controllers/adminController.js:1200-1268 | any integer page and limit: a negative OFFSET or LIMIT is answered 500; otherwise a page of the matching records, in descending order, with their count and the page count |
| AdminController.StoredCar | backend/src/controllers/adminController.js:511 | `car_id \|\| null`: car 0 and a missing car are stored as no car |
| AdminController.DriverInsertViolation | backend/src/controllers/adminController.js:494-512 | the profile INSERT succeeds exactly when the NOT NULL columns are given, the CNIB is new and the car exists |
| AdminController.CreateDriver | backend/src/controllers/adminController.js:443-530 | a taken email or a car already held gives 400 and nothing changes; a constraint error rolls back; on success exactly one user with role driver and its profile are added, offline, with the stored car |
| AdminController.DriverTransaction | backend/src/controllers/adminController.js:494-514 | the INSERT pair inside BEGIN … COMMIT: both rows or neither |
| AdminController.InsertDriver | backend/src/controllers/adminController.js:494-512 | the two inserts keep every database constraint |
| AdminController.DriverUpdateViolation | backend/src/controllers/adminController.js:584-624 | the UPDATE succeeds exactly when no NOT NULL column is set to null and a non-zero car exists |
| AdminController.PatchedDriver | backend/src/controllers/adminController.js:584-624 | only supplied fields change; CNIB, hire date, online flag and position are kept |
| AdminController.OwnCarNotHeldByOthers | backend/src/controllers/adminController.js:566-578 | under one-driver-per-car, a driver's own car is held by nobody else |
| AdminController.UpdateDriver | backend/src/controllers/adminController.js:536-645 | a missing driver gives 404; a car held by another driver gives 400, and so does an empty request; otherwise exactly the supplied fields change |
| AdminController.PatchDriver | backend/src/controllers/adminController.js:620-630 | the UPDATE writes the patched profile and keeps every constraint |
| AdminController.WriteDriver | backend/src/controllers/adminController.js:620-630 | replacing one profile with the same CNIB and a free car keeps every constraint |
| AdminController.DeleteDriver | backend/src/controllers/adminController.js:651-704 | a driver with an active ride gives 400, and a missing one 404; a driver referenced by any ride hits the foreign key (400); otherwise the profile and the user are both removed |
| AdminController.DeleteClient | backend/src/controllers/adminController.js:1137-1190 | the same guards for a client; on success the profile and the user are both removed |
| AdminController.CarStatusOrDefault | backend/src/controllers/adminController.js:880 | the status defaults to 'active' when none is given |
| AdminController.CarInsertViolation | backend/src/controllers/adminController.js:873-881 | the car INSERT succeeds exactly when model and plate are given and the (defaulted) status passes the cars CHECK; a refused status is the 23514 violation of cars_status_check |
| AdminController.DefaultCarStatusRefused | backend/src/controllers/adminController.js:880 | a car created without a status gets 'active', which the cars CHECK refuses, so the answer is 500; a created car has status available, in_use or maintenance |
| AdminController.CreateCar | backend/src/controllers/adminController.js:852-894 | a plate that exists gives 400 and nothing changes; a NOT NULL or CHECK violation is answered through the error handler and inserts nothing; otherwise one car is inserted with the given status |
| AdminController.CarUpdateViolation | backend/src/controllers/adminController.js:940-969 | the car UPDATE succeeds exactly when no NOT NULL column becomes null, a status sent passes the cars CHECK, and the plate is not another car's |
| AdminController.PatchedCar | backend/src/controllers/adminController.js:940-969 | only supplied fields change |
| AdminController.UpdateCar | backend/src/controllers/adminController.js:900-985 | a missing car gives 404, a plate used by a different car 400, and an empty request 400; a status outside the CHECK is answered 500 and changes nothing; otherwise only the supplied fields change |
| AdminController.WithoutCar | backend/src/controllers/adminController.js:1014 | the maintenance records left are exactly those of other cars, unchanged |
| AdminController.DeleteCar | backend/src/controllers/adminController.js:991-1042 | a car held by a driver gives 400 and a missing car 404, both changing nothing; otherwise the car and all its maintenance are removed |
| AdminController.MaintenanceDateOf | backend/src/controllers/adminController.js:1302 | the date defaults to now when omitted |
| AdminController.MaintenanceDateViolation | backend/src/controllers/adminController.js:1296-1303 | a sent date is refused exactly when PostgreSQL's date input does not read it as a date: with 22007 `invalid input syntax for type date` when it cannot parse it, with 22008 `date/time field value out of range` when its fields name no calendar date (30 February); a date left out is never refused |
| AdminController.MaintenanceInsertViolation | backend/src/controllers/adminController.js:1296-1303 | the maintenance INSERT succeeds exactly when description and cost are given and the cost, rounded to cents, fits DECIMAL(10,2); an overflow is 22003 and comes first |
| AdminController.HundredMillionOverflows | backend/database/migrate.js:116 | a cost of 100 000 000 overflows `cout` DECIMAL(10,2) and is answered 500 |
| AdminController.CreateMaintenance | backend/src/controllers/adminController.js:1274-1316 | a missing car gives 404 and nothing changes; an unreadable date is answered 500 before the INSERT and consumes no id; an overflowing cost or a NOT NULL violation is answered through the error handler and adds nothing; otherwise one record is added for that car, its cost rounded to cents |
| AuthController.TokenPayload | backend/src/controllers/authController.js:8-18 | the token payload is exactly the user's id, email and role |
| AuthController.IssuedTokenAuthenticates | backend/src/controllers/authController.js:8-18 | a token issued at login or registration passes `authenticate` with that id, email and role |
| AuthController.CarOf | backend/src/controllers/authController.js:136-140 | the driver's car, when it has one that exists |
| AuthController.ProfileOf | backend/src/controllers/authController.js:126-144 | the profile comes from client_profiles for a client and from driver_profiles (with its car) for a driver; an admin gets none |
| AuthController.ClientInsertViolation | backend/src/controllers/authController.js:58-65 | the profile INSERT succeeds exactly when nom, prenom and telephone are given |
| AuthController.RegisterClient | backend/src/controllers/authController.js:23-91 | a taken email gives 409 and inserts nothing; on success a user with role client and its client profile are inserted together, and the token carries that identity |
| AuthController.Login | backend/src/controllers/authController.js:96-166 | an unknown email and a wrong password give the same 401; on success the token and profile belong to the user with that email |
| AuthController.GetMe | backend/src/controllers/authController.js:171-218 | the query is chosen by role, and the answer is 404 when no row is found |
| AuthController.UpdateProfile | backend/src/controllers/authController.js:224-270 | only the profile table of the caller's role is written; an admin changes nothing |
| Validation.TrimSpaces | backend/src/routes/clientRoutes.js:88 | a trimmed value has none of JavaScript's `\s` characters at either end |
| Validation.CountedLength | backend/src/routes/adminRoutes.js:163-164 | isLength's count: at most the number of characters, and exactly that number when there is no U+FE0E/U+FE0F |
| Validation.SelectorNotCounted | backend/src/routes/adminRoutes.js:163-164 | "a" followed by U+FE0F is two characters that isLength counts as one |
| Validation.IntStringIsFloat | backend/src/routes/clientRoutes.js:89-94 | every isInt spelling is an isFloat spelling with the same value |
| Validation.TenWithExponent | backend/src/routes/clientRoutes.js:89-91 | isFloat reads "1e1" as ten |
| Validation.QuarterWithExponent | backend/src/routes/clientRoutes.js:89-91 | isFloat reads "-2.5E-1", a sign, a fraction and a negative exponent, as −0.25 |
| Validation.TenMillionthWithExponent | backend/src/routes/clientRoutes.js:89-91 | "1e-7", the string form of the JSON number 0.0000001, is a ten-millionth |
| Validation.ExponentWithoutNumber | backend/src/routes/clientRoutes.js:89-91 | "e5" matches isFloat's pattern but is not a number, and "1e" does not match |
| Validation.ValidateMeaning | backend/src/middleware/errorHandler.js:7-9 | validationResult is empty exactly when every rule of the chain holds on its own field |
| Validation.ValidateRewrites | backend/src/routes/clientRoutes.js:85-88 | after the chains run, a field holds what its own rule made of it |
| Validation.ValidateFrame | backend/src/routes/clientRoutes.js:85-104 | fields no rule names are left as they were |
| Validation.TestThenTrimStores | backend/src/routes/clientRoutes.js:85-88 | a test followed by trim stores the trimmed value |
| Validation.TrimThenTestStores | backend/src/routes/clientRoutes.js:201-205 | trim followed by a test stores the trimmed value |
| Validation.QueryInt | backend/src/controllers/adminController.js:255-262 | a missing query value takes its default, and a present one is an integer exactly when it reads as one |
| Validation.PagingGuaranteed | backend/src/routes/clientRoutes.js:152-159 | after a page/limit chain passes, page is an integer ≥ 1 and limit an integer in 1..100 |
| Validation.Declare | backend/src/routes/clientRoutes.js:82-268 | declaring routes succeeds exactly when every handler is defined, keeping each verb and path in order; otherwise it throws at the first undefined one |
| Validation.Route | backend/src/routes/clientRoutes.js:17-18 | guard first; then the chains; a gated route answers 400 on any validation error; the handler sees the sanitized request |
| ClientRoutes.ClientRoute | backend/src/routes/clientRoutes.js:17-18 | the handler runs only for a client, and exactly when its chain passes |
| ClientRoutes.AddressRuleMeans | backend/src/routes/clientRoutes.js:85-88 | an address rule holds exactly when the text is non-empty |
| ClientRoutes.LatitudeRuleMeans | backend/src/routes/clientRoutes.js:89-91 | a latitude rule holds exactly for an isFloat spelling (sign, digits, fraction, exponent) whose value is in [−90, 90] |
| ClientRoutes.LongitudeRuleMeans | backend/src/routes/clientRoutes.js:92-94 | a longitude rule holds exactly for an isFloat spelling (sign, digits, fraction, exponent) whose value is in [−180, 180] |
| ClientRoutes.RequestRulesHold | backend/src/routes/clientRoutes.js:85-104 | all six rules hold exactly when both addresses are non-empty and both points lie in range |
| ClientRoutes.RequestRulesMeaning | backend/src/routes/clientRoutes.js:84-106 | the ride request passes validation exactly when it is well formed |
| ClientRoutes.BlankAddressReachesHandler | backend/src/routes/clientRoutes.js:85-88 | notEmpty runs before trim, so an address of one space passes and reaches the handler as "" |
| ClientRoutes.HistoryPaging | backend/src/routes/clientRoutes.js:152-160 | the history handler sees page ≥ 1 and limit in 1..100 |
| ClientRoutes.IdRuleMeans | backend/src/routes/clientRoutes.js:195-197 | a ride id passes exactly when it is an integer |
| ClientRoutes.RatingRuleMeans | backend/src/routes/clientRoutes.js:198-200 | a rating passes exactly when it is an integer in 1..5 |
| ClientRoutes.CommentRuleMeans | backend/src/routes/clientRoutes.js:201-205 | a comment passes exactly when it is absent or, once trimmed of JavaScript's `\s`, isLength counts at most 500 characters (U+FE0E/U+FE0F not counted) |
| ClientRoutes.RatingRulesHold | backend/src/routes/clientRoutes.js:195-205 | all rating rules hold exactly for an integer id, a rating in 1..5 and a short enough comment |
| ClientRoutes.RatingRulesMeaning | backend/src/routes/clientRoutes.js:194-206 | the rating request passes validation exactly when it is well formed |
| ClientRoutes.RatingCommentBounded | backend/src/routes/clientRoutes.js:201-205 | the rating handler sees the comment trimmed, with isLength's count at most 500 |
| ClientRoutes.CancelRulesMeaning | backend/src/routes/clientRoutes.js:263-266 | cancel passes validation exactly for an integer id |
| ClientRoutes.DeclarationsAsWrittenThrow | backend/src/routes/clientRoutes.js:3-10 | as written: `/rides/:id` is declared with the undefined getRideById, so loading the route file throws there |
| ClientRoutes.DeclarationsLoad | backend/src/routes/clientRoutes.js:82-268 | without that route, the five remaining routes load in their order |
| DriverRoutes.DriverRoute | backend/src/routes/driverRoutes.js:17-18 | the handler runs only for a driver, and exactly when its chain passes |
| DriverRoutes.OnlineRulesMeaning | backend/src/routes/driverRoutes.js:28-30 | is_online passes exactly when it is a boolean |
| DriverRoutes.AcceptRulesMeaning | backend/src/routes/driverRoutes.js:51-53 | accept passes exactly for an integer id |
| DriverRoutes.UpdateStatusRulesMeaning | backend/src/routes/driverRoutes.js:67-72 | update-status passes exactly for an integer id and a target among arrived, in_progress and completed |
| DriverRoutes.TargetNamesParse | backend/src/routes/driverRoutes.js:70-72 | every name the route admits is one the controller accepts |
| DriverRoutes.RoutedTargetIsValid | backend/src/routes/driverRoutes.js:64-76 | a request that reaches updateRideStatus never takes its 400 branch |
| AdminRoutes.AdminRoute | backend/src/routes/adminRoutes.js:8-9 | as written: only an admin reaches a handler, and every admin request does, whatever its validation errors |
| AdminRoutes.GatedAdminRoute | backend/src/routes/adminRoutes.js:8-9 | with the gate added: an admin request reaches the handler exactly when its chain passes |
| AdminRoutes.ListRulesDistinct | backend/src/routes/adminRoutes.js:107-111 | each list chain names each query field once |
| AdminRoutes.GatedListPaging | backend/src/routes/adminRoutes.js:108-109 | with the gate, list handlers see page ≥ 1 and limit in 1..100 |
| AdminRoutes.UngatedPageZeroReachesHandler | backend/src/routes/adminRoutes.js:107-111 | as written, `?page=0` fails validation yet reaches getDrivers with limit 10, whose offset is negative |
| AdminRoutes.UngatedPageZeroAnswers500 | backend/src/routes/adminRoutes.js:107-111 | as written, an admin's `GET /drivers?page=0` is answered 500 with PostgreSQL's negative-OFFSET message |
| AdminRoutes.GatedPageZeroRefused | backend/src/routes/adminRoutes.js:107-111 | with the gate, `?page=0` gets 400 |
| AdminRoutes.GatedCarListStatus | backend/src/routes/adminRoutes.js:233 | with the gate, a car-list status filter is active, maintenance or inactive |
| AdminRoutes.RuleStatusesAgainstCheck | backend/src/routes/adminRoutes.js:287-289 | of the three statuses the car rules admit, only 'maintenance' passes the cars CHECK |
| AdminRoutes.NameRuleMeans | backend/src/routes/adminRoutes.js:163-164 | a required name passes exactly when isLength counts at least 2 characters (U+FE0E/U+FE0F not counted) |
| AdminRoutes.RequiredRuleMeans | backend/src/routes/adminRoutes.js:165 | a required field passes exactly when it is non-empty |
| AdminRoutes.CarIdRuleMeans | backend/src/routes/adminRoutes.js:167 | car_id passes exactly when it is absent or an integer |
| AdminRoutes.DriverCreateRulesHold | backend/src/routes/adminRoutes.js:161-167 | all driver rules hold exactly for a valid email, a password isLength counts as 6+ characters, names counted as 2+, a telephone and an integer car_id if given |
| AdminRoutes.DriverCreateRulesMeaning | backend/src/routes/adminRoutes.js:160-168 | the driver body passes validation exactly when it is well formed |
| AdminRoutes.OptionalNameRuleMeans | backend/src/routes/adminRoutes.js:189-190 | an optional name passes exactly when absent or isLength counts 2+ characters |
| AdminRoutes.GatedDriverUpdate | backend/src/routes/adminRoutes.js:187-194 | with the gate, updateDriver sees an integer id, names of 2+ characters when given, and an integer car_id when given |
| AdminRoutes.CarFieldsChecked | backend/src/routes/adminRoutes.js:287-289 | a passing chain has the year in 1900..2030, the mileage ≥ 0 and the status among the three |
| AdminRoutes.GatedCarCreate | backend/src/routes/adminRoutes.js:282-289 | with the gate, createCar sees a non-empty model, plate and type, and valid year, mileage and status |
| AdminRoutes.GatedCarUpdate | backend/src/routes/adminRoutes.js:309-317 | with the gate, updateCar sees an integer id and valid year, mileage and status |
| AdminRoutes.MaintenanceCreateRulesHold | backend/src/routes/adminRoutes.js:423-427 | all maintenance rules hold exactly for an integer car_id, a non-empty type, an isFloat cost (exponents included) ≥ 0 and an ISO date when given |
| AdminRoutes.MaintenanceCreateRulesMeaning | backend/src/routes/adminRoutes.js:422-428 | the maintenance body passes validation exactly when it is well formed |
| Scenarios.CancelAfterRequestAnswers500 | backend/src/controllers/clientController.js:375-402 | requesting then cancelling leaves the ride cancelled and the client told 500 |
| Scenarios.CompletedRideReopens | backend/src/controllers/driverController.js:238-262 | after a completed ride and a new request, setting the completed ride to arrived leaves the client with two active rides |
| Scenarios.StatusUpdateAnswers500 | backend/src/controllers/driverController.js:266-278 | without `io`, marking a ride arrived changes it and answers 500 |
| Scenarios.NotificationsReachTheirRooms | backend/src/controllers/clientController.js:69-70 | a ride request reaches the connected driver's sockets only, and the acceptance only the client's; an admin and a closed connection hear neither |

## Left out

- Haversine distance (clientController.js:322-340): floating-point trigonometry. The distance is a non-negative input.
- Statistics and reporting queries are not modelled: the admin stats, getDriverStats, getDriverCar, the earnings history and the feedback stubs. They are aggregation inside the database.
- getAvailableRides, getDriverById and getCarById are not modelled. They are read-only joins, with no guard beyond the 404s already modelled elsewhere.
- bcrypt and jsonwebtoken are parameters (`compare`, `sign`, `verify`). Token expiry is whatever `verify` reports.
- Socket.io transport, CORS, ping settings, the Express bootstrap, the pg pool and logging are left out.
- A connection disconnects through socket.io's own room removal. The source's handler only logs.
- Concurrency is not modelled. acceptRide reads and then updates without a conditional WHERE or a lock. The sequential model claims no single winner between racing drivers.
- Whether `req.io` exists is the `attached` parameter. server.js never sets it and never mounts the admin routes; the model takes each route file as if mounted.
- adminRoutes.js:454 and 475 pass `updateMaintenance` and `deleteMaintenance`, which adminController does not export, so those two routes are not modelled. Express would throw while declaring them, as it does for clientRoutes.js:240 (see Findings); server.js never loads the admin route file, so nothing else follows from it.
- The rides CHECK on status is not modelled: migrate.js omits `arrived` and update_ride_statuses.js adds it, so after both migrations every status the handlers write passes. The cars CHECK is modelled (`Store.CarStatusAllowed`); the feedback_score CHECK is not, because the rating route already limits it to 1..5.
- VARCHAR length limits (for example VARCHAR(50) on a plate) are not modelled; a longer value is a 22001 error answered 500.
- Row-to-JSON projections (names, parseFloat, dates) and the `updated_at` columns of profiles and cars are not modelled.
- Only isEmail and isISO8601 are oracle predicates (`Validation.Oracles`); their grammars are not modelled. isBoolean, isInt, isFloat, isIn, notEmpty, isLength and trim are modelled with their own rules.
- SearchMeaning: states ILIKE for terms free of `%`, `_` and `\`; terms with them are covered by `Like` itself and by WildcardSearches and EscapedPercent. Case folding covers ASCII and Latin-1 (À–Þ) only, not the database locale's full folding (Greek, Cyrillic, ß and the like).
- DriverFiltersMean: ILIKE lower-cases ASCII and Latin-1 only, not by the database locale's full case folding.
- MatchingDrivers: ILIKE lower-cases ASCII and Latin-1 only, not by the database locale's full case folding.
- DriversSelected: ILIKE lower-cases ASCII and Latin-1 only, not by the database locale's full case folding.
- CarFiltersMean: ILIKE lower-cases ASCII and Latin-1 only, not by the database locale's full case folding.
- MatchingCars: ILIKE lower-cases ASCII and Latin-1 only, not by the database locale's full case folding.
- CarsSelected: ILIKE lower-cases ASCII and Latin-1 only, not by the database locale's full case folding.
- ClientFiltersMean: ILIKE lower-cases ASCII and Latin-1 only, not by the database locale's full case folding.
- MatchingClients: ILIKE lower-cases ASCII and Latin-1 only, not by the database locale's full case folding.
- ClientsSelected: ILIKE lower-cases ASCII and Latin-1 only, not by the database locale's full case folding.
- SearchTwoColumns: ILIKE lower-cases ASCII and Latin-1 only, not by the database locale's full case folding.
- ListDrivers: ILIKE lower-cases ASCII and Latin-1 only, not by the database locale's full case folding.
- ListCars: ILIKE lower-cases ASCII and Latin-1 only, not by the database locale's full case folding.
- ListClients: ILIKE lower-cases ASCII and Latin-1 only, not by the database locale's full case folding.
- LatitudeRuleMeans: compares the exact decimal value, while parseFloat first rounds it to the nearest double; a spelling within rounding distance of a bound ("90.00000000000000001") passes in the source and fails here.
- LongitudeRuleMeans: compares the exact decimal value, while parseFloat first rounds it to the nearest double; a spelling within rounding distance of a bound ("180.0000000000000001") passes in the source and fails here.
- RequestRulesHold: compares the exact decimal value, while parseFloat first rounds it to the nearest double; a spelling within rounding distance of a bound ("90.00000000000000001") passes in the source and fails here.
- RequestRulesMeaning: compares the exact decimal value, while parseFloat first rounds it to the nearest double; a spelling within rounding distance of a bound ("90.00000000000000001") passes in the source and fails here.
- MaintenanceCreateRulesHold: compares the cost's exact decimal value with 0, while parseFloat first rounds it to a double; "-1e-400" rounds to −0, which passes `min: 0` in the source and fails here.
- MaintenanceCreateRulesMeaning: compares the cost's exact decimal value with 0, while parseFloat first rounds it to a double; "-1e-400" rounds to −0, which passes `min: 0` in the source and fails here.
- ListDrivers: non-integer page and limit are not modelled (integers of any sign are). The source computes the offset as a JavaScript number, so `?page=1.5&limit=10` gives OFFSET 5 and a 200; PostgreSQL refuses the query with 22P02 (a 500) only when the offset or limit is not a whole number, as for `?page=x`.
- ListCars: non-integer page and limit are not modelled (integers of any sign are). The source computes the offset as a JavaScript number, so `?page=1.5&limit=10` gives OFFSET 5 and a 200; PostgreSQL refuses the query with 22P02 (a 500) only when the offset or limit is not a whole number, as for `?page=x`.
- ListClients: non-integer page and limit are not modelled (integers of any sign are). The source computes the offset as a JavaScript number, so `?page=1.5&limit=10` gives OFFSET 5 and a 200; PostgreSQL refuses the query with 22P02 (a 500) only when the offset or limit is not a whole number, as for `?page=x`.
- ListMaintenance: takes car_id as an integer; the query text is used as a filter whenever it is non-empty, so `?car_id=abc` reaches PostgreSQL, which refuses it with 22P02 and the handler answers 500.
- ListMaintenance: non-integer page and limit are not modelled (integers of any sign are). The source computes the offset as a JavaScript number, so `?page=1.5&limit=10` gives OFFSET 5 and a 200; PostgreSQL refuses the query with 22P02 (a 500) only when the offset or limit is not a whole number, as for `?page=x`.
- UpdateDriver: takes the id and car_id as integers; ungated, a non-integer value reaches PostgreSQL, which refuses it with 22P02 and the handler answers 500.
- DeleteDriver: takes the id as an integer; ungated, a non-integer value reaches PostgreSQL, which refuses it with 22P02 and the handler answers 500.
- DeleteClient: takes the id as an integer; ungated, a non-integer value reaches PostgreSQL, which refuses it with 22P02 and the handler answers 500.
- UpdateCar: takes the id as an integer; ungated, a non-integer value reaches PostgreSQL, which refuses it with 22P02 and the handler answers 500.
- DeleteCar: takes the id as an integer; ungated, a non-integer value reaches PostgreSQL, which refuses it with 22P02 and the handler answers 500.
- CreateMaintenance: takes car_id as an integer and cout as a number; ungated, a non-integer car_id or a non-numeric cout reaches PostgreSQL, which refuses it with 22P02 and the handler answers 500. PostgreSQL's date input is the `readDate` parameter, not its grammar or calendar.
- CreateDriver: takes car_id as an integer; ungated, a non-integer value reaches PostgreSQL, which refuses it with 22P02 and the handler answers 500.
- CreateDriver: takes the email and the password hash as always present. The route checks neither, so an absent password makes `bcrypt.hash` throw before any insert (rolled back, answered 500, no id drawn), and an absent email reaches the users INSERT as NULL, which NOT NULL refuses with 23502 after the users id is drawn (rolled back, answered 500).
- CreateDriver: stores `date_entree` as the text sent; PostgreSQL's date input is not modelled here, so a text it cannot read (22007, rolled back and answered 500) is inserted by the model.
- RequestRide: a price above 99,999,999.99 would overflow DECIMAL(10,2); haversine distances on Earth stay near 20,000 km, far below that, so the overflow is not modelled.
- ClientController.GetRideHistory: lists by id descending, where the source orders by created_at DESC. Ids grow with creation, but equal timestamps may order differently.
- DriverController.GetDriverRideHistory: lists by id descending, where the source orders by created_at DESC. Non-integer page and limit are not modelled, as for ListDrivers; the page and limit defaults (1 and 20) are the caller's.
- AdminController.ListClients: lists by user id descending, where the source orders by the user's created_at DESC.
- AdminController.ListMaintenance: lists by id descending, where the source orders by date_maintenance DESC, a date the admin supplies.
- AdminController.ListDrivers: the row's aggregate columns (total rides, earnings) are not modelled, only which drivers are listed and in what order.
- Socket.Hub.UpdateLocation: which of several following rides receives the position is left open, because the source's `LIMIT 1` has no ORDER BY.
- Socket.Hub.UpdateLocation: takes lat and long as numbers that are always sent. The payload is not checked: a null or absent payload throws at the destructuring, outside the handler's try, so nothing is stored or sent; an absent lat or long is stored as NULL; a non-numeric text is refused by PostgreSQL with 22P02, which the catch only logs, so nothing is stored or sent.
- Socket.Hub.UpdateLocation: the stored update time (the database's CURRENT_TIMESTAMP) and the event's timestamp (the server clock, as ISO text) are both the one `now`.
- ClientController.GetActiveRide: when several active rides share the newest created_at, which one is returned is left open, as in the SQL.

## Findings

Some behaviours are modelled as the code has them, although a reader might
expect otherwise. updateRideStatus does not check the current status, so a
completed ride can be moved back to `arrived`
(Scenarios.CompletedRideReopens). rateRide overwrites an earlier rating.
createCar's default status `active` and the admin routes' `inactive` are
refused by the cars CHECK (migrate.js:37-38), so a car created without a
status, or set to either of them, is answered 500
(AdminController.DefaultCarStatusRefused, AdminRoutes.RuleStatusesAgainstCheck).
The four rows below are defects with both halves modelled.

| source | as written | input that shows it | evidently intended | confidence | as-written member | corrected member |
|---|---|---|---|---|---|---|
| backend/src/controllers/clientController.js:383-402 | after the cancel UPDATE, the notification reads `req.io` and the undefined `profile`, so the handler throws | a client requests a ride and cancels it while it is pending: the ride is cancelled, but the answer is 500 | the cancellation is answered 200 | high, not executed | ClientController.CancelRideAsWritten, Scenarios.CancelAfterRequestAnswers500 | ClientController.CancelRide |
| backend/src/controllers/driverController.js:266-273 | `io.to(...)` is called without checking that `req.io` exists, unlike acceptRide's `if (io && driver)` | a driver marks an accepted ride `arrived` on a request without `io`: the ride becomes arrived, but the answer is 500 | the update is answered 200 and the notification is skipped without `io` | high, not executed | DriverController.UpdateRideStatusAsWritten, Scenarios.StatusUpdateAnswers500 | DriverController.UpdateRideStatus |
| backend/src/routes/adminRoutes.js:107-111 | the admin validator chains never end in handleValidationErrors, so their errors are collected and ignored | `GET /drivers?page=0` as an admin reaches getDrivers with a negative offset, which PostgreSQL refuses, and is answered 500 | invalid admin requests get 400, as on the client and driver routes | high, not executed | AdminRoutes.AdminRoute, AdminRoutes.UngatedPageZeroReachesHandler, AdminRoutes.UngatedPageZeroAnswers500 | AdminRoutes.GatedAdminRoute, AdminRoutes.GatedPageZeroRefused |
| backend/src/routes/clientRoutes.js:232-241 | `/rides/:id` is declared with getRideById, which clientController does not export (clientController.js:419-425), and Express refuses a handler that is not a function while the route is declared | loading clientRoutes.js at server.js:51 throws, so the server does not start | the route is left out, or its handler is written, and the other client routes load | high, not executed | ClientRoutes.DeclarationsAsWritten, ClientRoutes.DeclarationsAsWrittenThrow | ClientRoutes.Declarations, ClientRoutes.DeclarationsLoad |
