/**
 * routes/adminRoutes.js: every route authenticates and admits the admin
 * role only, then runs its validator chain. Unlike the client and driver
 * routers, no admin chain ends in handleValidationErrors, so the errors the
 * validators record are never read and the handler runs regardless.
 * `AdminRoute` is the router as written; `GatedAdminRoute` adds the
 * missing gate, and the list handlers are modelled for what it admits.
 */
module AdminRoutes {
  import opened Common
  import opened ErrorHandler
  import opened Validation
  import Auth
  import Pagination
  import Store
  import AdminController

  const Roles: seq<Role> := [Admin]

  /** As written: authenticate, authorize('admin'), the chain, and straight on to the handler. */
  function AdminRoute(rules: seq<Rule>, header: Option<string>, verify: string -> Auth.Verified, req: Request, o: Oracles)
    : (r: RouteOutcome)
    ensures Auth.Guard(Roles, header, verify).Proceed? <==> r.Handle?
    ensures r.Handle? ==> r.user.role == Admin && Auth.Guard(Roles, header, verify) == Auth.Proceed(r.user)
    ensures r.Answer? ==> r.status == 401 || r.status == 403
    ensures r.Handle? ==> r.req == Validate(rules, req, o).1
  {
    Route(Roles, rules, false, header, verify, req, o)
  }

  /** With handleValidationErrors closing the chain, as the other routers have it. */
  function GatedAdminRoute(rules: seq<Rule>, header: Option<string>, verify: string -> Auth.Verified, req: Request, o: Oracles)
    : (r: RouteOutcome)
    ensures r.Handle? ==> r.user.role == Admin && Auth.Guard(Roles, header, verify) == Auth.Proceed(r.user)
    ensures Auth.Guard(Roles, header, verify).Proceed? ==> (r.Handle? <==> Errors(rules, req, o) == [])
    ensures r.Answer? && Auth.Guard(Roles, header, verify).Proceed? ==> r == Answer(400, ValidationMessage)
    ensures r.Handle? ==> r.req == Validate(rules, req, o).1
  {
    Route(Roles, rules, true, header, verify, req, o)
  }

  function BodyText(req: Request, field: string): string
  {
    AsText(Lookup(req, Body, field))
  }

  const IdRule := Rule(Param, "id", false, [Test(IsInt(None, None))])

  const CarStatuses := ["active", "maintenance", "inactive"]

  // ---------------------------------------------------------------------------
  // The list routes.

  const DriverListRules: seq<Rule> := [
    PageRule, LimitRule,
    Rule(Query, "availability", true, [Test(IsBoolean)]),
    Rule(Query, "has_car", true, [Test(IsBoolean)])
  ]

  const CarListRules: seq<Rule> := [
    PageRule, LimitRule,
    Rule(Query, "status", true, [Test(IsIn(CarStatuses))]),
    Rule(Query, "type_vehicule", true, [])
  ]

  const ClientListRules: seq<Rule> := [PageRule, LimitRule]

  const MaintenanceListRules: seq<Rule> := [
    PageRule, LimitRule,
    Rule(Query, "car_id", true, [Test(IsInt(None, None))]),
    Rule(Query, "type_maintenance", true, [])
  ]

  /** The chains of GET /drivers, /cars, /clients and /maintenance, whose handlers default the limit to 10. */
  const ListRules := [DriverListRules, CarListRules, ClientListRules, MaintenanceListRules]

  lemma ListRulesDistinct(rules: seq<Rule>)
    requires rules in ListRules
    ensures DistinctFields(rules)
  {
  }

  /** With the gate, a list handler always reads a page of at least 1 and a limit in 1..100. */
  lemma GatedListPaging(rules: seq<Rule>, header: Option<string>, verify: string -> Auth.Verified, req: Request, o: Oracles)
    requires rules in ListRules
    requires GatedAdminRoute(rules, header, verify, req, o).Handle?
    ensures var seen := GatedAdminRoute(rules, header, verify, req, o).req;
      && QueryInt(seen, "page", 1).Some? && QueryInt(seen, "page", 1).value >= 1
      && QueryInt(seen, "limit", 10).Some? && 1 <= QueryInt(seen, "limit", 10).value <= 100
  {
    ListRulesDistinct(rules);
    PagingGuaranteed(rules, req, o, 10);
  }

  /** `GET /drivers?page=0`. */
  const PageZero := Request(map[], map["page" := Text("0")], map[])

  /**
   * As written, `page=0` fails isInt({ min: 1 }) and getDrivers runs
   * anyway, with page 0 and the default limit of 10: its OFFSET is -10,
   * which PostgreSQL refuses, so the admin gets a 500 instead of a 400.
   */
  lemma UngatedPageZeroReachesHandler(header: Option<string>, verify: string -> Auth.Verified, o: Oracles)
    requires Auth.Guard(Roles, header, verify).Proceed?
    ensures Errors(DriverListRules, PageZero, o) != []
    ensures AdminRoute(DriverListRules, header, verify, PageZero, o).Handle?
    ensures QueryInt(AdminRoute(DriverListRules, header, verify, PageZero, o).req, "page", 1) == Some(0)
    ensures QueryInt(AdminRoute(DriverListRules, header, verify, PageZero, o).req, "limit", 10) == Some(10)
    ensures Pagination.Offset(0, 10) < 0
  {
    ListRulesDistinct(DriverListRules);
    ValidateMeaning(DriverListRules, PageZero, o);
    OneTestRule(PageRule, Lookup(PageZero, Query, "page"), o);
    assert !RuleHolds(DriverListRules[0], Lookup(PageZero, Query, "page"), o);
    ValidateRewrites(DriverListRules, PageZero, o, 0);
    assert ParseIntString("0") == 0;
    ValidateRewrites(DriverListRules, PageZero, o, 1);
    assert Lookup(PageZero, Query, "limit").None?;
  }

  /** With the gate, the same request is answered 400 before getDrivers runs. */
  lemma GatedPageZeroRefused(header: Option<string>, verify: string -> Auth.Verified, o: Oracles)
    requires Auth.Guard(Roles, header, verify).Proceed?
    ensures GatedAdminRoute(DriverListRules, header, verify, PageZero, o) == Answer(400, ValidationMessage)
  {
    UngatedPageZeroReachesHandler(header, verify, o);
  }

  /**
   * As written, `GET /drivers?page=0` reaches getDrivers with page 0 and the
   * default limit 10; PostgreSQL refuses the offset -10 and the error
   * handler answers 500.
   */
  method UngatedPageZeroAnswers500(db: Store.Database, header: Option<string>, verify: string -> Auth.Verified, o: Oracles)
    returns (r: Reply<AdminController.Listing>)
    requires db.Valid() && Auth.Guard(Roles, header, verify).Proceed?
    ensures r == Err(500, Pagination.OffsetNegativeMessage)
  {
    UngatedPageZeroReachesHandler(header, verify, o);
    var seen := AdminRoute(DriverListRules, header, verify, PageZero, o).req;
    r := AdminController.ListDrivers(db, QueryInt(seen, "page", 1).value, QueryInt(seen, "limit", 10).value, "", None);
  }

  /**
   * Of the statuses the car rules admit, the cars CHECK takes only
   * `maintenance`: `active` and `inactive` pass validation and are then
   * refused by the table.
   */
  lemma RuleStatusesAgainstCheck()
    ensures forall s | s in CarStatuses :: Store.CarStatusAllowed(Some(s)) <==> s == "maintenance"
  {
    assert CarStatuses[0] == "active" && CarStatuses[2] == "inactive";
  }

  /** With the gate, a car list filter on status names one of the three statuses. */
  lemma GatedCarListStatus(header: Option<string>, verify: string -> Auth.Verified, req: Request, o: Oracles)
    requires GatedAdminRoute(CarListRules, header, verify, req, o).Handle?
    ensures Lookup(req, Query, "status").None? || AsText(Lookup(req, Query, "status")) in CarStatuses
  {
    ListRulesDistinct(CarListRules);
    RuleAtHolds(CarListRules, req, o, 2);
    OneTestRule(CarListRules[2], Lookup(req, Query, "status"), o);
  }

  // ---------------------------------------------------------------------------
  // The body routes.

  /** `body(field).notEmpty()`. */
  function RequiredRule(field: string): Rule
  {
    Rule(Body, field, false, [Test(NotEmpty)])
  }

  /** `body(field).optional()`, which checks nothing. */
  function FreeRule(field: string): Rule
  {
    Rule(Body, field, true, [])
  }

  /** `body(field).notEmpty().isLength({ min: 2 })`. */
  function NameRule(field: string): Rule
  {
    Rule(Body, field, false, [Test(NotEmpty), Test(MinLength(2))])
  }

  const EmailRule := Rule(Body, "email", false, [Test(IsEmail)])
  const PasswordRule := Rule(Body, "password", false, [Test(MinLength(6))])
  const CarIdRule := Rule(Body, "car_id", true, [Test(IsInt(None, None))])

  const DriverCreateRules: seq<Rule> := [
    EmailRule, PasswordRule, NameRule("nom"), NameRule("prenom"), RequiredRule("telephone"),
    FreeRule("lieu_residence"), CarIdRule
  ]

  /** A valid email, a password of 6 characters or more, names of 2 or more, a telephone, an integer car id when given. */
  predicate DriverBodyValid(req: Request, o: Oracles)
  {
    && o.isEmail(BodyText(req, "email"))
    && CountedLength(BodyText(req, "password")) >= 6
    && CountedLength(BodyText(req, "nom")) >= 2 && CountedLength(BodyText(req, "prenom")) >= 2
    && BodyText(req, "telephone") != ""
    && (Lookup(req, Body, "car_id").None? || IsIntString(BodyText(req, "car_id")))
  }

  lemma NameRuleMeans(field: string, req: Request, o: Oracles)
    ensures RuleHolds(NameRule(field), Lookup(req, Body, field), o) <==> CountedLength(BodyText(req, field)) >= 2
  {
    TwoTestRule(NameRule(field), Lookup(req, Body, field), o);
  }

  lemma RequiredRuleMeans(field: string, req: Request, o: Oracles)
    ensures RuleHolds(RequiredRule(field), Lookup(req, Body, field), o) <==> BodyText(req, field) != ""
  {
    OneTestRule(RequiredRule(field), Lookup(req, Body, field), o);
  }

  lemma CarIdRuleMeans(req: Request, o: Oracles)
    ensures RuleHolds(CarIdRule, Lookup(req, Body, "car_id"), o) <==>
      Lookup(req, Body, "car_id").None? || IsIntString(BodyText(req, "car_id"))
  {
    OneTestRule(CarIdRule, Lookup(req, Body, "car_id"), o);
  }

  lemma DriverCreateRulesHold(req: Request, o: Oracles)
    ensures AllRulesHold(DriverCreateRules, req, o) <==> DriverBodyValid(req, o)
  {
    var R := DriverCreateRules;
    OneTestRule(EmailRule, Lookup(req, Body, "email"), o);
    OneTestRule(PasswordRule, Lookup(req, Body, "password"), o);
    NameRuleMeans("nom", req, o);
    NameRuleMeans("prenom", req, o);
    RequiredRuleMeans("telephone", req, o);
    CarIdRuleMeans(req, o);
    var b0 := RuleHolds(EmailRule, Lookup(req, Body, "email"), o);
    var b1 := RuleHolds(PasswordRule, Lookup(req, Body, "password"), o);
    var b2 := RuleHolds(NameRule("nom"), Lookup(req, Body, "nom"), o);
    var b3 := RuleHolds(NameRule("prenom"), Lookup(req, Body, "prenom"), o);
    var b4 := RuleHolds(RequiredRule("telephone"), Lookup(req, Body, "telephone"), o);
    var b5 := RuleHolds(FreeRule("lieu_residence"), Lookup(req, Body, "lieu_residence"), o);
    var b6 := RuleHolds(CarIdRule, Lookup(req, Body, "car_id"), o);
    assert b5;
    assert DriverBodyValid(req, o) <==> b0 && b1 && b2 && b3 && b4 && b6;
    if b0 && b1 && b2 && b3 && b4 && b6 {
      forall i | 0 <= i < |R| ensures RuleHolds(R[i], Lookup(req, R[i].loc, R[i].field), o) {
        if i == 0 { assert b0; } else if i == 1 { assert b1; } else if i == 2 { assert b2; }
        else if i == 3 { assert b3; } else if i == 4 { assert b4; } else if i == 5 { assert b5; }
        else { assert i == 6 && b6; }
      }
    }
    if AllRulesHold(R, req, o) {
      assert RuleHolds(R[0], Lookup(req, R[0].loc, R[0].field), o);
      assert RuleHolds(R[1], Lookup(req, R[1].loc, R[1].field), o);
      assert RuleHolds(R[2], Lookup(req, R[2].loc, R[2].field), o);
      assert RuleHolds(R[3], Lookup(req, R[3].loc, R[3].field), o);
      assert RuleHolds(R[4], Lookup(req, R[4].loc, R[4].field), o);
      assert RuleHolds(R[6], Lookup(req, R[6].loc, R[6].field), o);
    }
  }

  lemma DriverCreateRulesDistinct()
    ensures DistinctFields(DriverCreateRules)
  {
  }

  /** The driver-creation chain reports nothing exactly for a valid body; as written, nothing reads its report. */
  lemma DriverCreateRulesMeaning(req: Request, o: Oracles)
    ensures Errors(DriverCreateRules, req, o) == [] <==> DriverBodyValid(req, o)
  {
    DriverCreateRulesDistinct();
    ValidateMeaning(DriverCreateRules, req, o);
    DriverCreateRulesHold(req, o);
  }

  /** `body(field).optional().isLength({ min: 2 })`. */
  function OptionalNameRule(field: string): Rule
  {
    Rule(Body, field, true, [Test(MinLength(2))])
  }

  const DriverUpdateRules: seq<Rule> := [
    IdRule, OptionalNameRule("nom"), OptionalNameRule("prenom"), FreeRule("telephone"), FreeRule("lieu_residence"),
    CarIdRule, Rule(Body, "availability", true, [Test(IsBoolean)])
  ]

  lemma DriverUpdateRulesDistinct()
    ensures DistinctFields(DriverUpdateRules)
  {
  }

  lemma OptionalNameRuleMeans(field: string, req: Request, o: Oracles)
    ensures RuleHolds(OptionalNameRule(field), Lookup(req, Body, field), o) <==>
      Lookup(req, Body, field).None? || CountedLength(BodyText(req, field)) >= 2
  {
    OneTestRule(OptionalNameRule(field), Lookup(req, Body, field), o);
  }

  /** With the gate, a driver update that names a name gives one of 2 characters or more, and an integer car id. */
  lemma GatedDriverUpdate(header: Option<string>, verify: string -> Auth.Verified, req: Request, o: Oracles)
    requires GatedAdminRoute(DriverUpdateRules, header, verify, req, o).Handle?
    ensures IsIntString(AsText(Lookup(req, Param, "id")))
    ensures Lookup(req, Body, "nom").None? || CountedLength(BodyText(req, "nom")) >= 2
    ensures Lookup(req, Body, "prenom").None? || CountedLength(BodyText(req, "prenom")) >= 2
    ensures Lookup(req, Body, "car_id").None? || IsIntString(BodyText(req, "car_id"))
  {
    DriverUpdateRulesDistinct();
    RuleAtHolds(DriverUpdateRules, req, o, 0);
    OneTestRule(IdRule, Lookup(req, Param, "id"), o);
    RuleAtHolds(DriverUpdateRules, req, o, 1);
    OptionalNameRuleMeans("nom", req, o);
    RuleAtHolds(DriverUpdateRules, req, o, 2);
    OptionalNameRuleMeans("prenom", req, o);
    RuleAtHolds(DriverUpdateRules, req, o, 5);
    CarIdRuleMeans(req, o);
  }

  /** `body('annee_fabrication').optional().isInt({ min: 1900, max: 2030 })`. */
  const YearRule := Rule(Body, "annee_fabrication", true, [Test(IsInt(Some(1900), Some(2030)))])

  /** `body('kilometrage').optional().isInt({ min: 0 })`. */
  const MileageRule := Rule(Body, "kilometrage", true, [Test(IsInt(Some(0), None))])

  /** `body('status').optional().isIn(['active', 'maintenance', 'inactive'])`. */
  const CarStatusRule := Rule(Body, "status", true, [Test(IsIn(CarStatuses))])

  const CarCreateRules: seq<Rule> := [
    RequiredRule("nom_modele"), RequiredRule("plaque_immatriculation"), RequiredRule("type_vehicule"),
    FreeRule("couleur"), YearRule, MileageRule, CarStatusRule
  ]

  const CarUpdateRules: seq<Rule> := [
    IdRule, FreeRule("nom_modele"), FreeRule("plaque_immatriculation"), FreeRule("type_vehicule"),
    FreeRule("couleur"), YearRule, MileageRule, CarStatusRule
  ]

  /** The year, the mileage and the status a car body may carry. */
  predicate CarFieldsValid(req: Request)
  {
    && (Lookup(req, Body, "annee_fabrication").None? ||
        (IsIntString(BodyText(req, "annee_fabrication")) && 1900 <= ParseIntString(BodyText(req, "annee_fabrication")) <= 2030))
    && (Lookup(req, Body, "kilometrage").None? ||
        (IsIntString(BodyText(req, "kilometrage")) && ParseIntString(BodyText(req, "kilometrage")) >= 0))
    && (Lookup(req, Body, "status").None? || BodyText(req, "status") in CarStatuses)
  }

  lemma CarRulesDistinct()
    ensures DistinctFields(CarCreateRules) && DistinctFields(CarUpdateRules)
  {
  }

  /** The year, mileage and status rules sit at offset k of a car chain. */
  lemma CarFieldsChecked(rules: seq<Rule>, k: int, req: Request, o: Oracles)
    requires DistinctFields(rules) && 0 <= k && k + 2 < |rules|
    requires rules[k] == YearRule && rules[k + 1] == MileageRule && rules[k + 2] == CarStatusRule
    requires Errors(rules, req, o) == []
    ensures CarFieldsValid(req)
  {
    RuleAtHolds(rules, req, o, k);
    OneTestRule(YearRule, Lookup(req, Body, "annee_fabrication"), o);
    RuleAtHolds(rules, req, o, k + 1);
    OneTestRule(MileageRule, Lookup(req, Body, "kilometrage"), o);
    RuleAtHolds(rules, req, o, k + 2);
    OneTestRule(CarStatusRule, Lookup(req, Body, "status"), o);
  }

  /** With the gate, creating a car needs a model, a plate and a type, and any year, mileage and status in range. */
  lemma GatedCarCreate(header: Option<string>, verify: string -> Auth.Verified, req: Request, o: Oracles)
    requires GatedAdminRoute(CarCreateRules, header, verify, req, o).Handle?
    ensures BodyText(req, "nom_modele") != "" && BodyText(req, "plaque_immatriculation") != ""
    ensures BodyText(req, "type_vehicule") != ""
    ensures CarFieldsValid(req)
  {
    CarRulesDistinct();
    RuleAtHolds(CarCreateRules, req, o, 0);
    RequiredRuleMeans("nom_modele", req, o);
    RuleAtHolds(CarCreateRules, req, o, 1);
    RequiredRuleMeans("plaque_immatriculation", req, o);
    RuleAtHolds(CarCreateRules, req, o, 2);
    RequiredRuleMeans("type_vehicule", req, o);
    CarFieldsChecked(CarCreateRules, 4, req, o);
  }

  /** With the gate, updating a car keeps any year, mileage and status in range. */
  lemma GatedCarUpdate(header: Option<string>, verify: string -> Auth.Verified, req: Request, o: Oracles)
    requires GatedAdminRoute(CarUpdateRules, header, verify, req, o).Handle?
    ensures IsIntString(AsText(Lookup(req, Param, "id")))
    ensures CarFieldsValid(req)
  {
    CarRulesDistinct();
    RuleAtHolds(CarUpdateRules, req, o, 0);
    OneTestRule(IdRule, Lookup(req, Param, "id"), o);
    CarFieldsChecked(CarUpdateRules, 5, req, o);
  }

  const MaintenanceCarRule := Rule(Body, "car_id", false, [Test(IsInt(None, None))])
  const CostRule := Rule(Body, "cout", false, [Test(IsFloat(Some(0.0), None))])
  const DateRule := Rule(Body, "date_maintenance", true, [Test(IsISO8601)])

  const MaintenanceCreateRules: seq<Rule> := [
    MaintenanceCarRule, RequiredRule("type_maintenance"), FreeRule("description"), CostRule, DateRule
  ]

  /** An integer car id, a maintenance type, a cost of at least 0, and an ISO 8601 date when given. */
  predicate MaintenanceBodyValid(req: Request, o: Oracles)
  {
    && IsIntString(BodyText(req, "car_id"))
    && BodyText(req, "type_maintenance") != ""
    && IsFloatNumber(BodyText(req, "cout")) && FloatValue(BodyText(req, "cout")) >= 0.0
    && (Lookup(req, Body, "date_maintenance").None? || o.isISO8601(BodyText(req, "date_maintenance")))
  }

  lemma MaintenanceCreateRulesHold(req: Request, o: Oracles)
    ensures AllRulesHold(MaintenanceCreateRules, req, o) <==> MaintenanceBodyValid(req, o)
  {
    var R := MaintenanceCreateRules;
    OneTestRule(MaintenanceCarRule, Lookup(req, Body, "car_id"), o);
    RequiredRuleMeans("type_maintenance", req, o);
    OneTestRule(CostRule, Lookup(req, Body, "cout"), o);
    OneTestRule(DateRule, Lookup(req, Body, "date_maintenance"), o);
    var b0 := RuleHolds(MaintenanceCarRule, Lookup(req, Body, "car_id"), o);
    var b1 := RuleHolds(RequiredRule("type_maintenance"), Lookup(req, Body, "type_maintenance"), o);
    var b2 := RuleHolds(FreeRule("description"), Lookup(req, Body, "description"), o);
    var b3 := RuleHolds(CostRule, Lookup(req, Body, "cout"), o);
    var b4 := RuleHolds(DateRule, Lookup(req, Body, "date_maintenance"), o);
    assert b2;
    assert MaintenanceBodyValid(req, o) <==> b0 && b1 && b3 && b4;
    if b0 && b1 && b3 && b4 {
      forall i | 0 <= i < |R| ensures RuleHolds(R[i], Lookup(req, R[i].loc, R[i].field), o) {
        if i == 0 { assert b0; } else if i == 1 { assert b1; } else if i == 2 { assert b2; }
        else if i == 3 { assert b3; } else { assert i == 4 && b4; }
      }
    }
    if AllRulesHold(R, req, o) {
      assert RuleHolds(R[0], Lookup(req, R[0].loc, R[0].field), o);
      assert RuleHolds(R[1], Lookup(req, R[1].loc, R[1].field), o);
      assert RuleHolds(R[3], Lookup(req, R[3].loc, R[3].field), o);
      assert RuleHolds(R[4], Lookup(req, R[4].loc, R[4].field), o);
    }
  }

  lemma MaintenanceCreateRulesDistinct()
    ensures DistinctFields(MaintenanceCreateRules)
  {
  }

  /** The maintenance-creation chain reports nothing exactly for a valid body; as written, nothing reads its report. */
  lemma MaintenanceCreateRulesMeaning(req: Request, o: Oracles)
    ensures Errors(MaintenanceCreateRules, req, o) == [] <==> MaintenanceBodyValid(req, o)
  {
    MaintenanceCreateRulesDistinct();
    ValidateMeaning(MaintenanceCreateRules, req, o);
    MaintenanceCreateRulesHold(req, o);
  }
}
