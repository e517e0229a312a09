/**
 * routes/driverRoutes.js: every route authenticates and admits the driver
 * role only; the status, accept and update-status routes run their chains
 * and then handleValidationErrors.
 */
module DriverRoutes {
  import opened Common
  import opened ErrorHandler
  import opened Validation
  import Auth
  import DriverController

  const Roles: seq<Role> := [Driver]

  /** `router.use(authenticate); router.use(authorize('driver'))`, then a chain that ends in handleValidationErrors. */
  function DriverRoute(rules: seq<Rule>, header: Option<string>, verify: string -> Auth.Verified, req: Request, o: Oracles)
    : (r: RouteOutcome)
    ensures r.Handle? ==> r.user.role == Driver && Auth.Guard(Roles, header, verify) == Auth.Proceed(r.user)
    ensures Auth.Guard(Roles, header, verify).Proceed? ==> (r.Handle? <==> Errors(rules, req, o) == [])
    ensures r.Answer? && Auth.Guard(Roles, header, verify).Proceed? ==> r == Answer(400, ValidationMessage)
    ensures r.Handle? ==> r.req == Validate(rules, req, o).1
  {
    Route(Roles, rules, true, header, verify, req, o)
  }

  // ---------------------------------------------------------------------------
  // PATCH /status

  const OnlineRules: seq<Rule> := [Rule(Body, "is_online", false, [Test(IsBoolean)])]

  /** isBoolean's spellings: a JSON boolean, or one of the texts "true", "false", "1" and "0". */
  predicate IsBooleanValue(v: Option<Value>)
  {
    match v
    case Some(Bool(_)) => true
    case Some(Text(t)) => t == "true" || t == "false" || t == "1" || t == "0"
    case _ => false
  }

  lemma OnlineRulesMeaning(req: Request, o: Oracles)
    ensures Errors(OnlineRules, req, o) == [] <==> IsBooleanValue(Lookup(req, Body, "is_online"))
  {
    ValidateMeaning(OnlineRules, req, o);
    OneTestRule(OnlineRules[0], Lookup(req, Body, "is_online"), o);
    if RuleHolds(OnlineRules[0], Lookup(req, Body, "is_online"), o) {
      assert AllRulesHold(OnlineRules, req, o);
    }
  }

  // ---------------------------------------------------------------------------
  // POST /rides/:id/accept and PATCH /rides/:id/update-status

  const IdRule := Rule(Param, "id", false, [Test(IsInt(None, None))])

  const AcceptRules: seq<Rule> := [IdRule]

  lemma AcceptRulesMeaning(req: Request, o: Oracles)
    ensures Errors(AcceptRules, req, o) == [] <==> IsIntString(AsText(Lookup(req, Param, "id")))
  {
    ValidateMeaning(AcceptRules, req, o);
    OneTestRule(AcceptRules[0], Lookup(req, Param, "id"), o);
    if RuleHolds(AcceptRules[0], Lookup(req, Param, "id"), o) {
      assert AllRulesHold(AcceptRules, req, o);
    }
  }

  const TargetNames := ["arrived", "in_progress", "completed"]

  /** `body('status').isIn(['arrived', 'in_progress', 'completed'])`. */
  const TargetRule := Rule(Body, "status", false, [Test(IsIn(TargetNames))])

  const UpdateStatusRules: seq<Rule> := [IdRule, TargetRule]

  lemma UpdateStatusRulesMeaning(req: Request, o: Oracles)
    ensures Errors(UpdateStatusRules, req, o) == [] <==>
      IsIntString(AsText(Lookup(req, Param, "id"))) && AsText(Lookup(req, Body, "status")) in TargetNames
  {
    var R := UpdateStatusRules;
    assert DistinctFields(R);
    ValidateMeaning(R, req, o);
    OneTestRule(IdRule, Lookup(req, Param, "id"), o);
    OneTestRule(TargetRule, Lookup(req, Body, "status"), o);
    var b0 := RuleHolds(IdRule, Lookup(req, Param, "id"), o);
    var b1 := RuleHolds(TargetRule, Lookup(req, Body, "status"), o);
    if b0 && b1 {
      forall i | 0 <= i < |R| ensures RuleHolds(R[i], Lookup(req, R[i].loc, R[i].field), o) {
        if i == 0 { assert b0; } else { assert i == 1 && b1; }
      }
    }
    if AllRulesHold(R, req, o) {
      assert RuleHolds(R[0], Lookup(req, R[0].loc, R[0].field), o);
      assert RuleHolds(R[1], Lookup(req, R[1].loc, R[1].field), o);
    }
  }

  /** Every status the route admits is one updateRideStatus's validStatuses parses. */
  lemma TargetNamesParse(t: string)
    requires t in TargetNames
    ensures DriverController.ParseTarget(t).Some?
  {
    if t == "arrived" {
      ParseStatusName(Arrived);
    } else if t == "in_progress" {
      ParseStatusName(InProgress);
    } else {
      ParseStatusName(Completed);
    }
  }

  /**
   * The route's list and the handler's validStatuses name the same three
   * statuses, so updateRideStatus's own 400 for an unknown target cannot be
   * reached through the route.
   */
  lemma RoutedTargetIsValid(header: Option<string>, verify: string -> Auth.Verified, req: Request, o: Oracles)
    requires DriverRoute(UpdateStatusRules, header, verify, req, o).Handle?
    ensures var seen := DriverRoute(UpdateStatusRules, header, verify, req, o).req;
      DriverController.ParseTarget(AsText(Lookup(seen, Body, "status"))).Some?
  {
    UpdateStatusRulesMeaning(req, o);
    assert DistinctFields(UpdateStatusRules);
    ValidateRewrites(UpdateStatusRules, req, o, 1);
    var seen := Validate(UpdateStatusRules, req, o).1;
    assert RunRule(TargetRule, req, o).1 == req;
    assert Lookup(seen, Body, "status") == Lookup(req, Body, "status");
    TargetNamesParse(AsText(Lookup(req, Body, "status")));
  }
}
