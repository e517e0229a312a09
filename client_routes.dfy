/**
 * routes/clientRoutes.js: every route authenticates and admits the client
 * role only, and each route with a body, a query or an id runs its
 * validator chain and then handleValidationErrors.
 */
module ClientRoutes {
  import opened Common
  import opened ErrorHandler
  import opened Validation
  import Auth

  const Roles: seq<Role> := [Client]

  function BodyText(req: Request, field: string): string
  {
    AsText(Lookup(req, Body, field))
  }

  function ParamText(req: Request, field: string): string
  {
    AsText(Lookup(req, Param, field))
  }

  /** `router.use(authenticate); router.use(authorize('client'))`, then a chain that ends in handleValidationErrors. */
  function ClientRoute(rules: seq<Rule>, header: Option<string>, verify: string -> Auth.Verified, req: Request, o: Oracles)
    : (r: RouteOutcome)
    ensures r.Handle? ==> r.user.role == Client && Auth.Guard(Roles, header, verify) == Auth.Proceed(r.user)
    ensures Auth.Guard(Roles, header, verify).Proceed? ==> (r.Handle? <==> Errors(rules, req, o) == [])
    ensures r.Answer? && Auth.Guard(Roles, header, verify).Proceed? ==> r == Answer(400, ValidationMessage)
    ensures r.Handle? ==> r.req == Validate(rules, req, o).1
  {
    Route(Roles, rules, true, header, verify, req, o)
  }

  predicate IsLatitude(t: string)
  {
    IsFloatNumber(t) && -90.0 <= FloatValue(t) <= 90.0
  }

  predicate IsLongitude(t: string)
  {
    IsFloatNumber(t) && -180.0 <= FloatValue(t) <= 180.0
  }

  // ---------------------------------------------------------------------------
  // POST /rides/request

  /** `body(field).notEmpty().trim()`. */
  function AddressRule(field: string): Rule
  {
    Rule(Body, field, false, [Test(NotEmpty), Trim])
  }

  /** `body(field).isFloat({ min: -90, max: 90 })`. */
  function LatitudeRule(field: string): Rule
  {
    Rule(Body, field, false, [Test(IsFloat(Some(-90.0), Some(90.0)))])
  }

  /** `body(field).isFloat({ min: -180, max: 180 })`. */
  function LongitudeRule(field: string): Rule
  {
    Rule(Body, field, false, [Test(IsFloat(Some(-180.0), Some(180.0)))])
  }

  const RequestRules: seq<Rule> := [
    AddressRule("pickup_address"), LatitudeRule("pickup_lat"), LongitudeRule("pickup_long"),
    AddressRule("dest_address"), LatitudeRule("dest_lat"), LongitudeRule("dest_long")
  ]

  /** Both addresses given and non-empty as sent, both points on the globe. */
  predicate RideRequestValid(req: Request)
  {
    && BodyText(req, "pickup_address") != ""
    && IsLatitude(BodyText(req, "pickup_lat")) && IsLongitude(BodyText(req, "pickup_long"))
    && BodyText(req, "dest_address") != ""
    && IsLatitude(BodyText(req, "dest_lat")) && IsLongitude(BodyText(req, "dest_long"))
  }

  lemma AddressRuleMeans(field: string, req: Request, o: Oracles)
    ensures RuleHolds(AddressRule(field), Lookup(req, Body, field), o) <==> BodyText(req, field) != ""
  {
    TestThenTrimRule(AddressRule(field), Lookup(req, Body, field), o);
  }

  lemma LatitudeRuleMeans(field: string, req: Request, o: Oracles)
    ensures RuleHolds(LatitudeRule(field), Lookup(req, Body, field), o) <==> IsLatitude(BodyText(req, field))
  {
    OneTestRule(LatitudeRule(field), Lookup(req, Body, field), o);
  }

  lemma LongitudeRuleMeans(field: string, req: Request, o: Oracles)
    ensures RuleHolds(LongitudeRule(field), Lookup(req, Body, field), o) <==> IsLongitude(BodyText(req, field))
  {
    OneTestRule(LongitudeRule(field), Lookup(req, Body, field), o);
  }

  lemma RequestRulesHold(req: Request, o: Oracles)
    ensures AllRulesHold(RequestRules, req, o) <==> RideRequestValid(req)
  {
    var R := RequestRules;
    AddressRuleMeans("pickup_address", req, o);
    LatitudeRuleMeans("pickup_lat", req, o);
    LongitudeRuleMeans("pickup_long", req, o);
    AddressRuleMeans("dest_address", req, o);
    LatitudeRuleMeans("dest_lat", req, o);
    LongitudeRuleMeans("dest_long", req, o);
    var b0 := RuleHolds(AddressRule("pickup_address"), Lookup(req, Body, "pickup_address"), o);
    var b1 := RuleHolds(LatitudeRule("pickup_lat"), Lookup(req, Body, "pickup_lat"), o);
    var b2 := RuleHolds(LongitudeRule("pickup_long"), Lookup(req, Body, "pickup_long"), o);
    var b3 := RuleHolds(AddressRule("dest_address"), Lookup(req, Body, "dest_address"), o);
    var b4 := RuleHolds(LatitudeRule("dest_lat"), Lookup(req, Body, "dest_lat"), o);
    var b5 := RuleHolds(LongitudeRule("dest_long"), Lookup(req, Body, "dest_long"), o);
    assert RideRequestValid(req) <==> b0 && b1 && b2 && b3 && b4 && b5;
    if b0 && b1 && b2 && b3 && b4 && b5 {
      forall i | 0 <= i < |R| ensures RuleHolds(R[i], Lookup(req, R[i].loc, R[i].field), o) {
        if i == 0 { assert b0; } else if i == 1 { assert b1; } else if i == 2 { assert b2; }
        else if i == 3 { assert b3; } else if i == 4 { assert b4; } else { assert i == 5 && b5; }
      }
    }
    if AllRulesHold(R, req, o) {
      assert RuleHolds(R[0], Lookup(req, R[0].loc, R[0].field), o);
      assert RuleHolds(R[1], Lookup(req, R[1].loc, R[1].field), o);
      assert RuleHolds(R[2], Lookup(req, R[2].loc, R[2].field), o);
      assert RuleHolds(R[3], Lookup(req, R[3].loc, R[3].field), o);
      assert RuleHolds(R[4], Lookup(req, R[4].loc, R[4].field), o);
      assert RuleHolds(R[5], Lookup(req, R[5].loc, R[5].field), o);
    }
  }

  lemma RequestRulesDistinct()
    ensures DistinctFields(RequestRules)
  {
  }

  /** The ride-request chain reports nothing exactly when the request is valid in the sense above. */
  lemma RequestRulesMeaning(req: Request, o: Oracles)
    ensures Errors(RequestRules, req, o) == [] <==> RideRequestValid(req)
  {
    RequestRulesDistinct();
    ValidateMeaning(RequestRules, req, o);
    RequestRulesHold(req, o);
  }

  /**
   * notEmpty() runs before trim(): an address of one space passes, and the
   * handler receives the empty string.
   */
  lemma BlankAddressReachesHandler(req: Request, o: Oracles)
    requires RideRequestValid(req) && Lookup(req, Body, "pickup_address") == Some(Text(" "))
    ensures Errors(RequestRules, req, o) == []
    ensures Lookup(Validate(RequestRules, req, o).1, Body, "pickup_address") == Some(Text(""))
  {
    RequestRulesMeaning(req, o);
    RequestRulesDistinct();
    ValidateRewrites(RequestRules, req, o, 0);
    TestThenTrimStores(AddressRule("pickup_address"), req, o);
    assert TrimSpaces(" ") == "";
  }

  // ---------------------------------------------------------------------------
  // GET /rides/history

  const HistoryRules: seq<Rule> := [PageRule, LimitRule]

  /**
   * Through the history route, getRideHistory always reads a page of at
   * least 1 and a limit in 1..100 (its default is 20), the inputs its
   * pagination is modelled for.
   */
  lemma HistoryPaging(header: Option<string>, verify: string -> Auth.Verified, req: Request, o: Oracles)
    requires ClientRoute(HistoryRules, header, verify, req, o).Handle?
    ensures var seen := ClientRoute(HistoryRules, header, verify, req, o).req;
      && QueryInt(seen, "page", 1).Some? && QueryInt(seen, "page", 1).value >= 1
      && QueryInt(seen, "limit", 20).Some? && 1 <= QueryInt(seen, "limit", 20).value <= 100
  {
    PagingGuaranteed(HistoryRules, req, o, 20);
  }

  // ---------------------------------------------------------------------------
  // POST /rides/:id/rating and POST /rides/:id/cancel

  const IdRule := Rule(Param, "id", false, [Test(IsInt(None, None))])

  /** `body('rating').isInt({ min: 1, max: 5 })`. */
  const RatingRule := Rule(Body, "rating", false, [Test(IsInt(Some(1), Some(5)))])

  /** `body('comment').optional().trim().isLength({ max: 500 })`. */
  const CommentRule := Rule(Body, "comment", true, [Trim, Test(MaxLength(500))])

  const RatingRules: seq<Rule> := [IdRule, RatingRule, CommentRule]

  /** An integer id, a score from 1 to 5, and a comment, when given, of at most 500 counted characters once trimmed. */
  predicate RatingValid(req: Request)
  {
    && IsIntString(ParamText(req, "id"))
    && IsIntString(BodyText(req, "rating")) && 1 <= ParseIntString(BodyText(req, "rating")) <= 5
    && (Lookup(req, Body, "comment").None? || CountedLength(TrimSpaces(BodyText(req, "comment"))) <= 500)
  }

  lemma RatingRulesDistinct()
    ensures DistinctFields(RatingRules)
  {
  }

  lemma IdRuleMeans(req: Request, o: Oracles)
    ensures RuleHolds(IdRule, Lookup(req, Param, "id"), o) <==> IsIntString(ParamText(req, "id"))
  {
    OneTestRule(IdRule, Lookup(req, Param, "id"), o);
  }

  lemma RatingRuleMeans(req: Request, o: Oracles)
    ensures RuleHolds(RatingRule, Lookup(req, Body, "rating"), o) <==>
      IsIntString(BodyText(req, "rating")) && 1 <= ParseIntString(BodyText(req, "rating")) <= 5
  {
    OneTestRule(RatingRule, Lookup(req, Body, "rating"), o);
  }

  lemma CommentRuleMeans(req: Request, o: Oracles)
    ensures RuleHolds(CommentRule, Lookup(req, Body, "comment"), o) <==>
      Lookup(req, Body, "comment").None? || CountedLength(TrimSpaces(BodyText(req, "comment"))) <= 500
  {
    TrimThenTestRule(CommentRule, Lookup(req, Body, "comment"), o);
  }

  lemma RatingRulesHold(req: Request, o: Oracles)
    ensures AllRulesHold(RatingRules, req, o) <==> RatingValid(req)
  {
    var R := RatingRules;
    IdRuleMeans(req, o);
    RatingRuleMeans(req, o);
    CommentRuleMeans(req, o);
    var b0 := RuleHolds(IdRule, Lookup(req, Param, "id"), o);
    var b1 := RuleHolds(RatingRule, Lookup(req, Body, "rating"), o);
    var b2 := RuleHolds(CommentRule, Lookup(req, Body, "comment"), o);
    assert RatingValid(req) <==> b0 && b1 && b2;
    if b0 && b1 && b2 {
      forall i | 0 <= i < |R| ensures RuleHolds(R[i], Lookup(req, R[i].loc, R[i].field), o) {
        if i == 0 { assert b0; } else if i == 1 { assert b1; } else { assert i == 2 && b2; }
      }
    }
    if AllRulesHold(R, req, o) {
      assert RuleHolds(R[0], Lookup(req, R[0].loc, R[0].field), o);
      assert RuleHolds(R[1], Lookup(req, R[1].loc, R[1].field), o);
      assert RuleHolds(R[2], Lookup(req, R[2].loc, R[2].field), o);
    }
  }

  lemma RatingRulesMeaning(req: Request, o: Oracles)
    ensures Errors(RatingRules, req, o) == [] <==> RatingValid(req)
  {
    RatingRulesDistinct();
    ValidateMeaning(RatingRules, req, o);
    RatingRulesHold(req, o);
  }

  /** Through the rating route, rateRide sees a trimmed comment of at most 500 characters, or none. */
  lemma RatingCommentBounded(header: Option<string>, verify: string -> Auth.Verified, req: Request, o: Oracles)
    requires ClientRoute(RatingRules, header, verify, req, o).Handle?
    ensures var seen := ClientRoute(RatingRules, header, verify, req, o).req;
      match Lookup(seen, Body, "comment")
      case None => Lookup(req, Body, "comment").None?
      case Some(v) => v == Text(TrimSpaces(BodyText(req, "comment"))) && CountedLength(v.s) <= 500
  {
    RatingRulesMeaning(req, o);
    RatingRulesDistinct();
    ValidateRewrites(RatingRules, req, o, 2);
    if Lookup(req, Body, "comment").Some? {
      TrimThenTestStores(CommentRule, req, o);
    }
  }

  const CancelRules: seq<Rule> := [IdRule]

  lemma CancelRulesMeaning(req: Request, o: Oracles)
    ensures Errors(CancelRules, req, o) == [] <==> IsIntString(ParamText(req, "id"))
  {
    ValidateMeaning(CancelRules, req, o);
    if AllRulesHold(CancelRules, req, o) {
      assert RuleHolds(CancelRules[0], Lookup(req, Param, "id"), o);
    }
  }

  // ---------------------------------------------------------------------------
  // Loading the module.

  /** clientRoutes.js's declarations in order; `getRideById` is imported from a controller that does not export it. */
  const DeclarationsAsWritten: seq<Declaration> := [
    Declaration("post", "/rides/request", true),
    Declaration("get", "/rides/active", true),
    Declaration("get", "/rides/history", true),
    Declaration("post", "/rides/:id/rating", true),
    Declaration("get", "/rides/:id", false),
    Declaration("post", "/rides/:id/cancel", true)
  ]

  /** As written, evaluating the module throws at `GET /rides/:id`, so server.js, which requires it, never starts. */
  lemma DeclarationsAsWrittenThrow()
    ensures Declare(DeclarationsAsWritten) == Threw("get", "/rides/:id")
  {
    var ds := DeclarationsAsWritten;
    assert ds[1..][1..][1..][1..] == ds[4..];
  }

  /** The routes this model takes the module to have: the same declarations without the undefined handler's. */
  const Declarations: seq<Declaration> := DeclarationsAsWritten[..4] + DeclarationsAsWritten[5..]

  lemma DeclarationsLoad()
    ensures Declare(Declarations) ==
      Routes([("post", "/rides/request"), ("get", "/rides/active"), ("get", "/rides/history"),
              ("post", "/rides/:id/rating"), ("post", "/rides/:id/cancel")])
  {
    var ds := Declarations;
    assert ds == [DeclarationsAsWritten[0], DeclarationsAsWritten[1], DeclarationsAsWritten[2], DeclarationsAsWritten[3], DeclarationsAsWritten[5]];
  }
}
