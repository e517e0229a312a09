/**
 * The express-validator chains the route files declare, read as data: a rule
 * names a request location and field, whether it is optional, and the
 * validators and sanitizers it runs in order. `Validate` runs a list of rules
 * the way express-validator does; `Route` is the order every router applies:
 * authenticate, authorize, the rules, then (where the route has it)
 * handleValidationErrors.
 *
 * express-validator's standard validators read `toString(value)`, so a value
 * here is the text a JSON number or string has, a boolean, or null.
 */
module Validation {
  import opened Common
  import opened ErrorHandler
  import Auth

  datatype Value = Text(s: string) | Bool(b: bool) | Null

  datatype Location = Body | Query | Param

  datatype Request = Request(params: map<string, Value>, query: map<string, Value>, body: map<string, Value>)

  function FieldsAt(req: Request, loc: Location): map<string, Value>
  {
    match loc
    case Body => req.body
    case Query => req.query
    case Param => req.params
  }

  /** The field's value, None when the request lacks it (undefined). */
  function Lookup(req: Request, loc: Location, field: string): Option<Value>
  {
    var m := FieldsAt(req, loc);
    if field in m then Some(m[field]) else None
  }

  function Store(req: Request, loc: Location, field: string, v: Value): (r: Request)
    ensures Lookup(r, loc, field) == Some(v)
  {
    match loc
    case Body => req.(body := req.body[field := v])
    case Query => req.(query := req.query[field := v])
    case Param => req.(params := req.params[field := v])
  }

  /** express-validator's toString: text as it is, booleans as words, undefined and null as "". */
  function AsText(v: Option<Value>): string
  {
    match v
    case None => ""
    case Some(Text(s)) => s
    case Some(Bool(b)) => if b then "true" else "false"
    case Some(Null) => ""
  }

  // ---------------------------------------------------------------------------
  // Number spellings: validator.js's isFloat pattern, an optional sign, digits,
  // an optional '.' and digits, and an optional exponent `[eE][-+]?[0-9]+`.

  /** The first index of s holding a or b, if any. */
  function IndexOf(s: string, a: char, b: char): (k: Option<nat>)
    ensures k.Some? ==> k.value < |s| && (s[k.value] == a || s[k.value] == b)
    ensures k.Some? ==> forall i | 0 <= i < k.value :: s[i] != a && s[i] != b
    ensures k.None? ==> forall i | 0 <= i < |s| :: s[i] != a && s[i] != b
    decreases |s|
  {
    if s == [] then None
    else if s[0] == a || s[0] == b then Some(0)
    else match IndexOf(s[1..], a, b)
      case None => None
      case Some(j) => Some(j + 1)
  }

  /** s without the one sign it may start with. */
  function Unsigned(s: string): (u: string)
    ensures |s| > 0 && (s[0] == '-' || s[0] == '+') ==> u == s[1..]
    ensures !(|s| > 0 && (s[0] == '-' || s[0] == '+')) ==> u == s
  {
    if |s| > 0 && (s[0] == '-' || s[0] == '+') then s[1..] else s
  }

  /** `[0-9]*(\.[0-9]*)?`: digits, then at most one '.' and more digits; either run may be empty. */
  predicate IsMantissa(m: string)
  {
    match IndexOf(m, '.', '.')
    case None => AllDigits(m)
    case Some(k) => AllDigits(m[..k]) && AllDigits(m[k + 1..])
  }

  /** `[-+]?[0-9]+`: the exponent after the e or E. */
  predicate IsExponent(x: string)
  {
    |Unsigned(x)| > 0 && AllDigits(Unsigned(x))
  }

  /** A spelling cut where isFloat's pattern reads it: the sign, the mantissa, and the exponent text after e or E. */
  datatype FloatParts = FloatParts(negative: bool, mantissa: string, exponent: Option<string>)

  function SplitFloat(s: string): FloatParts
  {
    var u := Unsigned(s);
    match IndexOf(u, 'e', 'E')
    case None => FloatParts(|s| > 0 && s[0] == '-', u, None)
    case Some(k) => FloatParts(|s| > 0 && s[0] == '-', u[..k], Some(u[k + 1..]))
  }

  /** The spellings isFloat's pattern accepts, less the ones it refuses by name: "", ".", "-" and "+". */
  predicate IsFloatString(s: string)
  {
    && s != "" && s != "." && s != "-" && s != "+"
    && IsMantissa(SplitFloat(s).mantissa)
    && (SplitFloat(s).exponent.Some? ==> IsExponent(SplitFloat(s).exponent.value))
  }

  predicate HasDigit(s: string)
  {
    exists i | 0 <= i < |s| :: IsDigit(s[i])
  }

  /**
   * A spelling parseFloat reads as a number: isFloat's pattern with a digit
   * in the mantissa. The pattern also admits "e5", "-.", ".e1" and the like,
   * which parseFloat reads as NaN, and NaN fails every bound.
   */
  predicate IsFloatNumber(s: string)
  {
    IsFloatString(s) && HasDigit(SplitFloat(s).mantissa)
  }

  function Pow10(n: nat): (p: nat)
    ensures p >= 1
  {
    if n == 0 then 1 else 10 * Pow10(n - 1)
  }

  function MantissaValue(m: string): (x: real)
    requires IsMantissa(m)
    ensures x >= 0.0
  {
    match IndexOf(m, '.', '.')
    case None => DigitsValue(m) as real
    case Some(k) =>
      DigitsValue(m[..k]) as real + DigitsValue(m[k + 1..]) as real / Pow10(|m| - k - 1) as real
  }

  function ExponentValue(x: string): int
    requires IsExponent(x)
  {
    if x[0] == '-' then -(DigitsValue(x[1..]) as int) else DigitsValue(Unsigned(x))
  }

  /** 10 to the power e, for any integer e. */
  function Scale(e: int): (f: real)
    ensures f > 0.0
  {
    if e >= 0 then Pow10(e) as real else 1.0 / Pow10(-e) as real
  }

  /** The exact number the spelling denotes; parseFloat then rounds it to the nearest double. */
  function FloatValue(s: string): real
    requires IsFloatNumber(s)
  {
    var p := SplitFloat(s);
    var magnitude := MantissaValue(p.mantissa) * (if p.exponent.Some? then Scale(ExponentValue(p.exponent.value)) else 1.0);
    if p.negative then -magnitude else magnitude
  }

  /** Every integer spelling is also a float spelling, with the same value. */
  lemma IntStringIsFloat(s: string)
    requires IsIntString(s)
    ensures IsFloatNumber(s) && FloatValue(s) == ParseIntString(s) as real
  {
    var u := Unsigned(s);
    assert AllDigits(u) && |u| > 0;
    assert IndexOf(u, 'e', 'E').None? by {
      assert forall i | 0 <= i < |u| :: IsDigit(u[i]);
    }
    assert IndexOf(u, '.', '.').None? by {
      assert forall i | 0 <= i < |u| :: IsDigit(u[i]);
    }
    assert SplitFloat(s).mantissa == u;
    assert IsDigit(u[0]);
  }

  /** "1e1" is ten: isFloat reads an exponent. */
  lemma TenWithExponent()
    ensures IsFloatNumber("1e1") && FloatValue("1e1") == 10.0
  {
    assert IndexOf("1e1", 'e', 'E') == Some(1);
    assert SplitFloat("1e1") == FloatParts(false, "1", Some("1"));
    assert IndexOf("1", '.', '.') == None;
    assert IsDigit("1"[0]) && DigitsValue("1") == 1;
  }

  /** "-2.5E-1" is minus a quarter: a sign, a fraction and a negative exponent. */
  lemma QuarterWithExponent()
    ensures IsFloatNumber("-2.5E-1") && FloatValue("-2.5E-1") == -0.25
  {
    assert Unsigned("-2.5E-1") == "2.5E-1";
    assert IndexOf("2.5E-1", 'e', 'E') == Some(3);
    assert SplitFloat("-2.5E-1") == FloatParts(true, "2.5", Some("-1"));
    TwoAndAHalf();
    MinusOne();
  }

  /** "-1" is an exponent that scales by a tenth. */
  lemma MinusOne()
    ensures IsExponent("-1") && ExponentValue("-1") == -1 && Scale(-1) == 0.1
  {
    assert Unsigned("-1") == "1" && "-1"[1..] == "1";
    assert DigitsValue("1") == 1;
  }

  /** "2.5" is a mantissa worth two and a half. */
  lemma TwoAndAHalf()
    ensures IsMantissa("2.5") && HasDigit("2.5") && MantissaValue("2.5") == 2.5
  {
    assert IndexOf("2.5", '.', '.') == Some(1);
    assert IsDigit("2.5"[0]);
    assert "2.5"[..1] == "2" && "2.5"[2..] == "5";
    assert DigitsValue("2") == 2 && DigitsValue("5") == 5;
  }

  /** "1e-7", how JavaScript writes the JSON number 0.0000001, is a ten-millionth. */
  lemma TenMillionthWithExponent()
    ensures IsFloatNumber("1e-7") && FloatValue("1e-7") == 0.0000001
  {
    assert IndexOf("1e-7", 'e', 'E') == Some(1);
    assert SplitFloat("1e-7") == FloatParts(false, "1", Some("-7"));
    assert IsDigit("1"[0]);
    assert MantissaValue("1") == 1.0 by {
      assert IndexOf("1", '.', '.') == None;
      assert DigitsValue("1") == 1;
    }
    assert ExponentValue("-7") == -7 by {
      assert "-7"[1..] == "7" && DigitsValue("7") == 7;
    }
    assert Scale(-7) == 0.0000001 by {
      assert Pow10(7) == 10000000;
    }
  }

  /** "e5" matches isFloat's pattern but has no digit before the exponent, so parseFloat gives NaN; "1e" does not match. */
  lemma ExponentWithoutNumber()
    ensures IsFloatString("e5") && !IsFloatNumber("e5")
    ensures !IsFloatString("1e")
  {
    assert IndexOf("e5", 'e', 'E') == Some(0);
    assert SplitFloat("e5") == FloatParts(false, "", Some("5"));
    assert IndexOf("", '.', '.') == None;
    assert Unsigned("5") == "5" && IsDigit("5"[0]);
    assert IndexOf("1e", 'e', 'E') == Some(1);
    assert SplitFloat("1e") == FloatParts(false, "1", Some(""));
  }

  // ---------------------------------------------------------------------------
  // The trim() sanitizer.

  /**
   * JavaScript's `\s`, which both validator's trim() and String.prototype.trim
   * strip: tab, the line breaks, vertical tab, form feed, the byte-order mark
   * and every space separator (U+0020, U+00A0, U+1680, U+2000 to U+200A,
   * U+202F, U+205F, U+3000), plus U+2028 and U+2029.
   */
  predicate IsSpace(c: char)
  {
    || c == '\t' || c == '\n' || c == '\U{B}' || c == '\U{C}' || c == '\r' || c == ' '
    || c == '\U{A0}' || c == '\U{1680}' || ('\U{2000}' <= c <= '\U{200A}')
    || c == '\U{2028}' || c == '\U{2029}' || c == '\U{202F}' || c == '\U{205F}' || c == '\U{3000}' || c == '\U{FEFF}'
  }

  function TrimStart(s: string): (t: string)
    ensures |t| <= |s| && (|t| > 0 ==> !IsSpace(t[0]))
    ensures t == s[|s| - |t|..]
    decreases |s|
  {
    if |s| > 0 && IsSpace(s[0]) then TrimStart(s[1..]) else s
  }

  function TrimEnd(s: string): (t: string)
    ensures |t| <= |s| && (|t| > 0 ==> !IsSpace(t[|t| - 1]))
    ensures t == s[..|t|]
    decreases |s|
  {
    if |s| > 0 && IsSpace(s[|s| - 1]) then TrimEnd(s[..|s| - 1]) else s
  }

  function TrimSpaces(s: string): (t: string)
    ensures |t| <= |s|
    ensures |t| > 0 ==> !IsSpace(t[0]) && !IsSpace(t[|t| - 1])
  {
    TrimEnd(TrimStart(s))
  }

  // ---------------------------------------------------------------------------
  // isLength's count.

  /** U+FE0E and U+FE0F, the presentation selectors isLength leaves out of its count. */
  predicate IsPresentationSelector(c: char)
  {
    c == '\U{FE0E}' || c == '\U{FE0F}'
  }

  /**
   * The length isLength compares: the characters of the text (a character
   * outside the Basic Multilingual Plane counts once, as isLength counts a
   * surrogate pair) less its presentation selectors.
   */
  function CountedLength(s: string): (n: nat)
    ensures n <= |s|
    ensures (forall i | 0 <= i < |s| :: !IsPresentationSelector(s[i])) ==> n == |s|
    decreases |s|
  {
    if s == [] then 0
    else
      assert forall i | 0 <= i < |s[1..]| :: s[1..][i] == s[i + 1];
      CountedLength(s[1..]) + if IsPresentationSelector(s[0]) then 0 else 1
  }

  /** "a" followed by U+FE0F is two characters that isLength counts as one. */
  lemma SelectorNotCounted()
    ensures |"a\U{FE0F}"| == 2 && CountedLength("a\U{FE0F}") == 1
  {
    assert "a\U{FE0F}"[1..] == "\U{FE0F}";
    assert "\U{FE0F}"[1..] == "";
  }

  // ---------------------------------------------------------------------------
  // Rules and their interpreter.

  datatype Check =
    | NotEmpty
    | IsFloat(fmin: Option<real>, fmax: Option<real>)
    | IsInt(imin: Option<int>, imax: Option<int>)
    | IsBoolean
    | IsIn(options: seq<string>)
    | MinLength(min: nat)
    | MaxLength(max: nat)
    | IsEmail
    | IsISO8601

  datatype Step = Test(check: Check) | Trim

  /** `body('f').optional().…`: where the field is read, whether it may be omitted, and what runs on it. */
  datatype Rule = Rule(loc: Location, field: string, optional: bool, steps: seq<Step>)

  /** validator.js's e-mail and ISO 8601 recognisers, whose grammars are not modelled. */
  datatype Oracles = Oracles(isEmail: string -> bool, isISO8601: string -> bool)

  const InvalidValue := "Invalid value"

  predicate RealWithin(x: real, lo: Option<real>, hi: Option<real>)
  {
    (lo.None? || lo.value <= x) && (hi.None? || x <= hi.value)
  }

  predicate IntWithin(x: int, lo: Option<int>, hi: Option<int>)
  {
    (lo.None? || lo.value <= x) && (hi.None? || x <= hi.value)
  }

  predicate Passes(c: Check, text: string, o: Oracles)
  {
    match c
    case NotEmpty => text != ""
    case IsFloat(lo, hi) =>
      IsFloatString(text) && (if IsFloatNumber(text) then RealWithin(FloatValue(text), lo, hi) else lo.None? && hi.None?)
    case IsInt(lo, hi) => IsIntString(text) && IntWithin(ParseIntString(text), lo, hi)
    case IsBoolean => text == "true" || text == "false" || text == "1" || text == "0"
    case IsIn(options) => text in options
    case MinLength(n) => CountedLength(text) >= n
    case MaxLength(n) => CountedLength(text) <= n
    case IsEmail => o.isEmail(text)
    case IsISO8601 => o.isISO8601(text)
  }

  /** Runs the steps on the current text: each failing validator adds one error, trim() rewrites the text. */
  function RunSteps(steps: seq<Step>, field: string, text: string, o: Oracles): (r: (seq<ValidationError>, string))
    ensures r.0 == [] <==> StepsPass(steps, text, o)
    decreases |steps|
  {
    if steps == [] then ([], text)
    else
      var rest := RunSteps(steps[1..], field, if steps[0].Trim? then TrimSpaces(text) else text, o);
      if steps[0].Trim? || Passes(steps[0].check, text, o) then rest
      else ([ValidationError(field, InvalidValue)] + rest.0, rest.1)
  }

  /** Every validator in the steps accepts the text it sees, trim() applied where it stands. */
  predicate StepsPass(steps: seq<Step>, text: string, o: Oracles)
    decreases |steps|
  {
    steps == [] ||
    match steps[0]
    case Trim => StepsPass(steps[1..], TrimSpaces(text), o)
    case Test(c) => Passes(c, text, o) && StepsPass(steps[1..], text, o)
  }

  predicate HasTrim(steps: seq<Step>)
  {
    exists i | 0 <= i < |steps| :: steps[i].Trim?
  }

  function RunRule(rule: Rule, req: Request, o: Oracles): (r: (seq<ValidationError>, Request))
  {
    var v := Lookup(req, rule.loc, rule.field);
    if rule.optional && v.None? then ([], req)
    else
      var (errs, text) := RunSteps(rule.steps, rule.field, AsText(v), o);
      (errs, if HasTrim(rule.steps) then Store(req, rule.loc, rule.field, Text(text)) else req)
  }

  function Validate(rules: seq<Rule>, req: Request, o: Oracles): (r: (seq<ValidationError>, Request))
    decreases |rules|
  {
    if rules == [] then ([], req)
    else
      var (e1, req1) := RunRule(rules[0], req, o);
      var (e2, req2) := Validate(rules[1..], req1, o);
      (e1 + e2, req2)
  }

  function Errors(rules: seq<Rule>, req: Request, o: Oracles): seq<ValidationError>
  {
    Validate(rules, req, o).0
  }

  /** What one rule demands of the value it reads. */
  predicate RuleHolds(rule: Rule, v: Option<Value>, o: Oracles)
  {
    (rule.optional && v.None?) || StepsPass(rule.steps, AsText(v), o)
  }

  /** A rule that runs one validator holds when the field is an omitted optional one or the validator accepts its text. */
  lemma OneTestRule(rule: Rule, v: Option<Value>, o: Oracles)
    requires |rule.steps| == 1 && rule.steps[0].Test?
    ensures RuleHolds(rule, v, o) <==> (rule.optional && v.None?) || Passes(rule.steps[0].check, AsText(v), o)
  {
    var t := AsText(v);
    assert StepsPass(rule.steps[1..], t, o);
    assert StepsPass(rule.steps, t, o) <==> Passes(rule.steps[0].check, t, o);
  }

  /** `.notEmpty().trim()` and the like: the validator sees the text as sent. */
  lemma TestThenTrimRule(rule: Rule, v: Option<Value>, o: Oracles)
    requires |rule.steps| == 2 && rule.steps[0].Test? && rule.steps[1].Trim?
    ensures RuleHolds(rule, v, o) <==> (rule.optional && v.None?) || Passes(rule.steps[0].check, AsText(v), o)
  {
    var t := AsText(v);
    var rest := rule.steps[1..];
    assert rest[1..] == [];
    assert StepsPass(rest[1..], TrimSpaces(t), o);
    assert StepsPass(rest, t, o);
    assert StepsPass(rule.steps, t, o) <==> Passes(rule.steps[0].check, t, o);
  }

  /** `.trim().isLength(…)`: the validator sees the trimmed text. */
  lemma TrimThenTestRule(rule: Rule, v: Option<Value>, o: Oracles)
    requires |rule.steps| == 2 && rule.steps[0].Trim? && rule.steps[1].Test?
    ensures RuleHolds(rule, v, o) <==> (rule.optional && v.None?) || Passes(rule.steps[1].check, TrimSpaces(AsText(v)), o)
  {
    var t := TrimSpaces(AsText(v));
    var rest := rule.steps[1..];
    assert rest[1..] == [] && rest[0] == rule.steps[1];
    assert StepsPass(rest[1..], t, o);
    assert StepsPass(rest, t, o) <==> Passes(rule.steps[1].check, t, o);
    assert StepsPass(rule.steps, AsText(v), o) <==> StepsPass(rest, t, o);
  }

  /** `.notEmpty().isLength({ min })`: both validators on the text as sent. */
  lemma TwoTestRule(rule: Rule, v: Option<Value>, o: Oracles)
    requires |rule.steps| == 2 && rule.steps[0].Test? && rule.steps[1].Test?
    ensures RuleHolds(rule, v, o) <==>
      (rule.optional && v.None?) || (Passes(rule.steps[0].check, AsText(v), o) && Passes(rule.steps[1].check, AsText(v), o))
  {
    var t := AsText(v);
    var rest := rule.steps[1..];
    assert rest[1..] == [] && rest[0] == rule.steps[1];
    assert StepsPass(rest[1..], t, o);
    assert StepsPass(rest, t, o) <==> Passes(rule.steps[1].check, t, o);
    assert StepsPass(rule.steps, t, o) <==> Passes(rule.steps[0].check, t, o) && StepsPass(rest, t, o);
  }

  /** `.notEmpty().trim()` on a field that is present leaves the trimmed text there. */
  lemma TestThenTrimStores(rule: Rule, req: Request, o: Oracles)
    requires |rule.steps| == 2 && rule.steps[0].Test? && rule.steps[1].Trim?
    requires Lookup(req, rule.loc, rule.field).Some?
    ensures Lookup(RunRule(rule, req, o).1, rule.loc, rule.field)
            == Some(Text(TrimSpaces(AsText(Lookup(req, rule.loc, rule.field)))))
  {
    var t := AsText(Lookup(req, rule.loc, rule.field));
    var rest := rule.steps[1..];
    assert rest[1..] == [];
    assert RunSteps(rest, rule.field, t, o).1 == TrimSpaces(t);
    assert RunSteps(rule.steps, rule.field, t, o).1 == TrimSpaces(t);
    assert HasTrim(rule.steps) by {
      assert rule.steps[1].Trim?;
    }
  }

  /** `.trim().isLength(…)` on a field that is present leaves the trimmed text there. */
  lemma TrimThenTestStores(rule: Rule, req: Request, o: Oracles)
    requires |rule.steps| == 2 && rule.steps[0].Trim? && rule.steps[1].Test?
    requires Lookup(req, rule.loc, rule.field).Some?
    ensures Lookup(RunRule(rule, req, o).1, rule.loc, rule.field)
            == Some(Text(TrimSpaces(AsText(Lookup(req, rule.loc, rule.field)))))
  {
    var t := AsText(Lookup(req, rule.loc, rule.field));
    var rest := rule.steps[1..];
    assert rest[1..] == [];
    assert RunSteps(rest, rule.field, TrimSpaces(t), o).1 == TrimSpaces(t);
    assert RunSteps(rule.steps, rule.field, t, o).1 == TrimSpaces(t);
    assert HasTrim(rule.steps) by {
      assert rule.steps[0].Trim?;
    }
  }

  /** A rule on a field leaves other fields as they were, and the field it rewrites only by trimming. */
  lemma RunRuleFrame(rule: Rule, req: Request, o: Oracles, loc: Location, field: string)
    requires loc != rule.loc || field != rule.field
    ensures Lookup(RunRule(rule, req, o).1, loc, field) == Lookup(req, loc, field)
  {
  }

  /** No two rules of the chain name the same field. */
  predicate DistinctFields(rules: seq<Rule>)
  {
    forall i, j | 0 <= i < j < |rules| :: rules[i].loc != rules[j].loc || rules[i].field != rules[j].field
  }

  /** Every rule of the chain holds of the value the request carries for its field. */
  predicate AllRulesHold(rules: seq<Rule>, req: Request, o: Oracles)
  {
    forall i | 0 <= i < |rules| :: RuleHolds(rules[i], Lookup(req, rules[i].loc, rules[i].field), o)
  }

  /**
   * When no two rules name the same field, the chain reports no error exactly
   * when every rule holds of the value the request carries: rules do not see
   * each other's rewrites.
   */
  lemma {:induction false} ValidateMeaning(rules: seq<Rule>, req: Request, o: Oracles)
    requires DistinctFields(rules)
    ensures Errors(rules, req, o) == [] <==> AllRulesHold(rules, req, o)
    decreases |rules|
  {
    if rules != [] {
      var (e1, req1) := RunRule(rules[0], req, o);
      var rest := rules[1..];
      forall i | 0 <= i < |rest|
        ensures Lookup(req1, rest[i].loc, rest[i].field) == Lookup(req, rest[i].loc, rest[i].field)
      {
        RunRuleFrame(rules[0], req, o, rest[i].loc, rest[i].field);
      }
      ValidateMeaning(rest, req1, o);
      assert e1 == [] <==> RuleHolds(rules[0], Lookup(req, rules[0].loc, rules[0].field), o);
      if forall i | 0 <= i < |rules| :: RuleHolds(rules[i], Lookup(req, rules[i].loc, rules[i].field), o) {
        forall i | 0 <= i < |rest|
          ensures RuleHolds(rest[i], Lookup(req1, rest[i].loc, rest[i].field), o)
        {
          assert rest[i] == rules[i + 1];
        }
      } else {
        var i :| 0 <= i < |rules| && !RuleHolds(rules[i], Lookup(req, rules[i].loc, rules[i].field), o);
        if i > 0 {
          assert rest[i - 1] == rules[i];
        }
      }
    }
  }

  /** A chain that reports nothing satisfies each of its rules. */
  lemma RuleAtHolds(rules: seq<Rule>, req: Request, o: Oracles, k: int)
    requires DistinctFields(rules) && 0 <= k < |rules| && Errors(rules, req, o) == []
    ensures RuleHolds(rules[k], Lookup(req, rules[k].loc, rules[k].field), o)
  {
    ValidateMeaning(rules, req, o);
  }

  /** A chain leaves alone every field none of its rules names. */
  lemma {:induction false} ValidateFrame(rules: seq<Rule>, req: Request, o: Oracles, loc: Location, field: string)
    requires forall i | 0 <= i < |rules| :: rules[i].loc != loc || rules[i].field != field
    ensures Lookup(Validate(rules, req, o).1, loc, field) == Lookup(req, loc, field)
    decreases |rules|
  {
    if rules != [] {
      var req1 := RunRule(rules[0], req, o).1;
      RunRuleFrame(rules[0], req, o, loc, field);
      forall i | 0 <= i < |rules[1..]| ensures rules[1..][i].loc != loc || rules[1..][i].field != field {
        assert rules[1..][i] == rules[i + 1];
      }
      ValidateFrame(rules[1..], req1, o, loc, field);
    }
  }

  /** What a rule leaves in its own field depends only on the value that field had. */
  lemma RunRuleLocal(rule: Rule, req: Request, other: Request, o: Oracles)
    requires Lookup(req, rule.loc, rule.field) == Lookup(other, rule.loc, rule.field)
    ensures Lookup(RunRule(rule, req, o).1, rule.loc, rule.field) == Lookup(RunRule(rule, other, o).1, rule.loc, rule.field)
  {
  }

  /**
   * When no two rules name the same field, the handler finds in each field
   * what that field's own rule made of the value the request carried.
   */
  lemma {:induction false} ValidateRewrites(rules: seq<Rule>, req: Request, o: Oracles, k: int)
    requires DistinctFields(rules) && 0 <= k < |rules|
    ensures Lookup(Validate(rules, req, o).1, rules[k].loc, rules[k].field)
            == Lookup(RunRule(rules[k], req, o).1, rules[k].loc, rules[k].field)
    decreases |rules|
  {
    var req1 := RunRule(rules[0], req, o).1;
    var rest := rules[1..];
    if k == 0 {
      forall i | 0 <= i < |rest| ensures rest[i].loc != rules[0].loc || rest[i].field != rules[0].field {
        assert rest[i] == rules[i + 1];
      }
      ValidateFrame(rest, req1, o, rules[0].loc, rules[0].field);
    } else {
      assert rest[k - 1] == rules[k];
      forall i, j | 0 <= i < j < |rest| ensures rest[i].loc != rest[j].loc || rest[i].field != rest[j].field {
        assert rest[i] == rules[i + 1] && rest[j] == rules[j + 1];
      }
      ValidateRewrites(rest, req1, o, k - 1);
      RunRuleFrame(rules[0], req, o, rules[k].loc, rules[k].field);
      RunRuleLocal(rules[k], req1, req, o);
    }
  }

  // ---------------------------------------------------------------------------
  // Paging parameters, shared by the history and list routes.

  /** `query('page').optional().isInt({ min: 1 })`. */
  const PageRule := Rule(Query, "page", true, [Test(IsInt(Some(1), None))])

  /** `query('limit').optional().isInt({ min: 1, max: 100 })`. */
  const LimitRule := Rule(Query, "limit", true, [Test(IsInt(Some(1), Some(100)))])

  /**
   * `const { page = 1, limit = n } = req.query` as the handler's arithmetic
   * reads it: the default when the field is absent, the integer an integer
   * spelling denotes, and None for any other text (NaN or a fraction).
   */
  function QueryInt(req: Request, field: string, default: int): (n: Option<int>)
    ensures Lookup(req, Query, field).None? ==> n == Some(default)
    ensures Lookup(req, Query, field).Some? ==>
      (n.Some? <==> IsIntString(AsText(Lookup(req, Query, field))))
  {
    match Lookup(req, Query, field)
    case None => Some(default)
    case Some(v) => if IsIntString(AsText(Some(v))) then Some(ParseIntString(AsText(Some(v)))) else None
  }

  /**
   * A chain that opens with the page and limit rules and reports no error
   * hands the handler a page of at least 1 and a limit in 1..100, whatever
   * the handler's default limit in that range.
   */
  lemma PagingGuaranteed(rules: seq<Rule>, req: Request, o: Oracles, defaultLimit: int)
    requires DistinctFields(rules) && |rules| >= 2 && rules[0] == PageRule && rules[1] == LimitRule
    requires 1 <= defaultLimit <= 100
    requires Errors(rules, req, o) == []
    ensures var seen := Validate(rules, req, o).1;
      && QueryInt(seen, "page", 1).Some? && QueryInt(seen, "page", 1).value >= 1
      && QueryInt(seen, "limit", defaultLimit).Some?
      && 1 <= QueryInt(seen, "limit", defaultLimit).value <= 100
  {
    ValidateMeaning(rules, req, o);
    assert RuleHolds(rules[0], Lookup(req, Query, "page"), o);
    assert RuleHolds(rules[1], Lookup(req, Query, "limit"), o);
    ValidateRewrites(rules, req, o, 0);
    ValidateRewrites(rules, req, o, 1);
  }

  // ---------------------------------------------------------------------------
  // A router's pipeline.

  /** `router.<verb>(path, ..., handler)`: whether the name passed as the handler is bound to a function. */
  datatype Declaration = Declaration(verb: string, path: string, handlerDefined: bool)

  /** A route module once evaluated: its routes, or the throw at the first declaration without a handler. */
  datatype Loaded = Routes(routes: seq<(string, string)>) | Threw(verb: string, path: string)

  /**
   * A route module's declarations, evaluated in order. Express refuses a
   * handler that is not a function by throwing at its declaration, which
   * ends the evaluation of the module and of whatever `require`s it.
   */
  function Declare(ds: seq<Declaration>): (r: Loaded)
    ensures r.Routes? <==> forall i | 0 <= i < |ds| :: ds[i].handlerDefined
    ensures r.Routes? ==> |r.routes| == |ds| && forall i | 0 <= i < |ds| :: r.routes[i] == (ds[i].verb, ds[i].path)
    ensures r.Threw? ==>
      exists i | 0 <= i < |ds| :: && !ds[i].handlerDefined && r == Threw(ds[i].verb, ds[i].path)
                                 && forall j | 0 <= j < i :: ds[j].handlerDefined
    decreases |ds|
  {
    if ds == [] then Routes([])
    else if !ds[0].handlerDefined then Threw(ds[0].verb, ds[0].path)
    else
      var rest := Declare(ds[1..]);
      if rest.Routes? then Routes([(ds[0].verb, ds[0].path)] + rest.routes)
      else
        var i :| 0 <= i < |ds[1..]| && !ds[1..][i].handlerDefined && rest == Threw(ds[1..][i].verb, ds[1..][i].path)
                 && forall j | 0 <= j < i :: ds[1..][j].handlerDefined;
        assert ds[i + 1] == ds[1..][i];
        assert forall j | 1 <= j < i + 1 :: ds[j] == ds[1..][j - 1];
        rest
  }

  datatype RouteOutcome = Handle(user: Auth.Identity, req: Request) | Answer(status: int, message: string)

  /**
   * `router.use(authenticate); router.use(authorize(...roles));` then the
   * route's rules; `gated` says whether the route ends its chain with
   * handleValidationErrors. The handler sees the sanitized request.
   */
  function Route(roles: seq<Role>, rules: seq<Rule>, gated: bool, header: Option<string>,
                 verify: string -> Verified, req: Request, o: Oracles): (r: RouteOutcome)
    ensures r.Handle? ==> Auth.Guard(roles, header, verify) == Auth.Proceed(r.user) && r.user.role in roles
    ensures r.Handle? ==> r.req == Validate(rules, req, o).1
    ensures r.Handle? && gated ==> Errors(rules, req, o) == []
    ensures Auth.Guard(roles, header, verify).Proceed? && gated && Errors(rules, req, o) != [] ==>
      r == Answer(400, ValidationMessage)
    ensures Auth.Guard(roles, header, verify).Deny? ==>
      r == Answer(Auth.Guard(roles, header, verify).status, Auth.Guard(roles, header, verify).message)
  {
    match Auth.Guard(roles, header, verify)
    case Deny(s, m) => Answer(s, m)
    case Proceed(u) =>
      var (errs, sanitized) := Validate(rules, req, o);
      if !gated then Handle(u, sanitized)
      else
        match HandleValidationErrors(errs)
        case Next => Handle(u, sanitized)
        case Respond(s, m) => Answer(s, m)
  }

  type Verified = Auth.Verified
}
