/**
 * The dynamic SQL the admin list and update handlers assemble: a WHERE
 * clause grown one condition per present filter, with a `$n` placeholder
 * and a pushed parameter for each filter that carries a value, then
 * `LIMIT $paramIndex OFFSET $paramIndex + 1`; and an UPDATE's SET list grown
 * one assignment per supplied field, the row id taking the last placeholder.
 *
 * Conditions are kept as data with their placeholder numbers. What a
 * condition means for a row is stated against the parameter list, so the
 * builder's numbering is correct exactly when the conditions mean what the
 * filters ask for.
 */
module QueryBuilder {
  import opened Common

  /** The columns the handlers filter on or assign. */
  datatype Column =
    | DriverNom | DriverPrenom | DriverTelephone | DriverResidence | DriverCar
    | CarModel | CarPlate | CarStatus | CarType
    | ClientNom | ClientPrenom | ClientTelephone | UserEmail
    | MaintenanceCar | MaintenanceKind

  /** One joined result row: the text of each column, or NULL. */
  type Row = Column -> Option<string>

  datatype Param = TextParam(text: string) | IntParam(n: int) | NullParam

  /** A filter the handler decided to apply. */
  datatype Filter =
    | Search(columns: seq<Column>, term: string)
    | HasValue(column: Column, present: bool)
    | Equals(column: Column, value: string)

  /** A condition of the WHERE clause; placeholders count from 1. */
  datatype Condition =
    | IlikeAny(columns: seq<Column>, placeholder: int)
    | IsNotNull(column: Column)
    | IsNull(column: Column)
    | EqualsParam(column: Column, placeholder: int)

  // ---------------------------------------------------------------------------
  // ILIKE.

  /** Lower case for ASCII and the Latin-1 capitals (À to Þ, less ×); other characters are left as they are. */
  function LowerChar(c: char): char
  {
    if 'A' <= c <= 'Z' || ('\U{C0}' <= c <= '\U{DE}' && c != '\U{D7}') then (c as int + 32) as char else c
  }

  function Lower(s: string): (t: string)
    ensures |t| == |s| && forall i | 0 <= i < |s| :: t[i] == LowerChar(s[i])
  {
    seq(|s|, i requires 0 <= i < |s| => LowerChar(s[i]))
  }

  predicate OccursAt(s: string, t: string, i: int)
  {
    0 <= i <= |s| - |t| && s[i..i + |t|] == t
  }

  predicate Contains(s: string, t: string)
  {
    exists i | 0 <= i <= |s| :: OccursAt(s, t, i)
  }

  /** `%${search}%`. */
  function Pattern(term: string): (p: string)
    ensures |p| == |term| + 2 && p[0] == '%' && p[|p| - 1] == '%' && p[1..|p| - 1] == term
  {
    "%" + term + "%"
  }

  /**
   * LIKE with PostgreSQL's default escape: `%` matches any run of
   * characters, `_` exactly one, `\` makes the character after it literal,
   * and every other character matches itself. (PostgreSQL refuses a pattern
   * that ends in a lone `\`; a `%${search}%` pattern never does, since its
   * last `%` is either a wildcard or the escaped character.)
   */
  predicate Like(s: string, p: string)
    decreases |p|, |s|
  {
    if p == [] then s == []
    else if p[0] == '%' then Like(s, p[1..]) || (s != [] && Like(s[1..], p))
    else if p[0] == '_' then s != [] && Like(s[1..], p[1..])
    else if p[0] == '\\' then |p| >= 2 && s != [] && s[0] == p[1] && Like(s[1..], p[2..])
    else s != [] && s[0] == p[0] && Like(s[1..], p[1..])
  }

  /** ILIKE: LIKE on the lower-cased value and pattern. */
  predicate ILike(value: string, pattern: string)
  {
    Like(Lower(value), Lower(pattern))
  }

  /** A pattern with no wildcard and no escape: it matches only itself. */
  predicate Literal(t: string)
  {
    forall i | 0 <= i < |t| :: t[i] != '%' && t[i] != '_' && t[i] != '\\'
  }

  /** `%` matches every string. */
  lemma {:induction false} LikeAnyRun(s: string)
    ensures Like(s, "%")
    decreases |s|
  {
    assert "%"[1..] == [];
    if s != [] {
      LikeAnyRun(s[1..]);
    }
  }

  /** A leading `%` lets the rest of the pattern match any suffix. */
  lemma {:induction false} LikeLeadingPercent(s: string, r: string)
    ensures Like(s, "%" + r) <==> exists i | 0 <= i <= |s| :: Like(s[i..], r)
    decreases |s|
  {
    var p := "%" + r;
    assert p[0] == '%' && p[1..] == r;
    assert s[0..] == s;
    if s != [] {
      LikeLeadingPercent(s[1..], r);
      if Like(s[1..], p) {
        var i :| 0 <= i <= |s[1..]| && Like(s[1..][i..], r);
        assert s[1..][i..] == s[i + 1..];
      }
      if exists i | 1 <= i <= |s| :: Like(s[i..], r) {
        var i :| 1 <= i <= |s| && Like(s[i..], r);
        assert s[1..][i - 1..] == s[i..];
      }
    }
  }

  /** A literal prefix of the pattern must be the value's prefix. */
  lemma {:induction false} LikeLiteralPrefix(s: string, q: string, r: string)
    requires Literal(q)
    ensures Like(s, q + r) <==> |s| >= |q| && s[..|q|] == q && Like(s[|q|..], r)
    decreases |q|
  {
    if q == [] {
      assert q + r == r && s[0..] == s;
    } else {
      var p := q + r;
      assert p[0] == q[0] && p[1..] == q[1..] + r;
      LikeLiteralPrefix(if s == [] then s else s[1..], q[1..], r);
      if s != [] && |s| >= |q| {
        assert s[..|q|] == [s[0]] + s[1..][..|q| - 1];
        assert s[1..][|q| - 1..] == s[|q|..];
      }
    }
  }

  lemma LowerLiteral(t: string)
    requires Literal(t)
    ensures Literal(Lower(t))
  {
  }

  lemma LowerPattern(t: string)
    ensures Lower(Pattern(t)) == Pattern(Lower(t))
  {
  }

  /**
   * A search term without `%`, `_` or `\` matches a value exactly when it
   * occurs in it, case aside.
   */
  lemma SearchMeaning(value: string, term: string)
    requires Literal(term)
    ensures ILike(value, Pattern(term)) <==> Contains(Lower(value), Lower(term))
  {
    var v, t := Lower(value), Lower(term);
    LowerPattern(term);
    LowerLiteral(term);
    assert Pattern(t) == "%" + (t + "%");
    LikeLeadingPercent(v, t + "%");
    forall i | 0 <= i <= |v| ensures Like(v[i..], t + "%") <==> OccursAt(v, t, i) {
      LikeLiteralPrefix(v[i..], t, "%");
      if |v[i..]| >= |t| {
        LikeAnyRun(v[i..][|t|..]);
        assert v[i..][..|t|] == v[i..i + |t|];
      }
    }
  }

  /** The wildcards typed into a search: `_` matches every non-empty value, `%` every value. */
  lemma WildcardSearches(value: string)
    ensures ILike(value, Pattern("_")) <==> value != []
    ensures ILike(value, Pattern("%"))
  {
    var v := Lower(value);
    assert Lower(Pattern("_")) == "%" + "_%";
    LikeLeadingPercent(v, "_%");
    var p := "_%";
    assert p[0] == '_' && p[1..] == "%";
    if value != [] {
      LikeAnyRun(v[1..]);
      assert v[0..] == v;
    }
    assert Lower(Pattern("%")) == "%" + "%%";
    LikeLeadingPercent(v, "%%");
    var q := "%%";
    assert q[0] == '%' && q[1..] == "%";
    LikeAnyRun(v);
    assert v[0..] == v;
  }

  /** An escaped `%` matches only a literal percent sign. */
  lemma EscapedPercent(value: string)
    ensures ILike(value, Pattern("\\%")) <==> '%' in value
  {
    var v := Lower(value);
    assert Lower(Pattern("\\%")) == "%" + "\\%%";
    LikeLeadingPercent(v, "\\%%");
    var p := "\\%%";
    assert p[0] == '\\' && p[1] == '%' && p[2..] == "%";
    if '%' in value {
      var i :| 0 <= i < |value| && value[i] == '%';
      LikeAnyRun(v[i + 1..]);
      assert v[i..][1..] == v[i + 1..];
    }
    forall i | 0 <= i <= |v| && Like(v[i..], p) ensures '%' in value {
      assert value[i] == '%';
    }
  }

  // ---------------------------------------------------------------------------
  // What filters ask for, and what conditions say.

  predicate Satisfies(f: Filter, row: Row)
  {
    match f
    case Search(cols, term) => exists c | c in cols :: row(c).Some? && ILike(row(c).value, Pattern(term))
    case HasValue(c, present) => row(c).Some? == present
    case Equals(c, v) => row(c) == Some(v)
  }

  predicate SatisfiesAll(filters: seq<Filter>, row: Row)
  {
    forall i | 0 <= i < |filters| :: Satisfies(filters[i], row)
  }

  /** A conjunction of filters splits at any point. */
  lemma SatisfiesAllAppend(a: seq<Filter>, b: seq<Filter>, row: Row)
    ensures SatisfiesAll(a + b, row) <==> SatisfiesAll(a, row) && SatisfiesAll(b, row)
  {
    if SatisfiesAll(a, row) && SatisfiesAll(b, row) {
      forall i | 0 <= i < |a + b| ensures Satisfies((a + b)[i], row) {
        if i >= |a| {
          assert (a + b)[i] == b[i - |a|];
        }
      }
    }
    if SatisfiesAll(a + b, row) {
      forall i | 0 <= i < |b| ensures Satisfies(b[i], row) {
        assert (a + b)[|a| + i] == b[i];
      }
      forall i | 0 <= i < |a| ensures Satisfies(a[i], row) {
        assert (a + b)[i] == a[i];
      }
    }
  }

  /** Every placeholder of the condition names a parameter among the first n. */
  predicate Within(c: Condition, n: int)
  {
    match c
    case IlikeAny(_, p) => 1 <= p <= n
    case EqualsParam(_, p) => 1 <= p <= n
    case _ => true
  }

  predicate Holds(c: Condition, params: seq<Param>, row: Row)
  {
    match c
    case IlikeAny(cols, p) =>
      1 <= p <= |params| && params[p - 1].TextParam?
      && exists col | col in cols :: row(col).Some? && ILike(row(col).value, params[p - 1].text)
    case IsNotNull(col) => row(col).Some?
    case IsNull(col) => row(col).None?
    case EqualsParam(col, p) => 1 <= p <= |params| && params[p - 1].TextParam? && row(col) == Some(params[p - 1].text)
  }

  /** `'WHERE ' + whereConditions.join(' AND ')`, or no clause at all when there is no condition. */
  predicate HoldsAll(conditions: seq<Condition>, params: seq<Param>, row: Row)
  {
    forall i | 0 <= i < |conditions| :: Holds(conditions[i], params, row)
  }

  /** How many parameters the filters push: one for each except a presence test. */
  function Valued(filters: seq<Filter>): (n: nat)
    ensures n <= |filters|
  {
    if filters == [] then 0
    else Valued(filters[..|filters| - 1]) + (if filters[|filters| - 1].HasValue? then 0 else 1)
  }

  /** Parameters pushed later leave the meaning of an earlier condition alone. */
  lemma HoldsExtends(c: Condition, params: seq<Param>, more: seq<Param>, row: Row)
    requires Within(c, |params|)
    ensures Holds(c, params + more, row) == Holds(c, params, row)
  {
    match c
    case IlikeAny(_, p) => assert (params + more)[p - 1] == params[p - 1];
    case EqualsParam(_, p) => assert (params + more)[p - 1] == params[p - 1];
    case _ =>
  }


  /**
   * The WHERE builder of getDrivers, getCars, getClients and
   * getMaintenanceHistory: one condition per filter, in order; a parameter
   * and a new placeholder for every filter with a value; then limit and
   * offset pushed for the list query at `$paramIndex` and `$paramIndex + 1`.
   * The count query runs on the parameters before that push.
   */
  method BuildWhere(filters: seq<Filter>, limit: int, offset: int)
    returns (conditions: seq<Condition>, countParams: seq<Param>, listParams: seq<Param>, limitAt: int, offsetAt: int)
    ensures |conditions| == |filters| && |countParams| == Valued(filters)
    ensures forall i | 0 <= i < |conditions| :: Within(conditions[i], |countParams|)
    ensures forall row: Row :: HoldsAll(conditions, countParams, row) <==> SatisfiesAll(filters, row)
    ensures listParams == countParams + [IntParam(limit), IntParam(offset)]
    ensures limitAt == |countParams| + 1 && offsetAt == limitAt + 1 && offsetAt == |listParams|
    ensures listParams[limitAt - 1] == IntParam(limit) && listParams[offsetAt - 1] == IntParam(offset)
    ensures forall row: Row :: HoldsAll(conditions, listParams, row) <==> HoldsAll(conditions, countParams, row)
  {
    conditions, countParams := [], [];
    var paramIndex := 1;
    var i := 0;
    while i < |filters|
      invariant 0 <= i <= |filters| && |conditions| == i
      invariant paramIndex == |countParams| + 1 && |countParams| == Valued(filters[..i])
      invariant forall k | 0 <= k < i :: Within(conditions[k], |countParams|)
      invariant forall row: Row, k | 0 <= k < i :: Holds(conditions[k], countParams, row) <==> Satisfies(filters[k], row)
    {
      assert filters[..i + 1][..i] == filters[..i];
      var before := countParams;
      match filters[i] {
        case Search(cols, term) =>
          conditions := conditions + [IlikeAny(cols, paramIndex)];
          countParams := countParams + [TextParam(Pattern(term))];
          paramIndex := paramIndex + 1;
        case HasValue(col, present) =>
          conditions := conditions + [if present then IsNotNull(col) else IsNull(col)];
        case Equals(col, v) =>
          conditions := conditions + [EqualsParam(col, paramIndex)];
          countParams := countParams + [TextParam(v)];
          paramIndex := paramIndex + 1;
      }
      forall row: Row, k | 0 <= k < i ensures Holds(conditions[k], countParams, row) <==> Satisfies(filters[k], row) {
        HoldsExtends(conditions[k], before, countParams[|before|..], row);
        assert before + countParams[|before|..] == countParams;
      }
      i := i + 1;
    }
    assert filters[..i] == filters;
    listParams := countParams + [IntParam(limit), IntParam(offset)];
    limitAt, offsetAt := paramIndex, paramIndex + 1;
    forall row: Row ensures HoldsAll(conditions, listParams, row) <==> HoldsAll(conditions, countParams, row) {
      forall k | 0 <= k < |conditions| {
        HoldsExtends(conditions[k], countParams, [IntParam(limit), IntParam(offset)], row);
      }
    }
  }

  // ---------------------------------------------------------------------------
  // The UPDATE builder.

  /** A supplied field: the column and the value pushed for it. */
  datatype Change = Change(column: Column, value: Param)

  /** `column = $placeholder` in the SET list. */
  datatype Assignment = Assignment(column: Column, placeholder: int)

  /**
   * updateDriver's and updateCar's SET builder: one assignment per supplied
   * field, numbered from 1 in order, each numbering the value pushed with it;
   * the id is pushed last and `WHERE id = $paramIndex` names it.
   */
  method BuildSet(changes: seq<Change>, id: int) returns (sets: seq<Assignment>, values: seq<Param>, whereAt: int)
    ensures |sets| == |changes| && |values| == |changes| + 1
    ensures forall i | 0 <= i < |sets| :: sets[i].placeholder == i + 1
    ensures forall i | 0 <= i < |sets| :: sets[i].column == changes[i].column && values[sets[i].placeholder - 1] == changes[i].value
    ensures whereAt == |values| && values[whereAt - 1] == IntParam(id)
  {
    sets, values := [], [];
    var paramIndex := 1;
    var i := 0;
    while i < |changes|
      invariant 0 <= i <= |changes| && |sets| == i && |values| == i && paramIndex == i + 1
      invariant forall k | 0 <= k < i :: sets[k] == Assignment(changes[k].column, k + 1) && values[k] == changes[k].value
    {
      sets := sets + [Assignment(changes[i].column, paramIndex)];
      values := values + [changes[i].value];
      paramIndex := paramIndex + 1;
      i := i + 1;
    }
    values := values + [IntParam(id)];
    whereAt := paramIndex;
  }
}
