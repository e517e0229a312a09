/**
 * The pagination every list handler shares: `offset = (page - 1) * limit`,
 * the rows `LIMIT limit OFFSET offset` returns from the ordered result, and
 * `total_pages: Math.ceil(total / limit)`.
 */
module Pagination {
  import opened Common

  function Offset(page: int, limit: int): int
  {
    (page - 1) * limit
  }

  /** A page and limit whose `LIMIT limit OFFSET (page - 1) * limit` PostgreSQL runs: neither value negative. */
  predicate Accepted(page: int, limit: int)
  {
    limit >= 0 && Offset(page, limit) >= 0
  }

  /** The offset is negative exactly when the page is before 1 with a positive limit, or after 1 with a negative one. */
  lemma OffsetSign(page: int, limit: int)
    ensures Offset(page, limit) < 0 <==> (page < 1 && limit >= 1) || (page > 1 && limit < 0)
  {
    if page < 1 && limit >= 1 {
      MulMonotone(page - 1, -1, limit);
    } else if page > 1 && limit < 0 {
      MulMonotone(1, page - 1, -limit);
      assert (page - 1) * limit == -((page - 1) * -limit);
    } else if page >= 1 && limit >= 0 {
      MulMonotone(0, page - 1, limit);
    } else if page <= 1 && limit < 0 {
      MulMonotone(page - 1, 0, -limit);
      assert (page - 1) * limit == -((page - 1) * -limit);
    }
  }

  /** PostgreSQL runs the page query exactly for a limit of 0, or a positive limit with a page from 1 up. */
  lemma AcceptedIff(page: int, limit: int)
    ensures Accepted(page, limit) <==> limit == 0 || (limit >= 1 && page >= 1)
  {
    OffsetSign(page, limit);
  }

  const OffsetNegativeCode := "2201X"
  const OffsetNegativeMessage := "OFFSET must not be negative"
  const LimitNegativeCode := "2201W"
  const LimitNegativeMessage := "LIMIT must not be negative"

  /**
   * What PostgreSQL says to a query's `LIMIT limit OFFSET (page - 1) * limit`:
   * it checks the offset first, then the limit.
   */
  function PagingViolation(page: int, limit: int): (v: Option<Violation>)
    ensures v.None? <==> Accepted(page, limit)
    ensures v.None? <==> limit == 0 || (limit >= 1 && page >= 1)
    ensures v == Some(Violation(OffsetNegativeCode, OffsetNegativeMessage)) <==> (page < 1 && limit >= 1) || (page > 1 && limit < 0)
    ensures v == Some(Violation(LimitNegativeCode, LimitNegativeMessage)) <==> page <= 1 && limit < 0
  {
    OffsetSign(page, limit);
    AcceptedIff(page, limit);
    if Offset(page, limit) < 0 then Some(Violation(OffsetNegativeCode, OffsetNegativeMessage))
    else if limit < 0 then Some(Violation(LimitNegativeCode, LimitNegativeMessage))
    else None
  }

  /** Math.ceil(total / limit): the fewest pages of `limit` rows that hold `total` rows. */
  function TotalPages(total: nat, limit: int): (pages: nat)
    requires limit >= 1
    ensures pages * limit >= total
    ensures pages > 0 ==> (pages - 1) * limit < total
    ensures pages == 0 <==> total == 0
    decreases total
  {
    if total == 0 then 0
    else if total <= limit then 1
    else
      var rest := TotalPages(total - limit, limit);
      assert (rest + 1) * limit == rest * limit + limit;
      rest + 1
  }

  function Min(a: int, b: int): int
  {
    if a <= b then a else b
  }

  /** How many rows `LIMIT limit OFFSET (page - 1) * limit` yields out of `total`. */
  function RowsOnPage(total: nat, page: int, limit: int): nat
    requires Accepted(page, limit)
  {
    var off := Offset(page, limit);
    if off >= total then 0 else Min(limit, total - off)
  }

  /** The rows a page holds: a contiguous run of the ordered result, starting at the offset. */
  function Page<T>(rows: seq<T>, page: int, limit: int): (window: seq<T>)
    requires Accepted(page, limit)
    ensures |window| == RowsOnPage(|rows|, page, limit)
    ensures forall i | 0 <= i < |window| :: Offset(page, limit) + i < |rows| && window[i] == rows[Offset(page, limit) + i]
  {
    var lo := Min(Offset(page, limit), |rows|);
    var hi := Min(Offset(page, limit) + limit, |rows|);
    rows[lo..hi]
  }

  lemma {:induction false} MulMonotone(a: int, b: int, c: int)
    requires a <= b && c >= 0
    ensures a * c <= b * c
    decreases b - a
  {
    if a < b {
      MulMonotone(a + 1, b, c);
      assert (a + 1) * c == a * c + c;
    }
  }

  lemma DivMod(i: int, limit: int)
    requires limit >= 1
    ensures i == (i / limit) * limit + i % limit && 0 <= i % limit < limit
  {
  }

  /** A page has rows exactly when its number is at most total_pages. */
  lemma PageNonEmptyIff(total: nat, page: int, limit: int)
    requires page >= 1 && limit >= 1
    ensures Accepted(page, limit)
    ensures RowsOnPage(total, page, limit) > 0 <==> page <= TotalPages(total, limit)
  {
    AcceptedIff(page, limit);
    var pages := TotalPages(total, limit);
    var off := Offset(page, limit);
    assert off == (page - 1) * limit;
    if page <= pages {
      MulMonotone(page - 1, pages - 1, limit);
      assert off < total;
    } else {
      MulMonotone(pages, page - 1, limit);
      assert off >= total;
    }
  }

  /**
   * Every row of the result appears, exactly where expected, on page
   * i / limit + 1, and that page is one of the total_pages: paging through
   * 1..total_pages visits the whole result.
   */
  lemma RowOnItsPage<T>(rows: seq<T>, limit: int, i: int)
    requires limit >= 1 && 0 <= i < |rows|
    ensures 1 <= i / limit + 1 <= TotalPages(|rows|, limit)
    ensures Accepted(i / limit + 1, limit)
    ensures i % limit < |Page(rows, i / limit + 1, limit)|
    ensures Page(rows, i / limit + 1, limit)[i % limit] == rows[i]
  {
    var q, r := i / limit, i % limit;
    DivMod(i, limit);
    var page := q + 1;
    assert Offset(page, limit) == q * limit;
    assert RowsOnPage(|rows|, page, limit) > r;
    PageNonEmptyIff(|rows|, page, limit);
  }

  predicate Decreasing(s: seq<int>)
  {
    forall i, j | 0 <= i < j < |s| :: s[i] > s[j]
  }

  /** A strictly decreasing sequence has no repeats, so it is as long as the set of its elements. */
  lemma {:induction false} DecreasingCard(s: seq<int>)
    requires Decreasing(s)
    ensures |set x | x in s| == |s|
  {
    if s != [] {
      var tail := s[1..];
      DecreasingCard(tail);
      assert (set x | x in s) == {s[0]} + (set x | x in tail);
      assert s[0] !in (set x | x in tail);
    }
  }

  /**
   * The keys of a table in `ORDER BY id DESC` order: every key once, the
   * largest first.
   */
  method DescendingKeys(keys: set<int>, bound: int) returns (s: seq<int>)
    requires forall k | k in keys :: 1 <= k < bound
    ensures Decreasing(s)
    ensures forall x :: x in s <==> x in keys
    ensures |s| == |keys|
  {
    s := [];
    var i := bound - 1;
    while i >= 1
      invariant 0 <= i < bound || (i == bound - 1 && bound <= 0)
      invariant Decreasing(s)
      invariant forall x :: x in s <==> x in keys && x > i
      invariant forall k | 0 <= k < |s| :: s[k] > i
      decreases i
    {
      if i in keys {
        s := s + [i];
      }
      i := i - 1;
    }
    DecreasingCard(s);
    assert (set x | x in s) == keys;
  }

  /** The keys of a table, listed once each in `ORDER BY id DESC` order. */
  ghost predicate ListsDescending(s: seq<int>, keys: set<int>)
  {
    Decreasing(s) && forall x :: x in s <==> x in keys
  }

  /** A page of a decreasing sequence is decreasing and holds only its elements. */
  lemma PageOfDecreasing(s: seq<int>, page: int, limit: int)
    requires Decreasing(s) && Accepted(page, limit)
    ensures Decreasing(Page(s, page, limit))
    ensures forall x | x in Page(s, page, limit) :: x in s
  {
    var w := Page(s, page, limit);
    var off := Offset(page, limit);
    forall i, j | 0 <= i < j < |w| ensures w[i] > w[j] {
      assert w[i] == s[off + i] && w[j] == s[off + j];
    }
    forall x | x in w ensures x in s {
      var i :| 0 <= i < |w| && w[i] == x;
      assert w[i] == s[off + i];
    }
  }

  /**
   * `total_pages: Math.ceil(total / limit)` as JSON carries it: a limit of 0
   * divides by zero, and the Infinity or NaN that gives is sent as null.
   */
  function JsonPages(total: nat, limit: int): (pages: Option<nat>)
    requires limit >= 0
    ensures pages.None? <==> limit == 0
    ensures pages.Some? ==> pages.value * limit >= total && (pages.value > 0 ==> (pages.value - 1) * limit < total)
  {
    if limit == 0 then None else Some(TotalPages(total, limit))
  }

  /**
   * A list handler's two queries: `SELECT COUNT(*) ... WHERE` gives the total,
   * and the same WHERE with `ORDER BY id DESC LIMIT limit OFFSET offset`
   * gives the page.
   */
  method ListPage(keys: set<int>, bound: int, page: int, limit: int) returns (rows: seq<int>, total: nat, pages: Option<nat>)
    requires forall k | k in keys :: 1 <= k < bound
    requires Accepted(page, limit)
    ensures total == |keys| && pages == JsonPages(total, limit)
    ensures exists ordered :: ListsDescending(ordered, keys) && rows == Page(ordered, page, limit)
    ensures Decreasing(rows) && forall x | x in rows :: x in keys
    ensures |rows| == RowsOnPage(total, page, limit)
    ensures limit == 0 ==> rows == []
  {
    var ordered := DescendingKeys(keys, bound);
    rows := Page(ordered, page, limit);
    total := |ordered|;
    pages := JsonPages(total, limit);
    assert ListsDescending(ordered, keys);
    PageOfDecreasing(ordered, page, limit);
  }
}
