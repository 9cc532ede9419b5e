/** Page arithmetic of the listing endpoints: the `page` and `limit` query values,
    the number of records skipped, and the page count reported back. */
module Pagination {
  import opened Common

  /** `parseInt(raw) || fallback`: a value that did not parse (`None`, standing
      for `NaN`) or parsed to zero gives the fallback. */
  function OrDefault(parsed: Option<int>, fallback: int): (v: int)
    ensures parsed.Some? && parsed.value != 0 ==> v == parsed.value
    ensures parsed.None? || parsed.value == 0 ==> v == fallback
  {
    if parsed.Some? && parsed.value != 0 then parsed.value else fallback
  }

  datatype Page = Page(page: int, limit: int, skip: int)

  /** The page, the limit (never zero) and `skip = (page - 1) * limit`. */
  function PageOf(pageParam: Option<int>, limitParam: Option<int>): (p: Page)
    ensures p.limit != 0 && p.page != 0
    ensures p.page == OrDefault(pageParam, 1) && p.limit == OrDefault(limitParam, 10)
    ensures p.skip == (p.page - 1) * p.limit
    ensures pageParam.None? && limitParam.None? ==> p == Page(1, 10, 0)
  {
    var page := OrDefault(pageParam, 1);
    var limit := OrDefault(limitParam, 10);
    Page(page, limit, (page - 1) * limit)
  }

  /** `Math.ceil(total / limit)` on exact quotients. */
  function PageCount(total: nat, limit: int): (n: int)
    requires limit != 0
    ensures (n - 1) as real < total as real / limit as real <= n as real
  {
    if limit > 0 then (total + limit - 1) / limit
    else -(total / -limit)
  }

  /** The records a page shows: those from position `skip` up to `limit` of them. */
  function Window<T>(records: seq<T>, p: Page): (w: seq<T>)
    requires p.skip >= 0 && p.limit >= 1
    ensures |w| <= p.limit
    ensures forall k :: 0 <= k < |w| ==> p.skip + k < |records| && w[k] == records[p.skip + k]
    ensures p.skip + p.limit <= |records| ==> |w| == p.limit
    ensures p.skip <= |records| ==> |w| == if p.skip + p.limit <= |records| then p.limit else |records| - p.skip
  {
    if p.skip >= |records| then []
    else if p.skip + p.limit <= |records| then records[p.skip..p.skip + p.limit]
    else records[p.skip..]
  }

  /** With a positive limit, record `k` of `total` lies on exactly one page, and that
      page is among the `PageCount` pages reported. */
  lemma {:induction false} ExactlyOnePage(total: nat, limit: int, k: nat)
    requires limit >= 1 && k < total
    ensures var page := k / limit + 1;
            && 1 <= page <= PageCount(total, limit)
            && (page - 1) * limit <= k < page * limit
    ensures forall page :: (page - 1) * limit <= k < page * limit ==> page == k / limit + 1
  {
    var q := k / limit;
    assert q * limit <= k < (q + 1) * limit;
    assert (q + 1) * limit <= total + limit - 1;
    DivMonotone(q + 1, total + limit - 1, limit);
    forall page | (page - 1) * limit <= k < page * limit
      ensures page == q + 1
    {
      if page < q + 1 {
        MulMonotone(page, q, limit);
      } else if page > q + 1 {
        MulMonotone(q + 1, page - 1, limit);
      }
    }
  }

  lemma MulMonotone(a: int, b: int, c: nat)
    requires a <= b
    ensures a * c <= b * c
  {
  }

  /** If `a` whole limits fit in `n`, then `n / limit` is at least `a`. */
  lemma DivMonotone(a: int, n: nat, limit: int)
    requires limit >= 1 && a * limit <= n
    ensures a <= n / limit
  {
    if a > n / limit {
      assert (n / limit + 1) * limit <= a * limit by { MulMonotone(n / limit + 1, a, limit); }
    }
  }

  /** What a listing endpoint returns: the page's records and the pagination
      block. */
  datatype Listing<T> = Listing(records: seq<T>, page: int, limit: int, total: nat, pages: int)

  /** One page of a listing over `all`, already in the endpoint's sort order. The
      database refuses a negative skip (`None`) and reads a negative limit as its
      absolute value. */
  function ListPage<T>(all: seq<T>, pageParam: Option<int>, limitParam: Option<int>): (r: Option<Listing<T>>)
    ensures var p := PageOf(pageParam, limitParam);
            && (r.None? <==> p.skip < 0)
            && (r.Some? ==> && r.value.page == p.page && r.value.limit == p.limit
                            && r.value.total == |all| && r.value.pages == PageCount(|all|, p.limit)
                            && |r.value.records| <= (if p.limit < 0 then -p.limit else p.limit)
                            && forall k :: 0 <= k < |r.value.records| ==>
                                 p.skip + k < |all| && r.value.records[k] == all[p.skip + k])
  {
    var p := PageOf(pageParam, limitParam);
    if p.skip < 0 then None
    else
      var size := if p.limit < 0 then -p.limit else p.limit;
      Some(Listing(Window(all, Page(p.page, size, p.skip)), p.page, p.limit, |all|, PageCount(|all|, p.limit)))
  }

  /** With the default limit, page `n` of a long enough list holds exactly records
      `10 * (n - 1)` up to `10 * n`. */
  lemma DefaultPageIsFull<T>(all: seq<T>, n: int)
    requires n >= 1 && 10 * n <= |all|
    ensures var r := ListPage(all, Some(n), None);
            r.Some? && r.value.records == all[10 * (n - 1)..10 * n]
  {
    var r := ListPage(all, Some(n), None);
    assert PageOf(Some(n), None) == Page(n, 10, (n - 1) * 10);
    assert |r.value.records| == 10;
  }
  /** Asking for the page that `ExactlyOnePage` names finds record `k` there, at
      position `k % limit`, and that page is one of the pages reported. */
  lemma RecordOnItsPage<T>(all: seq<T>, limit: int, k: nat)
    requires limit >= 1 && k < |all|
    ensures var page := k / limit + 1;
            var r := ListPage(all, Some(page), Some(limit));
            && r.Some? && 1 <= page <= r.value.pages
            && k % limit < |r.value.records| && r.value.records[k % limit] == all[k]
  {
    var page := k / limit + 1;
    ExactlyOnePage(|all|, limit, k);
    var p := PageOf(Some(page), Some(limit));
    assert p == Page(page, limit, (page - 1) * limit);
    assert p.skip + k % limit == k;
    var w := Window(all, Page(page, limit, p.skip));
    assert p.skip <= |all|;
    assert k % limit < |w|;
  }
}
