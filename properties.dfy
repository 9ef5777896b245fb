/**
 * What a call of `get_articles` promises, stated over `Run`: which requests it
 * sends and in what order, how many, and how the result is assembled from the
 * responses.
 */
module Properties {
  import opened Wrappers
  import opened Json
  import opened Payload
  import opened Perigon
  import Pagination

  function Min(a: int, b: int): int
  {
    if a <= b then a else b
  }

  // ---------------------------------------------------------------------
  // The page walk

  /** The walk asks for pages `from`, `from + 1`, ... in order, one request each, and never beyond `pages - 1`. */
  lemma {:induction false} FetchPagesRequests(fetch: Fetch, client: Client, base: Params, from: nat, pages: int)
    ensures var o := FetchPages(fetch, client, base, from, pages);
      && |o.sent| <= (if from < pages then pages - from else 0)
      && (o.result.Ok? ==> |o.sent| == if from < pages then pages - from else 0)
      && (forall i :: 0 <= i < |o.sent| ==> o.sent[i] == PageRequest(client, base, from + i))
    decreases pages - from
  {
    if from < pages && PageArticles(fetch(PageRequest(client, base, from))).Ok? {
      FetchPagesRequests(fetch, client, base, from + 1, pages);
    }
  }

  /**
   * On success every response carried articles and the result is their
   * concatenation in request order; on failure the last request is the one
   * that failed, with that error, and every earlier one succeeded.
   */
  lemma {:induction false} FetchPagesResult(fetch: Fetch, client: Client, base: Params, from: nat, pages: int)
    ensures var o := FetchPages(fetch, client, base, from, pages);
      && (o.result.Ok? ==>
            && (forall i :: 0 <= i < |o.sent| ==> PageArticles(fetch(o.sent[i])).Ok?)
            && o.result.value == Delivered(fetch, o.sent))
      && (o.result.Err? ==>
            && |o.sent| >= 1
            && PageArticles(fetch(o.sent[|o.sent| - 1])) == Err(o.result.error)
            && (forall i :: 0 <= i < |o.sent| - 1 ==> PageArticles(fetch(o.sent[i])).Ok?))
    decreases pages - from
  {
    if from < pages {
      var req := PageRequest(client, base, from);
      if PageArticles(fetch(req)).Ok? {
        FetchPagesResult(fetch, client, base, from + 1, pages);
        var rest := FetchPages(fetch, client, base, from + 1, pages);
        assert ([req] + rest.sent)[1..] == rest.sent;
      }
    }
  }

  // ---------------------------------------------------------------------
  // The whole call

  /**
   * Page `i`'s request goes to the endpoint with the API key header; its
   * `size` is the method's argument whatever the caller passed; it has no
   * `page` entry for page 0 and `page = i` otherwise; and every other
   * non-None keyword argument is carried over unchanged.
   */
  lemma PageRequestParameters(client: Client, kwargs: Params, size: int, i: nat)
    ensures var r := PageRequest(client, Outbound(kwargs, size), i);
      && r.url == Endpoint
      && r.headers == map[ApiKeyHeader := client.apiKey]
      && SizeKey in r.params && r.params[SizeKey] == Int(size)
      && (PageKey in r.params <==> i > 0)
      && (i > 0 ==> r.params[PageKey] == Int(i))
      && (forall k :: k != SizeKey && k != PageKey ==> (k in r.params <==> k in kwargs && kwargs[k] != Null))
      && (forall k :: k in r.params && k != SizeKey && k != PageKey ==> r.params[k] == kwargs[k])
  {
  }

  /**
   * A call sends at least one request, and request `i` is the request for
   * page `i`: page 0 first, then pages 1, 2, ... in ascending order, one
   * request each.
   */
  lemma RequestSequence(client: Client, paginate: bool, size: int, kwargs: Params, fetch: Fetch)
    ensures var o := Run(client, paginate, size, kwargs, fetch);
      && |o.sent| >= 1
      && (forall i :: 0 <= i < |o.sent| ==> o.sent[i] == PageRequest(client, Outbound(kwargs, size), i))
  {
    var base := Outbound(kwargs, size);
    var first := PageRequest(client, base, 0);
    var o := Run(client, paginate, size, kwargs, fetch);
    var page := PageArticles(fetch(first));
    if page.Ok? {
      var total := PageTotal(paginate, size, fetch(first).value.numResults);
      if total.Ok? {
        var rest := FetchPages(fetch, client, base, 1, total.value);
        assert o.sent == [first] + rest.sent;
        FetchPagesRequests(fetch, client, base, 1, total.value);
        forall i | 0 <= i < |o.sent|
          ensures o.sent[i] == PageRequest(client, base, i)
        {
          if i > 0 {
            assert o.sent[i] == rest.sent[i - 1];
          }
        }
      }
    }
  }

  /**
   * How many requests a call makes: one when it does not paginate, when the
   * first page already covers `numResults`, or when `size` is negative;
   * otherwise `ceil(numResults / size)`, or fewer when a request fails.
   */
  lemma RequestCount(client: Client, paginate: bool, size: int, kwargs: Params, fetch: Fetch)
    ensures var o := Run(client, paginate, size, kwargs, fetch);
      var first := fetch(PageRequest(client, Outbound(kwargs, size), 0));
      && (!paginate ==> |o.sent| == 1)
      && (size < 0 ==> |o.sent| == 1)
      && (first.Some? && first.value.numResults.Some? && first.value.numResults.value <= size ==> |o.sent| == 1)
      && (paginate && 0 < size && first.Some? && first.value.numResults.Some? && first.value.numResults.value > size ==>
            && |o.sent| <= Pagination.CeilDiv(first.value.numResults.value, size)
            && (o.result.Ok? ==> |o.sent| == Pagination.CeilDiv(first.value.numResults.value, size)))
  {
    var base := Outbound(kwargs, size);
    var first := PageRequest(client, base, 0);
    if PageArticles(fetch(first)).Ok? {
      var total := PageTotal(paginate, size, fetch(first).value.numResults);
      if total.Ok? {
        FetchPagesRequests(fetch, client, base, 1, total.value);
        if size < 0 && paginate && fetch(first).value.numResults.value > size {
          Pagination.NegativeSizeOnePage(fetch(first).value.numResults.value, size);
        }
      }
    }
  }

  /**
   * A successful call returns the articles of every response it received,
   * concatenated in request order, with nothing dropped, merged or reordered.
   */
  lemma ResultIsConcatenation(client: Client, paginate: bool, size: int, kwargs: Params, fetch: Fetch)
    ensures var o := Run(client, paginate, size, kwargs, fetch);
      o.result.Ok? ==>
        && (forall i :: 0 <= i < |o.sent| ==> PageArticles(fetch(o.sent[i])).Ok?)
        && o.result.value == Delivered(fetch, o.sent)
  {
    var base := Outbound(kwargs, size);
    var first := PageRequest(client, base, 0);
    var o := Run(client, paginate, size, kwargs, fetch);
    if PageArticles(fetch(first)).Ok? {
      var total := PageTotal(paginate, size, fetch(first).value.numResults);
      if total.Ok? {
        FetchPagesResult(fetch, client, base, 1, total.value);
        var rest := FetchPages(fetch, client, base, 1, total.value);
        assert o.sent[1..] == rest.sent;
      }
    }
  }

  /**
   * A failed call stops at the request that failed: every earlier response
   * carried articles, and the error is that of the last response, or, after a
   * single request, a missing `numResults` or a zero page size.
   */
  lemma FailureStopsTheCall(client: Client, paginate: bool, size: int, kwargs: Params, fetch: Fetch)
    ensures var o := Run(client, paginate, size, kwargs, fetch);
      o.result.Err? ==>
        && |o.sent| >= 1
        && (forall i :: 0 <= i < |o.sent| - 1 ==> PageArticles(fetch(o.sent[i])).Ok?)
        && (|| PageArticles(fetch(o.sent[|o.sent| - 1])) == Err(o.result.error)
            || (&& |o.sent| == 1
                && PageArticles(fetch(o.sent[0])).Ok?
                && (o.result.error == MissingNumResults || o.result.error == ZeroDivision)))
  {
    var base := Outbound(kwargs, size);
    var first := PageRequest(client, base, 0);
    var o := Run(client, paginate, size, kwargs, fetch);
    var page := PageArticles(fetch(first));
    if page.Ok? {
      var total := PageTotal(paginate, size, fetch(first).value.numResults);
      if total.Ok? {
        var rest := FetchPages(fetch, client, base, 1, total.value);
        assert o == Outcome([first] + rest.sent, Prepend(page.value, rest.result));
        if rest.result.Err? {
          FetchPagesResult(fetch, client, base, 1, total.value);
          assert o.sent[|o.sent| - 1] == rest.sent[|rest.sent| - 1];
          forall i | 0 <= i < |o.sent| - 1
            ensures PageArticles(fetch(o.sent[i])).Ok?
          {
            if i > 0 {
              assert o.sent[i] == rest.sent[i - 1];
            }
          }
        }
      }
    }
  }

  /** The page walk fails only because a response was None or had no `articles`. */
  lemma {:induction false} FetchPagesErrors(fetch: Fetch, client: Client, base: Params, from: nat, pages: int)
    ensures var o := FetchPages(fetch, client, base, from, pages);
      o.result.Err? ==> o.result.error == NoResponse || o.result.error == MissingArticles
    decreases pages - from
  {
    if from < pages && PageArticles(fetch(PageRequest(client, base, from))).Ok? {
      FetchPagesErrors(fetch, client, base, from + 1, pages);
    }
  }

  /**
   * The two errors of the page plan and their causes: a missing `numResults`
   * exactly when the client paginates and the first page, which had its
   * articles, lacks the count; a division by zero exactly when it paginates
   * with `size` 0 and a positive count.
   */
  lemma ErrorCauses(client: Client, paginate: bool, size: int, kwargs: Params, fetch: Fetch)
    ensures var o := Run(client, paginate, size, kwargs, fetch);
      var first := fetch(PageRequest(client, Outbound(kwargs, size), 0));
      && (o.result == Err(MissingNumResults) <==>
            paginate && first.Some? && first.value.articles.Some? && first.value.numResults.None?)
      && (o.result == Err(ZeroDivision) <==>
            && paginate && first.Some? && first.value.articles.Some? && first.value.numResults.Some?
            && size == 0 && first.value.numResults.value > 0)
  {
    var base := Outbound(kwargs, size);
    var first := PageRequest(client, base, 0);
    if PageArticles(fetch(first)).Ok? {
      var total := PageTotal(paginate, size, fetch(first).value.numResults);
      if total.Ok? {
        FetchPagesErrors(fetch, client, base, 1, total.value);
      }
    }
  }

  /**
   * A request that the helper answers with None aborts the call: it raises
   * and returns no partial list; and the call fails for that reason only
   * when some response was None.
   */
  lemma NoResponseAborts(client: Client, paginate: bool, size: int, kwargs: Params, fetch: Fetch)
    ensures var o := Run(client, paginate, size, kwargs, fetch);
      o.result == Err(NoResponse) <==> exists i :: 0 <= i < |o.sent| && fetch(o.sent[i]).None?
  {
    var o := Run(client, paginate, size, kwargs, fetch);
    ResultIsConcatenation(client, paginate, size, kwargs, fetch);
    FailureStopsTheCall(client, paginate, size, kwargs, fetch);
    if o.result == Err(NoResponse) {
      assert fetch(o.sent[|o.sent| - 1]).None?;
    }
    if i :| 0 <= i < |o.sent| && fetch(o.sent[i]).None? {
      assert PageArticles(fetch(o.sent[i])).Err?;
      assert i == |o.sent| - 1;
    }
  }

  /** Without pagination exactly one request is made and the result is that page's articles. */
  lemma WithoutPaginationFirstPageOnly(client: Client, size: int, kwargs: Params, fetch: Fetch)
    ensures var o := Run(client, false, size, kwargs, fetch);
      && o.sent == [PageRequest(client, Outbound(kwargs, size), 0)]
      && o.result == PageArticles(fetch(o.sent[0]))
  {
    var o := Run(client, false, size, kwargs, fetch);
    var base := Outbound(kwargs, size);
    var page := PageArticles(fetch(PageRequest(client, base, 0)));
    if page.Ok? {
      assert FetchPages(fetch, client, base, 1, 1) == Outcome([], Ok([]));
      assert o.sent == [PageRequest(client, base, 0)] + [];
      assert page.value + [] == page.value;
    }
  }

  // ---------------------------------------------------------------------
  // A server that honours its own count

  /**
   * The server holds `n` matches and serves them `size` to a page: page `i`
   * holds `min(size, n - i * size)` articles, and the first page reports `n`.
   */
  ghost predicate ServesCount(fetch: Fetch, client: Client, base: Params, n: int, size: int)
  {
    && fetch(PageRequest(client, base, 0)).Some?
    && fetch(PageRequest(client, base, 0)).value.numResults == Some(n)
    && forall i: nat :: (i == 0 || i * size < n) ==>
         var r := fetch(PageRequest(client, base, i));
         r.Some? && r.value.articles.Some? && |r.value.articles.value| == PageLength(n, size, i)
  }

  /** How many of `n` results page `i` holds at `size` results a page. */
  function PageLength(n: int, size: int, i: nat): int
  {
    Min(size, n - i * size)
  }

  lemma {:induction false} FetchPagesLength(fetch: Fetch, client: Client, base: Params, n: int, size: int, from: nat, pages: int)
    requires 0 < size && ServesCount(fetch, client, base, n, size)
    requires pages >= 1 && (pages - 1) * size < n <= pages * size
    requires 1 <= from <= pages
    ensures var o := FetchPages(fetch, client, base, from, pages);
      && o.result.Ok?
      && |o.result.value| == (if from < pages then n - from * size else 0)
    decreases pages - from
  {
    if from < pages {
      Pagination.PageFill(n, size, pages, from);
      FetchPagesLength(fetch, client, base, n, size, from + 1, pages);
      assert (from + 1) * size == from * size + size;
    }
  }

  /**
   * Against such a server a call returns `min(size, n)` articles without
   * pagination and all `n` with it: exactly `size` records when the query
   * matches at least `size`, and more than `size` when it matches more and
   * the client paginates.
   */
  lemma ConsistentServerDeliversAll(client: Client, paginate: bool, size: int, kwargs: Params, fetch: Fetch, n: int)
    requires 0 < size && 0 <= n
    requires ServesCount(fetch, client, Outbound(kwargs, size), n, size)
    ensures var o := Run(client, paginate, size, kwargs, fetch);
      && o.result.Ok?
      && (!paginate ==> |o.result.value| == Min(size, n))
      && (paginate ==> |o.result.value| == n)
  {
    var base := Outbound(kwargs, size);
    var first := fetch(PageRequest(client, base, 0));
    assert |first.value.articles.value| == Min(size, n);
    if paginate && n > size {
      var pages := Pagination.CeilDiv(n, size);
      Pagination.PagesCoverResults(n, size);
      FetchPagesLength(fetch, client, base, n, size, 1, pages);
    } else {
      assert FetchPages(fetch, client, base, 1, 1) == Outcome([], Ok([]));
    }
  }
}
