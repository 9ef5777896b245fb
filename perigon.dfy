/**
 * `PerigonAPI.get_articles`: build the query parameters, fetch the first page,
 * and when asked to paginate, fetch the remaining pages in ascending order,
 * concatenating the articles of every page.
 *
 * The request helper `_get_request` is an oracle `fetch` from a request to an
 * optional decoded document; `None` is the helper's implicit return after it
 * swallowed a `RequestException`.
 */
module Perigon {
  import opened Wrappers
  import opened Json
  import opened Payload
  import Pagination

  const Endpoint: string := "https://api.goperigon.com/v1/all"
  const ApiKeyHeader: string := "x-api-key"

  /** The client's configuration, fixed at construction. */
  datatype Client = Client(apiKey: string)

  /** One GET request handed to the request helper. */
  datatype Request = Request(url: string, headers: map<string, string>, params: Params)

  /** The request helper: the decoded response, or None when the request failed. */
  type Fetch = Request -> Option<Document>

  /** Why a call of `get_articles` raises instead of returning a list. */
  datatype Error =
    | NoResponse         // the helper returned None and the client subscripts it (TypeError)
    | MissingArticles    // the document has no `articles` field (KeyError)
    | MissingNumResults  // the first document has no `numResults` field (KeyError)
    | ZeroDivision       // `size` is 0 while `numResults` exceeds it (ZeroDivisionError)

  /** The requests put on the wire, in order, and what the call returns or raises. */
  datatype Outcome = Outcome(sent: seq<Request>, result: Result<seq<Record>, Error>)

  function Headers(client: Client): map<string, string>
  {
    map[ApiKeyHeader := client.apiKey]
  }

  /** The parameters of page `page`: page 0 carries no `page` entry. */
  function PageParams(base: Params, page: nat): Params
  {
    if page == 0 then base else base[PageKey := Int(page)]
  }

  function PageRequest(client: Client, base: Params, page: nat): Request
  {
    Request(Endpoint, Headers(client), PageParams(base, page))
  }

  /** `response['articles']`, or the exception that subscripting raises. */
  function PageArticles(response: Option<Document>): Result<seq<Record>, Error>
  {
    match response
    case None => Err(NoResponse)
    case Some(doc) => if doc.articles.Some? then Ok(doc.articles.value) else Err(MissingArticles)
  }

  /**
   * The `pages` bound of the loop `for page in range(1, pages)`; 1 when the
   * client does not paginate.
   */
  function PageTotal(paginate: bool, size: int, numResults: Option<int>): (r: Result<int, Error>)
    ensures r == Err(MissingNumResults) <==> paginate && numResults.None?
    ensures r == Err(ZeroDivision) <==> paginate && numResults.Some? && size == 0 && numResults.value > 0
    ensures r.Err? ==> r.error == MissingNumResults || r.error == ZeroDivision
    ensures r.Ok? && r.value > 1 <==> paginate && numResults.Some? && 0 < size < numResults.value
  {
    if !paginate then Ok(1)
    else if numResults.None? then Err(MissingNumResults)
    else if numResults.value <= size then Ok(1)
    else if size == 0 then Err(ZeroDivision)
    else
      var n := numResults.value;
      if size > 0 then Pagination.PagesCoverResults(n, size); Ok(Pagination.CeilDiv(n, size))
      else Pagination.NegativeSizeOnePage(n, size); Ok(Pagination.CeilDiv(n, size))
  }

  function Prepend(xs: seq<Record>, r: Result<seq<Record>, Error>): Result<seq<Record>, Error>
  {
    match r
    case Ok(ys) => Ok(xs + ys)
    case Err(e) => Err(e)
  }

  lemma PrependTwice(xs: seq<Record>, ys: seq<Record>, r: Result<seq<Record>, Error>)
    ensures Prepend(xs, Prepend(ys, r)) == Prepend(xs + ys, r)
  {
    if r.Ok? {
      assert xs + (ys + r.value) == (xs + ys) + r.value;
    }
  }

  /** Pages `from` up to `pages - 1`, fetched in ascending order; the first failure ends the walk. */
  function FetchPages(fetch: Fetch, client: Client, base: Params, from: nat, pages: int): Outcome
    decreases pages - from
  {
    if from >= pages then Outcome([], Ok([]))
    else
      var req := PageRequest(client, base, from);
      match PageArticles(fetch(req))
      case Err(e) => Outcome([req], Err(e))
      case Ok(articles) =>
        var rest := FetchPages(fetch, client, base, from + 1, pages);
        Outcome([req] + rest.sent, Prepend(articles, rest.result))
  }

  /** What `get_articles(paginate, size, **kwargs)` sends and returns. */
  function Run(client: Client, paginate: bool, size: int, kwargs: Params, fetch: Fetch): Outcome
  {
    var base := Outbound(kwargs, size);
    var first := PageRequest(client, base, 0);
    match PageArticles(fetch(first))
    case Err(e) => Outcome([first], Err(e))
    case Ok(articles) =>
      match PageTotal(paginate, size, fetch(first).value.numResults)
      case Err(e) => Outcome([first], Err(e))
      case Ok(pages) =>
        var rest := FetchPages(fetch, client, base, 1, pages);
        Outcome([first] + rest.sent, Prepend(articles, rest.result))
  }

  /** The articles of the given responses, concatenated in order. */
  function Delivered(fetch: Fetch, sent: seq<Request>): seq<Record>
  {
    if sent == [] then []
    else
      var page := PageArticles(fetch(sent[0]));
      (if page.Ok? then page.value else []) + Delivered(fetch, sent[1..])
  }

  /**
   * `get_articles`: the keyword mapping and the payload are updated in place,
   * the result list grows page by page. Besides the result, the method gives
   * the requests it sent, in order.
   */
  method GetArticles(client: Client, paginate: bool, size: int, kwargs: Params, fetch: Fetch)
    returns (result: Result<seq<Record>, Error>, sent: seq<Request>)
    ensures Outcome(sent, result) == Run(client, paginate, size, kwargs, fetch)
  {
    var kw := kwargs;
    if SizeKey in kw {
      kw := kw[SizeKey := Null];
    }
    if PageKey in kw {
      kw := kw[PageKey := Null];
    }
    var headers := map[ApiKeyHeader := client.apiKey];
    var payload := map k | k in kw && kw[k] != Null :: kw[k];
    payload := payload[SizeKey := Int(size)];
    assert payload == Outbound(kwargs, size);

    var results: seq<Record> := [];
    var request := Request(Endpoint, headers, payload);
    assert request == PageRequest(client, payload, 0);
    sent := [request];
    var initial := fetch(request);
    if initial.None? {
      return Err(NoResponse), sent;
    }
    if initial.value.articles.None? {
      return Err(MissingArticles), sent;
    }
    results := results + initial.value.articles.value;
    assert results == initial.value.articles.value;

    var pages := 1;
    if paginate {
      if initial.value.numResults.None? {
        return Err(MissingNumResults), sent;
      }
      var total := initial.value.numResults.value;
      if total > size {
        if size == 0 {
          return Err(ZeroDivision), sent;
        }
        pages := Pagination.CeilDiv(total, size);
      }
    }
    assert PageTotal(paginate, size, initial.value.numResults) == Ok(pages);
    result, sent := Paginate(client, headers, payload, pages, fetch, results, sent);
  }

  /**
   * The loop `for page in range(1, pages)`: set the `page` parameter, fetch,
   * and extend `results` with the page's articles. `results` and `sent` hold
   * what the first request produced.
   */
  method Paginate(client: Client, headers: map<string, string>, base: Params, pages: int, fetch: Fetch,
                  results: seq<Record>, sent: seq<Request>)
    returns (result: Result<seq<Record>, Error>, sentAll: seq<Request>)
    requires headers == Headers(client)
    ensures var rest := FetchPages(fetch, client, base, 1, pages);
      sentAll == sent + rest.sent && result == Prepend(results, rest.result)
  {
    var payload := base;
    var collected := results;
    sentAll := sent;
    var page := 1;
    while page < pages
      invariant 1 <= page
      invariant payload == PageParams(base, page - 1)
      invariant var rest := FetchPages(fetch, client, base, page, pages);
        var all := FetchPages(fetch, client, base, 1, pages);
        sent + all.sent == sentAll + rest.sent && Prepend(results, all.result) == Prepend(collected, rest.result)
      decreases pages - page
    {
      ghost var sentBefore, collectedBefore := sentAll, collected;
      payload := payload[PageKey := Int(page)];
      var request := Request(Endpoint, headers, payload);
      assert request == PageRequest(client, base, page);
      sentAll := sentAll + [request];
      var response := fetch(request);
      if response.None? {
        assert FetchPages(fetch, client, base, page, pages) == Outcome([request], Err(NoResponse));
        return Err(NoResponse), sentAll;
      }
      if response.value.articles.None? {
        assert FetchPages(fetch, client, base, page, pages) == Outcome([request], Err(MissingArticles));
        return Err(MissingArticles), sentAll;
      }
      collected := collected + response.value.articles.value;
      ghost var rest := FetchPages(fetch, client, base, page + 1, pages);
      assert FetchPages(fetch, client, base, page, pages)
        == Outcome([request] + rest.sent, Prepend(response.value.articles.value, rest.result));
      assert sentBefore + ([request] + rest.sent) == sentAll + rest.sent;
      PrependTwice(collectedBefore, response.value.articles.value, rest.result);
      page := page + 1;
    }
    assert FetchPages(fetch, client, base, page, pages) == Outcome([], Ok([]));
    assert sentAll + [] == sentAll && collected + [] == collected;
    result := Ok(collected);
  }
}
