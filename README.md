# perigon_news_wrapper: the article query of `PerigonAPI`, in Dafny

This project models `PerigonAPI.get_articles`, the one operation of a small
client for the Perigon news-search API. A call does three things:

1. **It builds the query parameters.** A `size` or `page` entry among the
   caller's keyword arguments is set to None. Every None-valued entry is then
   dropped, and `size` is set to the method's own argument.
2. **It fetches pages.** The first request carries no `page` parameter. When
   `paginate` is true and the first response's `numResults` exceeds `size`,
   the call computes `pages = ceil(numResults / size)`. It then requests pages
   `1 .. pages - 1` in ascending order by setting `page` in the same payload.
3. **It returns the articles.** The result is the `articles` of every response,
   concatenated in request order. If any response cannot be read, the call
   raises and nothing is returned.

The request helper `_get_request` is an oracle `fetch: Request -> Option<Document>`.
`None` stands for the helper's implicit return after it caught a
`RequestException`. A `Document` keeps only the two fields the client reads.

Files:

- `wrappers.dfy`: `Option` and `Result`.
- `json.dfy`: JSON values, parameter maps, records and page documents.
- `payload.dfy`: the outbound parameters (`ClearReserved`, `DropNulls`, `Outbound`).
- `pagination.dfy`: `math.ceil(numResults / size)` and the page arithmetic.
- `perigon.dfy`: the client. It has the specification functions `Run` and
  `FetchPages` and the imperative method `GetArticles`, with the page loop in
  `Paginate`. Where the source updates the keyword dict, the payload dict and
  the result list in place, the methods reassign local `map` and `seq`
  variables step by step. This is equivalent because none of the three objects
  is aliased while it is updated: the keyword dict and the result list are
  created by the call, and the request library encodes the payload when each
  request is made. Besides its result, `GetArticles`
  returns the requests it sent, in order. It is proved equal to `Run`.
- `properties.dfy`: what a call promises, proved about `Run`.
- `retry.dfy`: the request helper and its retry envelope (see Findings).

The model follows the code:

- A non-first request carries `page = 1, 2, ...`. The first request carries no
  `page` entry at all, not `page = 0`.
- A failed request is not retried (see Findings).

## Model

| member | source | states |
|---|---|---|
| `Payload.ClearReserved` | perigon_news_wrapper/perigon.py:57-61 | The same keys as the caller's kwargs. `size` and `page`, when present, map to None. Every other entry is unchanged. |
| `Payload.DropNulls` | perigon_news_wrapper/perigon.py:65 | Exactly the entries whose value is not None, with their values unchanged. |
| `Payload.Outbound` | perigon_news_wrapper/perigon.py:57-66 | The payload maps `size` to the method's argument, whatever the caller passed. It has no `page` entry and no None value. Any other key is present exactly when the caller passed it with a non-None value, and then with the caller's value. |
| `Pagination.CeilDiv` | perigon_news_wrapper/perigon.py:81 | The exact ceiling of `a / b` for either sign of `b`: `b*(q-1) < a <= b*q` when `b > 0`, reversed when `b < 0`. |
| `Pagination.CeilDivUnique` | perigon_news_wrapper/perigon.py:81 | No other integer meets those bounds, so they define the ceiling. |
| `Pagination.PagesCoverResults` | perigon_news_wrapper/perigon.py:80-82 | With `0 < size < numResults` there are at least two pages. The pages hold every result, and the last page is not empty. |
| `Pagination.NegativeSizeOnePage` | perigon_news_wrapper/perigon.py:80-86 | A negative `size` yields at most one page, so the loop never runs. |
| `Pagination.PageFill` | perigon_news_wrapper/perigon.py:81-86 | Every page before the last is full. The last page holds the remainder, which is at most `size`. |
| `Perigon.PageTotal` | perigon_news_wrapper/perigon.py:78-82 | The page plan fails with a missing `numResults` exactly when paginating without a count, and with a division by zero exactly when paginating with `size` 0 and a positive count. It plans more than one page exactly when paginating with `0 < size < numResults`. |
| `Perigon.GetArticles` | perigon_news_wrapper/perigon.py:38-94 | The imperative call returns what `Run` specifies and sends the requests `Run` specifies. Its error paths are a missing response, missing `articles`, missing `numResults`, and a zero `size` when `numResults > 0`. |
| `Perigon.Paginate` | perigon_news_wrapper/perigon.py:86-92 | The loop over `range(1, pages)` sends the requests for pages `1 .. pages-1` in order. It extends the results with each page's articles and stops at the first failure. |
| `Properties.FetchPagesRequests` | perigon_news_wrapper/perigon.py:86-90 | The page walk sends request `i` for page `from + i`, never beyond `pages - 1`. On success it sends exactly one request per page. |
| `Properties.FetchPagesResult` | perigon_news_wrapper/perigon.py:86-91 | On success, every response carried articles and the result is their concatenation. On failure, the last request failed with that error and every earlier one succeeded. |
| `Properties.PageRequestParameters` | perigon_news_wrapper/perigon.py:57-89 | Every request goes to the endpoint with the `x-api-key` header and has `size` equal to the argument. Page 0 has no `page`; page `i > 0` has `page = i`. Other non-None kwargs are carried over unchanged. |
| `Properties.RequestSequence` | perigon_news_wrapper/perigon.py:72-89 | A call sends at least one request. Request `i` is the request for page `i`: one per index, in ascending order. |
| `Properties.RequestCount` | perigon_news_wrapper/perigon.py:72-92 | Exactly one request is sent when not paginating, when `numResults <= size`, or when `size < 0`. Otherwise at most `ceil(numResults/size)` requests are sent, and exactly that many on success. |
| `Properties.ResultIsConcatenation` | perigon_news_wrapper/perigon.py:69-94 | A successful result is the articles of all responses, concatenated in request order. Nothing is dropped, deduplicated or reordered. |
| `Properties.FailureStopsTheCall` | perigon_news_wrapper/perigon.py:72-91 | On failure, no request follows the failing one. The error is that response's error, or, after a single request, a missing `numResults` or a zero `size`. |
| `Properties.FetchPagesErrors` | perigon_news_wrapper/perigon.py:86-91 | The page loop fails only because a response was None or lacked `articles`. |
| `Properties.ErrorCauses` | perigon_news_wrapper/perigon.py:75-81 | The call raises for a missing `numResults` exactly when it paginates and the first page, which had its articles, lacks the count. It raises a division by zero exactly when it paginates with `size` 0 and a positive count. |
| `Properties.NoResponseAborts` | perigon_news_wrapper/perigon.py:72-108 | The call fails with "no response", returning no partial list, if and only if some request got None from the helper. |
| `Properties.WithoutPaginationFirstPageOnly` | perigon_news_wrapper/perigon.py:72-80 | With `paginate` false, exactly one request (page 0) is sent, and the result is that page's articles or its error. |
| `Properties.FetchPagesLength` | perigon_news_wrapper/perigon.py:86-91 | If the server serves `n` matches `size` to a page, pages `from .. pages-1` succeed and deliver `n - from*size` articles. |
| `Properties.ConsistentServerDeliversAll` | tests/test_query_pagination.py:24-31 | Against a server that honours its own `numResults = n`, a call succeeds. It returns `min(size, n)` articles without pagination: exactly `size` when `n >= size`, as tests/test_query.py:31 expects. It returns all `n` with pagination, so more than `size` when `n > size`. |
| `Retry.AsWritten` | perigon_news_wrapper/perigon.py:100-108 | The helper as written answers exactly when the first attempt answered, and then with that attempt's document. |
| `Retry.AsWrittenOneAttempt` | perigon_news_wrapper/perigon.py:100-108 | As written, the helper's outcome depends on the first attempt alone. |
| `Retry.FirstAnswer` | perigon_news_wrapper/perigon.py:97-99 | Among the allowed attempts, the helper answers exactly when some attempt answered. The answer is from the first attempt that answered, and every earlier attempt raised. |
| `Retry.AsWrittenDoesNotRetry` | perigon_news_wrapper/perigon.py:96-108 | If the first attempt raises and the second would answer, the helper as written gives None while a retrying helper gives the answer. |
| `Retry.RetryIsTransparent` | perigon_news_wrapper/perigon.py:97-99 | Failures followed by an answer within ten attempts give the same document as an answer on the first attempt. |
| `Retry.RetriesExhausted` | perigon_news_wrapper/perigon.py:97-108 | The retrying helper gives None exactly when all ten attempts raised. |
| `Retry.CallFailsOnlyAfterTenFailures` | perigon_news_wrapper/perigon.py:72-108 | With the retrying helper, a call fails for want of a response exactly when one of its requests raised on all ten attempts. |

## Left out

- The HTTP GET is an oracle: the `requests` call, its 60-second timeout, `raise_for_status` and JSON decoding.
- The wait between attempts is not modelled. It is tenacity's `wait_exponential`, an exponential backoff timed on the wall clock; only the attempt count is.
- Exceptions other than `RequestException` inside the helper are not modelled. The decorator would retry those and then raise its own error.
- Logging (module set-up and the `logger` calls) has no bearing on results.
- The `tqdm` progress bar is left out. Its one update per extra page equals the `pages - 1` extra requests that `RequestCount` counts.
- The constructor only stores the API key and the endpoint. `Client` and `Endpoint` stand for it.
- `Pagination.CeilDiv`: `math.ceil(total / size)` uses floating-point division, and the model takes the exact quotient. The two agree while `numResults` stays below 2^53.
- JSON floating-point numbers and booleans are not modelled as `numResults`. The model treats a `numResults` that is not an integer as missing and raises. Python raises for some such values (a string, null) but carries on for others. A float such as `250.0` is compared and divided as a number, so the call paginates. A boolean compares as 0 or 1, so the call returns the first page.
- The defaults `paginate=True` and `size=100` are not modelled. `Run` and `GetArticles` take both arguments explicitly.
- `articles` is taken to be a list whenever present.
- The model allows a `size` entry in the keyword map. In Python that entry can never arrive, because `size` is a named parameter, so lines 57-58 never run. The model's promises hold either way.

## Findings

| source | as written | input that shows it | evidently intended | confidence | as-written member | corrected member |
|---|---|---|---|---|---|---|
| perigon_news_wrapper/perigon.py:96-108 | The `except RequestException` clause sits inside the function that `@retry(stop=stop_after_attempt(10), ...)` decorates. The helper returns None normally, the decorator never sees a failure, and nothing is retried. `get_articles` then fails subscripting None. | A GET whose first attempt raises `RequestException` (a timeout, say) and whose second attempt would answer. | Up to ten attempts; the first answer is returned, and the call fails only when all ten raise. | high; not executed | `Retry.AsWrittenDoesNotRetry` | `Retry.RetryIsTransparent` |
