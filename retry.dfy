/**
 * The request helper `_get_request` and its retry envelope
 * (`stop_after_attempt(10)`), with the attempts of one GET as an oracle.
 * Waiting between attempts is not modelled.
 */
module Retry {
  import opened Wrappers
  import opened Json
  import opened Perigon
  import Properties

  /** What one attempt of the GET produced: a RequestException, or a decoded body. */
  datatype Attempt = Raised | Answered(doc: Document)

  /** `tries(k)` is what attempt `k`, counted from 0, produces. */
  type Tries = nat -> Attempt

  /** The decorator's `stop_after_attempt(10)`. */
  const MaxAttempts: nat := 10

  /**
   * The helper as written: the `except` clause inside the decorated function
   * turns a RequestException into a normal return of None, so the retry
   * decorator never sees a failure and the first attempt is the only one.
   */
  function AsWritten(tries: Tries): (r: Option<Document>)
    ensures r.Some? <==> tries(0).Answered?
    ensures r.Some? ==> r.value == tries(0).doc
  {
    if tries(0).Answered? then Some(tries(0).doc) else None
  }

  /** As written, the helper's outcome depends on the first attempt alone: later attempts are never made. */
  lemma AsWrittenOneAttempt(tries: Tries, other: Tries)
    requires tries(0) == other(0)
    ensures AsWritten(tries) == AsWritten(other)
  {
  }

  /** Attempts `from` up to the last allowed one: the first answer, or None when every one raised. */
  function FirstAnswer(tries: Tries, from: nat): (r: Option<Document>)
    ensures r.Some? <==> exists k :: from <= k < MaxAttempts && tries(k).Answered?
    ensures r.Some? ==> exists k :: from <= k < MaxAttempts && tries(k) == Answered(r.value)
                                    && forall j :: from <= j < k ==> tries(j).Raised?
    decreases MaxAttempts - from
  {
    if from >= MaxAttempts then None
    else if tries(from).Answered? then Some(tries(from).doc)
    else FirstAnswer(tries, from + 1)
  }

  /** The helper with the retry the decorator is there for: up to ten attempts, the first answer wins. */
  function Retrying(tries: Tries): Option<Document>
  {
    FirstAnswer(tries, 0)
  }

  /**
   * A request that raises once and then answers: as written the helper gives
   * None (and the caller then fails), while the retrying helper gives the answer.
   */
  lemma AsWrittenDoesNotRetry(doc: Document)
    ensures var tries: Tries := k => if k == 0 then Raised else Answered(doc);
      AsWritten(tries) == None && Retrying(tries) == Some(doc)
  {
  }

  /**
   * Retrying is transparent: failures followed by an answer within ten
   * attempts give the same result as an answer on the first attempt.
   */
  lemma RetryIsTransparent(tries: Tries, k: nat)
    requires k < MaxAttempts && tries(k).Answered?
    requires forall j: nat :: j < k ==> tries(j).Raised?
    ensures Retrying(tries) == Some(tries(k).doc)
  {
  }

  /** Every one of the allowed attempts raised. */
  ghost predicate Exhausted(tries: Tries)
  {
    forall k: nat :: k < MaxAttempts ==> tries(k).Raised?
  }

  /** The retrying helper gives None exactly when all ten attempts raised. */
  lemma RetriesExhausted(tries: Tries)
    ensures Retrying(tries) == None <==> Exhausted(tries)
  {
  }

  /** The request helper built on the retrying envelope, over a transport giving each request's attempts. */
  function RetryingFetch(transport: Request -> Tries): Fetch
  {
    req => Retrying(transport(req))
  }

  /**
   * With the retrying helper, `get_articles` fails for want of a response
   * exactly when one of its requests raised on all ten attempts.
   */
  lemma CallFailsOnlyAfterTenFailures(client: Client, paginate: bool, size: int, kwargs: Json.Params,
                                      transport: Request -> Tries)
    ensures var o := Run(client, paginate, size, kwargs, RetryingFetch(transport));
      o.result == Err(NoResponse) <==> exists i :: 0 <= i < |o.sent| && Exhausted(transport(o.sent[i]))
  {
    var fetch := RetryingFetch(transport);
    Properties.NoResponseAborts(client, paginate, size, kwargs, fetch);
    var o := Run(client, paginate, size, kwargs, fetch);
    forall i | 0 <= i < |o.sent|
      ensures fetch(o.sent[i]).None? <==> Exhausted(transport(o.sent[i]))
    {
      RetriesExhausted(transport(o.sent[i]));
    }
  }
}
