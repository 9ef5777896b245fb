/**
 * Construction of the outbound query parameters of `PerigonAPI.get_articles`
 * from the caller's keyword arguments and the page size.
 */
module Payload {
  import opened Json

  /** The two parameters the client controls itself. */
  const SizeKey: string := "size"
  const PageKey: string := "page"

  /**
   * The keyword arguments after the "validate kwargs" step: a caller-supplied
   * `size` or `page` entry stays in the mapping but is set to None, every other
   * entry is untouched.
   */
  function ClearReserved(kwargs: Params): (r: Params)
    ensures r.Keys == kwargs.Keys
    ensures forall k :: k in r && k != SizeKey && k != PageKey ==> r[k] == kwargs[k]
    ensures SizeKey in r ==> r[SizeKey] == Null
    ensures PageKey in r ==> r[PageKey] == Null
  {
    var cleared := if SizeKey in kwargs then kwargs[SizeKey := Null] else kwargs;
    if PageKey in cleared then cleared[PageKey := Null] else cleared
  }

  /** The entries of `m` whose value is not None (the dict comprehension building the payload). */
  function DropNulls(m: Params): (r: Params)
    ensures r.Keys <= m.Keys
    ensures forall k :: k in m ==> (k in r <==> m[k] != Null)
    ensures forall k :: k in r ==> r[k] == m[k]
  {
    map k | k in m && m[k] != Null :: m[k]
  }

  /**
   * The payload sent with the first request: every non-None keyword argument
   * except `size` and `page`, plus `size` set to the method's own argument.
   */
  function Outbound(kwargs: Params, size: int): (p: Params)
    ensures SizeKey in p && p[SizeKey] == Int(size)
    ensures PageKey !in p
    ensures forall k :: k in p ==> p[k] != Null
    ensures forall k :: k != SizeKey && k != PageKey ==> (k in p <==> k in kwargs && kwargs[k] != Null)
    ensures forall k :: k in p && k != SizeKey ==> p[k] == kwargs[k]
  {
    DropNulls(ClearReserved(kwargs))[SizeKey := Int(size)]
  }
}
