/**
 * The JSON-like values that travel between the client and the news API:
 * keyword filters going out, page documents and article records coming back.
 */
module Json {
  import opened Wrappers

  /** A JSON value; `Null` is Python's None. Floating-point numbers are not modelled. */
  datatype Value =
    | Null
    | Bool(b: bool)
    | Int(i: int)
    | Str(s: string)
    | List(items: seq<Value>)
    | Object(fields: map<string, Value>)

  /** A parameter mapping (keyword arguments, query parameters). */
  type Params = map<string, Value>

  /** One article as returned by the API: an opaque mapping from field name to value. */
  type Record = map<string, Value>

  /**
   * A decoded response body. Only the two fields the client reads are kept;
   * `None` stands for a field that is absent (or not of the expected kind),
   * which the client hits as a KeyError when it subscripts the document.
   */
  datatype Document = Document(articles: Option<seq<Record>>, numResults: Option<int>)
}
