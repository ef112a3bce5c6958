/** client/src/services/chat2sqlService.ts: `executeQuery` posts a natural-language
    query to the SQL service, checks the shape of the JSON reply and reshapes it, and
    turns a browser "Failed to fetch" into a readable connection message. The network
    round trip is given as an HttpOutcome. */
module Chat2SqlService {
  import opened JsValues
  import opened JsStrings

  const ExecuteUrl := "http://localhost:5000/chat2sql/execute"
  const ServerErrorPrefix := "Server error: "
  const InvalidFormat := "Invalid response format from server"
  const FetchFailure := "Failed to fetch"
  const ConnectionFailure := "Failed to connect to the server. Please check if the server is running at http://localhost:5000"

  /** The POST request: its URL, method, content type and the `query` field of its JSON body. */
  datatype Request = Request(url: string, httpMethod: string, contentType: string, query: string)

  /** The fields of the parsed reply the service reads. `columns` is None when missing
      or falsy; `data` is None when it is not an array. */
  datatype Body = Body(columns: Option<seq<string>>, data: Option<seq<Row>>, detail: Option<string>)

  /** `response.json()`: a value (None for a JSON null) or the error it threw. */
  datatype JsonBody = Parsed(value: Option<Body>) | Malformed(error: Thrown)

  /** What `fetch` gave: a rejection, or a response with its ok flag, its body as text
      (read when not ok) and its body as JSON (read when ok). */
  datatype HttpOutcome =
    | FetchFailed(error: Thrown)
    | Received(ok: bool, text: string, json: JsonBody)

  /** The resolved value. `sql` belongs to the shape the caller reads (ChatInput.tsx
      tests `result.sql`); this service never sets it. */
  datatype Response = Response(data: seq<Row>, columns: seq<string>, detail: Option<string>, sql: Option<string>)

  /** The request sent for a query: the query goes out unchanged as the `query` field. */
  function QueryRequest(query: string): (r: Request)
    ensures r.query == query && r.url == ExecuteUrl && r.httpMethod == "POST"
  {
    Request(ExecuteUrl, "POST", "application/json", query)
  }

  /** The reply is well formed when it is an object with truthy `columns` and an array `data`. */
  predicate WellFormed(json: JsonBody) {
    json.Parsed? && json.value.Some? && json.value.value.columns.Some? && json.value.value.data.Some?
  }

  /** The `try` block: what it returns, or what it throws before the `catch`. */
  function Attempt(outcome: HttpOutcome): (r: Result<Response, Thrown>)
    ensures r.Ok? <==> outcome.Received? && outcome.ok && WellFormed(outcome.json)
    ensures outcome.Received? && !outcome.ok ==> r == Err(Raised(PlainError, ServerErrorPrefix + outcome.text))
  {
    match outcome
    case FetchFailed(e) => Err(e)
    case Received(ok, text, json) =>
      if !ok then Err(Raised(PlainError, ServerErrorPrefix + text))
      else
        match json
        case Malformed(e) => Err(e)
        case Parsed(value) =>
          if value.None? || value.value.columns.None? || value.value.data.None? then
            Err(Raised(PlainError, InvalidFormat))
          else
            Ok(Response(value.value.data.value, value.value.columns.value, value.value.detail, None))
  }

  /** The `catch` block: a TypeError mentioning "Failed to fetch" becomes the connection
      message; anything else is rethrown as it is. */
  function MapError(e: Thrown): (r: Thrown)
    ensures r != e <==> e.Raised? && e.kind == TypeError && Contains(e.message, FetchFailure)
    ensures r != e ==> r == Raised(PlainError, ConnectionFailure)
  {
    if e.Raised? && e.kind == TypeError && Contains(e.message, FetchFailure) then
      Raised(PlainError, ConnectionFailure)
    else e
  }

  /** executeQuery: resolves with the reply's own `data`, `columns` and `detail`, or
      rejects with a mapped error. */
  function ExecuteQuery(outcome: HttpOutcome): (r: Result<Response, Thrown>)
    ensures r.Ok? <==> outcome.Received? && outcome.ok && WellFormed(outcome.json)
    ensures r.Ok? ==> r.value.sql.None?
    ensures r.Ok? ==> var b := outcome.json.value.value;
                      r.value.data == b.data.value && r.value.columns == b.columns.value && r.value.detail == b.detail
    ensures outcome.Received? && !outcome.ok ==> r == Err(Raised(PlainError, ServerErrorPrefix + outcome.text))
    ensures outcome.Received? && outcome.ok && outcome.json.Parsed? && !WellFormed(outcome.json)
            ==> r == Err(Raised(PlainError, InvalidFormat))
  {
    match Attempt(outcome)
    case Ok(response) => Ok(response)
    case Err(e) => Err(MapError(e))
  }

  /** A rejected fetch: the browser's "Failed to fetch" TypeError becomes the connection
      message, and any other rejection comes through unchanged. */
  lemma FetchRejection(e: Thrown)
    ensures e.Raised? && e.kind == TypeError && Contains(e.message, FetchFailure)
            ==> ExecuteQuery(FetchFailed(e)) == Err(Raised(PlainError, ConnectionFailure))
    ensures !(e.Raised? && e.kind == TypeError && Contains(e.message, FetchFailure))
            ==> ExecuteQuery(FetchFailed(e)) == Err(e)
  {
  }

  /** A JSON parse error in an OK reply is rethrown as it is unless it is a TypeError
      that happens to mention "Failed to fetch". */
  lemma ParseErrorRethrown(e: Thrown)
    requires !(e.Raised? && e.kind == TypeError)
    ensures forall text :: ExecuteQuery(Received(true, text, Malformed(e))) == Err(e)
  {
  }
}
