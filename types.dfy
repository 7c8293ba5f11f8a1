/** Values shared by the whole engine: the response triple every operation
    returns, the payload types the engine never looks inside, and the
    abstract value of the in-memory store. */
module Types {

  datatype Option<+T> = None | Some(value: T)

  datatype Result<+T, +E> = Success(value: T) | Failure(error: E)

  type Byte = bv8

  /** A raw request body, as read from the connection. */
  type Bytes = seq<Byte>

  /** An already serialised JSON value; the engine never inspects it. */
  datatype Json = Json(text: string)

  /** A document stored for an index; searches hand it back verbatim. */
  datatype Document = Document(source: Json)

  /** A decoded search-template request body. */
  datatype SearchRequest = SearchRequest(payload: Json)

  /** The result of every operation: a status code, a status text and a
      body, and nothing else (the MockMethods record). */
  datatype Response = Response(statusCode: int, status: string, body: string)

  /** A response that sets only the status code, leaving the status text
      and the body at Go's zero value. */
  function StatusOnly(code: int): Response
  {
    Response(code, "", "")
  }

  /** The attribute map an index name is bound to. */
  type Attributes = map<string, Json>

  /** The simulation state: index names (map keys, so each names at most one
      index), the alias table keyed by index name (one alias per key), the
      documents seeded per index name, and the optional override that every
      operation shares. */
  datatype Store = Store(
    indices: map<string, Attributes>,
    aliases: map<string, string>,
    docs: map<string, seq<Document>>,
    mock: Option<Response>)

  /** What a state-changing operation yields: the new store and its response. */
  datatype Outcome = Outcome(next: Store, response: Response)

  /** The state of a freshly constructed engine. */
  const Initial: Store := Store(map[], map[], map[], None)
}
