/** The search-template operation: parse the body, look the index up in the
    documents map, and build a synthetic search envelope. */
module QueryFunctions {
  import opened Types

  /** At most this many shards are reported. */
  const MaxShards: nat := 10

  /** The `took` figure Go draws at random from [0, 20). */
  type Took = t: nat | t < 20

  datatype Shards = Shards(total: int, successful: int, skipped: int, failed: int)

  datatype HitsTotal = HitsTotal(value: int, relation: string)

  datatype Hits = Hits(total: HitsTotal, hits: seq<Document>)

  /** The envelope a successful search serialises. */
  datatype SearchResponse = SearchResponse(took: nat, shards: Shards, hits: Hits)

  /** The JSON library the engine calls: decoding a request body (or the
      decoder's error text) and encoding an envelope. */
  datatype Codec = Codec(
    unmarshal: Bytes -> Result<SearchRequest, string>,
    marshal: SearchResponse -> string)

  /** The reported shard total: the document count, capped at MaxShards. */
  function ShardTotal(count: nat): (t: nat)
    ensures t <= count && t <= MaxShards
    ensures t == count || t == MaxShards
  {
    if count > MaxShards then MaxShards else count
  }

  /** The envelope for the documents of one index. */
  function Envelope(docs: seq<Document>, took: Took): (e: SearchResponse)
    ensures e.took < 20
    ensures e.hits.hits == docs && e.hits.total.value == |e.hits.hits|
    ensures e.hits.total.relation == "eq"
    ensures e.shards.total == ShardTotal(|docs|)
    ensures e.shards.successful == 1 && e.shards.skipped == 0 && e.shards.failed == 0
  {
    SearchResponse(took, Shards(ShardTotal(|docs|), 1, 0, 0), Hits(HitsTotal(|docs|, "eq"), docs))
  }

  const ErrorPrefix: string := "{\"error\":\""
  const ErrorSuffix: string := "\"}"

  /** The message of an error body, read back by stripping the fixed text
      around it; None for a body not of that shape. */
  function ErrorText(body: string): Option<string>
  {
    if |body| >= |ErrorPrefix| + |ErrorSuffix|
       && body[..|ErrorPrefix|] == ErrorPrefix
       && body[|body| - |ErrorSuffix|..] == ErrorSuffix
    then Some(body[|ErrorPrefix|..|body| - |ErrorSuffix|])
    else None
  }

  /** The error body: the message, unescaped, in a one-field JSON object. */
  function ErrorBody(message: string): (b: string)
    ensures ErrorText(b) == Some(message)
  {
    var b := ErrorPrefix + message + ErrorSuffix;
    assert b[..|ErrorPrefix|] == ErrorPrefix;
    assert b[|b| - |ErrorSuffix|..] == ErrorSuffix;
    assert b[|ErrorPrefix|..|b| - |ErrorSuffix|] == message;
    b
  }

  /** The 404 body, naming the index. */
  function NotFoundBody(indexName: string): (b: string)
    ensures ErrorText(b) == Some("Index " + indexName + " does not exist")
  {
    ErrorBody("Index " + indexName + " does not exist")
  }

  /** Different index names give different 404 bodies. */
  lemma NotFoundBodyNamesIndex(a: string, b: string)
    requires NotFoundBody(a) == NotFoundBody(b)
    ensures a == b
  {
    var ma := "Index " + a + " does not exist";
    var mb := "Index " + b + " does not exist";
    assert ma == mb;
    assert a == ma[6..|ma| - 15];
    assert b == mb[6..|mb| - 15];
  }

  /** POST /{index}/_search/template: the override first, then 400 when the
      body does not decode, then 404 when the name has no documents entry,
      else 200 with the envelope over that index's documents. */
  function SearchTemplate(s: Store, codec: Codec, indexName: string, body: Bytes, took: Took): (r: Response)
    ensures s.mock.Some? ==> r == s.mock.value
    ensures s.mock.None? ==> (r.statusCode == 400 <==> codec.unmarshal(body).Failure?)
    ensures s.mock.None? && codec.unmarshal(body).Failure? ==>
              r == Response(400, "Bad Request", ErrorBody(codec.unmarshal(body).error))
    ensures s.mock.None? && codec.unmarshal(body).Success? ==>
              (r.statusCode == 404 <==> indexName !in s.docs)
    ensures s.mock.None? && codec.unmarshal(body).Success? && indexName !in s.docs ==>
              r == Response(404, "Not Found", NotFoundBody(indexName))
    ensures s.mock.None? && codec.unmarshal(body).Success? && indexName in s.docs ==>
              r == Response(200, "OK", codec.marshal(Envelope(s.docs[indexName], took)))
  {
    if s.mock.Some? then s.mock.value
    else match codec.unmarshal(body)
      case Failure(err) => Response(400, "Bad Request", ErrorBody(err))
      case Success(_) =>
        if indexName !in s.docs then Response(404, "Not Found", NotFoundBody(indexName))
        else Response(200, "OK", codec.marshal(Envelope(s.docs[indexName], took)))
  }

  /** Decoding is checked before the lookup: an undecodable body answers the
      same 400 whatever documents are stored. */
  lemma ParseBeforeLookup(s: Store, t: Store, codec: Codec, indexName: string, body: Bytes, took: Took)
    requires s.mock.None? && t.mock.None? && codec.unmarshal(body).Failure?
    ensures SearchTemplate(s, codec, indexName, body, took) == SearchTemplate(t, codec, indexName, body, took)
    ensures SearchTemplate(s, codec, indexName, body, took).statusCode == 400
  {
  }

  /** A search over an index with `n` stored documents reports all `n` as the
      total, returns all of them in order, and caps only the shard total. */
  lemma SearchCounts(docs: seq<Document>, took: Took)
    ensures |docs| > MaxShards ==> Envelope(docs, took).shards.total == MaxShards
    ensures |docs| > MaxShards ==> |Envelope(docs, took).hits.hits| == |docs| > Envelope(docs, took).shards.total
    ensures docs == [] ==> Envelope(docs, took).hits.total.value == 0 && Envelope(docs, took).hits.hits == []
  {
  }
}
