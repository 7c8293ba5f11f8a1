/** The operation set as one transition function over the store, and the
    properties of sequences of calls: the override short-circuit, the
    documents map that no operation writes, and the index lifecycle. */
module Operations {
  import opened Types
  import IndexFunctions
  import AliasFunctions
  import QueryFunctions

  /** One call into the engine. The alias-map iteration order and the random
      `took` figure, which Go's runtime supplies, travel with the call. */
  datatype Op =
    | IndexExists(index: string)
    | CreateIndex(index: string)
    | DeleteIndex(index: string)
    | GetAlias(indexOrAlias: string, order: seq<string>)
    | PutAlias(index: string, alias: string)
    | DeleteAlias(index: string, alias: string)
    | SearchTemplate(indexName: string, body: Bytes, took: QueryFunctions.Took)

  /** Read-only operations. */
  predicate IsQuery(op: Op)
  {
    op.IndexExists? || op.GetAlias? || op.SearchTemplate?
  }

  /** One call: what it answers and the store it leaves. */
  function Step(s: Store, codec: QueryFunctions.Codec, op: Op): (o: Outcome)
    ensures s.mock.Some? ==> o == Outcome(s, s.mock.value)
    ensures o.next.docs == s.docs && o.next.mock == s.mock
    ensures IsQuery(op) ==> o.next == s
    ensures op.CreateIndex? || op.DeleteIndex? ==> o.next.aliases == s.aliases
    ensures op.PutAlias? || op.DeleteAlias? ==> o.next.indices == s.indices
  {
    match op
    case IndexExists(index) => Outcome(s, IndexFunctions.IndexExists(s, index))
    case CreateIndex(index) => IndexFunctions.CreateIndex(s, index)
    case DeleteIndex(index) => IndexFunctions.DeleteIndex(s, index)
    case GetAlias(name, order) => Outcome(s, AliasFunctions.GetAlias(s, name, order))
    case PutAlias(index, alias) => AliasFunctions.PutAlias(s, index, alias)
    case DeleteAlias(index, alias) => AliasFunctions.DeleteAlias(s, index, alias)
    case SearchTemplate(indexName, body, took) =>
      Outcome(s, QueryFunctions.SearchTemplate(s, codec, indexName, body, took))
  }

  /** The final store and the responses of a sequence of calls. */
  datatype Trace = Trace(final: Store, responses: seq<Response>)

  /** Calls made one after another, each on the store the previous one left. */
  function Run(s: Store, codec: QueryFunctions.Codec, ops: seq<Op>): (t: Trace)
    ensures |t.responses| == |ops|
    ensures t.final.docs == s.docs && t.final.mock == s.mock
    decreases |ops|
  {
    if ops == [] then Trace(s, [])
    else
      var first := Step(s, codec, ops[0]);
      var rest := Run(first.next, codec, ops[1..]);
      Trace(rest.final, [first.response] + rest.responses)
  }

  /** Once an override `m` is installed, every later call answers exactly `m`
      and the store is left as it was, whatever the calls are. */
  lemma {:induction false} OverrideShortCircuitsRun(s: Store, codec: QueryFunctions.Codec, ops: seq<Op>, m: Response)
    requires s.mock == Some(m)
    ensures Run(s, codec, ops).final == s
    ensures forall i :: 0 <= i < |ops| ==> Run(s, codec, ops).responses[i] == m
    decreases |ops|
  {
    if ops != [] {
      OverrideShortCircuitsRun(s, codec, ops[1..], m);
    }
  }

  /** A name that is not an index stays absent through any calls none of
      which creates it. */
  lemma {:induction false} NeverCreatedStaysAbsent(s: Store, codec: QueryFunctions.Codec, ops: seq<Op>, name: string)
    requires name !in s.indices
    requires forall i :: 0 <= i < |ops| ==> ops[i] != CreateIndex(name)
    ensures name !in Run(s, codec, ops).final.indices
    ensures s.mock.None? ==> IndexFunctions.IndexExists(Run(s, codec, ops).final, name).statusCode == 404
    decreases |ops|
  {
    if ops != [] {
      var next := Step(s, codec, ops[0]).next;
      assert name !in next.indices;
      NeverCreatedStaysAbsent(next, codec, ops[1..], name);
    }
  }

  /** The index lifecycle from any store without an override:
      create, exists, delete, exists answers 200, 200, 200, 404. */
  lemma IndexLifecycle(s: Store, codec: QueryFunctions.Codec, index: string)
    requires s.mock.None?
    ensures Run(s, codec, [CreateIndex(index), IndexExists(index), DeleteIndex(index), IndexExists(index)]).responses
            == [StatusOnly(200), StatusOnly(200), StatusOnly(200), StatusOnly(404)]
  {
    var s1 := Step(s, codec, CreateIndex(index)).next;
    var s3 := Step(s1, codec, DeleteIndex(index)).next;
    assert Run(s3, codec, [IndexExists(index)]).responses == [StatusOnly(404)];
    assert Run(s1, codec, [DeleteIndex(index), IndexExists(index)]).responses == [StatusOnly(200), StatusOnly(404)];
    assert Run(s1, codec, [IndexExists(index), DeleteIndex(index), IndexExists(index)]).responses
           == [StatusOnly(200), StatusOnly(200), StatusOnly(404)];
  }

  /** Creating an index gives it no documents entry, so a well-formed search
      on a freshly created index of a new engine answers 404. */
  lemma SearchAfterCreateNotFound(codec: QueryFunctions.Codec, index: string, body: Bytes, took: QueryFunctions.Took)
    requires codec.unmarshal(body).Success?
    ensures Run(Initial, codec, [CreateIndex(index), SearchTemplate(index, body, took)]).responses[1].statusCode == 404
  {
    var ops := [CreateIndex(index), SearchTemplate(index, body, took)];
    assert ops[1..] == [SearchTemplate(index, body, took)];
  }

  /** The lookup tests the alias table's keys, which are index names: on a new
      engine, looking up an alias just bound to a differently named index
      answers 404. */
  lemma BoundAliasLookupNotFound(codec: QueryFunctions.Codec, index: string, alias: string, order: seq<string>)
    requires index != alias
    ensures Run(Initial, codec, [PutAlias(index, alias), GetAlias(alias, order)]).responses[1].statusCode == 404
  {
    var ops := [PutAlias(index, alias), GetAlias(alias, order)];
    assert ops[1..] == [GetAlias(alias, order)];
  }

  /** The alias scenario: bind `a` to `p`, bind `a` to `q` (the table is keyed
      by index, so both succeed), unbind from `p`, unbind from `p` again. */
  lemma AliasScenario(s: Store, codec: QueryFunctions.Codec, p: string, q: string, a: string)
    requires s.mock.None? && p != q
    ensures Run(s, codec, [PutAlias(p, a), PutAlias(q, a), DeleteAlias(p, a), DeleteAlias(p, a)]).responses
            == [StatusOnly(200), StatusOnly(200), StatusOnly(200), StatusOnly(404)]
    ensures var t := Run(s, codec, [PutAlias(p, a), PutAlias(q, a), DeleteAlias(p, a), DeleteAlias(p, a)]).final;
            p !in t.aliases && q in t.aliases && t.aliases[q] == a
  {
    var s1 := Step(s, codec, PutAlias(p, a)).next;
    var s2 := Step(s1, codec, PutAlias(q, a)).next;
    var s3 := Step(s2, codec, DeleteAlias(p, a)).next;
    assert s3.aliases == s2.aliases - {p};
    assert Run(s3, codec, [DeleteAlias(p, a)]) == Trace(s3, [StatusOnly(404)]);
    assert Run(s2, codec, [DeleteAlias(p, a), DeleteAlias(p, a)]) == Trace(s3, [StatusOnly(200), StatusOnly(404)]);
    assert Run(s1, codec, [PutAlias(q, a), DeleteAlias(p, a), DeleteAlias(p, a)])
           == Trace(s3, [StatusOnly(200), StatusOnly(200), StatusOnly(404)]);
  }
}
