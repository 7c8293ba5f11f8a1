/** The engine object: the store's fields, the override and the server
    handle, updated in place by one method per operation. Each method is
    proved to do what the corresponding function of the store says. */
module Engine {
  import opened Types
  import IndexFunctions
  import AliasFunctions
  import QueryFunctions
  import Operations
  import Routes

  /** The HTTP server the engine creates: where it listens, the routes it
      serves, and whether it has been closed. */
  datatype Server = Server(address: string, routes: seq<Routes.Route>, closed: bool)

  /** What serving one request produces. */
  datatype Served =
    | Answered(wire: Routes.Wire)
    | NoRoute
    | NotModelled(call: Routes.Call)

  class InMemoryElasticsearch {
    var indices: map<string, Attributes>
    var aliases: map<string, string>
    var docs: map<string, seq<Document>>
    var mock: Option<Response>
    var server: Option<Server>

    /** The store these fields hold. */
    function State(): Store
      reads this
    {
      Store(indices, aliases, docs, mock)
    }

    /** A fresh engine: empty maps, no override, no server. */
    constructor ()
      ensures State() == Initial && server == None
    {
      indices := map[];
      aliases := map[];
      docs := map[];
      mock := None;
      server := None;
    }

    /** Installs (Some) or clears (None) the override every operation consults. */
    method SetMockMethods(m: Option<Response>)
      modifies this
      ensures State() == old(State()).(mock := m) && server == old(server)
    {
      mock := m;
    }

    method IndexExists(index: string) returns (r: Response)
      ensures r == IndexFunctions.IndexExists(State(), index)
    {
      if mock.Some? {
        return mock.value;
      }
      var found := index in indices;
      var code: int;
      if found {
        code := 200;
      } else {
        code := 404;
      }
      r := StatusOnly(code);
    }

    method CreateIndex(index: string) returns (r: Response)
      modifies this
      ensures Outcome(State(), r) == IndexFunctions.CreateIndex(old(State()), index)
      ensures server == old(server)
    {
      if mock.Some? {
        return mock.value;
      }
      indices := indices[index := map[]];
      r := StatusOnly(200);
    }

    method DeleteIndex(index: string) returns (r: Response)
      modifies this
      ensures Outcome(State(), r) == IndexFunctions.DeleteIndex(old(State()), index)
      ensures server == old(server)
    {
      if mock.Some? {
        return mock.value;
      }
      indices := indices - {index};
      r := StatusOnly(200);
    }

    /** Ranges over the alias table in the runtime's `order`, keeping the last
        key whose alias equals the argument. */
    method GetAlias(indexOrAlias: string, order: seq<string>) returns (r: Response)
      requires AliasFunctions.Enumerates(order, aliases.Keys)
      ensures r == AliasFunctions.GetAlias(State(), indexOrAlias, order)
    {
      if mock.Some? {
        return mock.value;
      }
      var found := indexOrAlias in aliases;
      var code: int;
      if found {
        code := 200;
      } else {
        code := 404;
      }
      var body := "";
      for i := 0 to |order|
        invariant body == AliasFunctions.LastMatch(aliases, order[..i], indexOrAlias)
      {
        var index := order[i];
        var alias := aliases[index];
        assert order[..i + 1][..i] == order[..i];
        if alias == indexOrAlias {
          body := index;
        }
      }
      assert order[..|order|] == order;
      r := Response(code, "", body);
    }

    method PutAlias(index: string, alias: string) returns (r: Response)
      modifies this
      ensures Outcome(State(), r) == AliasFunctions.PutAlias(old(State()), index, alias)
      ensures server == old(server)
    {
      if mock.Some? {
        return mock.value;
      }
      aliases := aliases[index := alias];
      r := StatusOnly(200);
    }

    method DeleteAlias(index: string, alias: string) returns (r: Response)
      modifies this
      ensures Outcome(State(), r) == AliasFunctions.DeleteAlias(old(State()), index, alias)
      ensures server == old(server)
    {
      if mock.Some? {
        return mock.value;
      }
      var code: int;
      if index in aliases && aliases[index] == alias {
        aliases := aliases - {index};
        code := 200;
      } else {
        code := 404;
      }
      r := StatusOnly(code);
    }

    method SearchTemplate(indexName: string, body: Bytes, codec: QueryFunctions.Codec, took: QueryFunctions.Took)
      returns (r: Response)
      ensures r == QueryFunctions.SearchTemplate(State(), codec, indexName, body, took)
    {
      if mock.Some? {
        return mock.value;
      }
      var request := codec.unmarshal(body);
      if request.Failure? {
        return Response(400, "Bad Request", QueryFunctions.ErrorBody(request.error));
      }
      if indexName !in docs {
        return Response(404, "Not Found", QueryFunctions.NotFoundBody(indexName));
      }
      var indexDocuments := docs[indexName];
      var total: nat;
      if |indexDocuments| > 10 {
        total := 10;
      } else {
        total := |indexDocuments|;
      }
      var envelope := QueryFunctions.SearchResponse(
        took,
        QueryFunctions.Shards(total, 1, 0, 0),
        QueryFunctions.Hits(QueryFunctions.HitsTotal(|indexDocuments|, "eq"), indexDocuments));
      r := Response(200, "OK", codec.marshal(envelope));
    }

    /** Runs one operation through the method that implements it. */
    method Apply(op: Operations.Op, codec: QueryFunctions.Codec) returns (r: Response)
      requires op.GetAlias? ==> AliasFunctions.Enumerates(op.order, aliases.Keys)
      modifies this
      ensures Outcome(State(), r) == Operations.Step(old(State()), codec, op)
      ensures server == old(server)
    {
      match op
      case IndexExists(index) => r := IndexExists(index);
      case CreateIndex(index) => r := CreateIndex(index);
      case DeleteIndex(index) => r := DeleteIndex(index);
      case GetAlias(name, order) => r := GetAlias(name, order);
      case PutAlias(index, alias) => r := PutAlias(index, alias);
      case DeleteAlias(index, alias) => r := DeleteAlias(index, alias);
      case SearchTemplate(indexName, body, took) => r := SearchTemplate(indexName, body, codec, took);
    }

    /** One request end to end: route it, run the handler's operation, and
        write the response. The service descriptor, index listing and
        aliases-of-index handlers are reported as not modelled. */
    method Serve(verb: Routes.HttpMethod, path: seq<string>, body: Result<Bytes, string>,
                 codec: QueryFunctions.Codec, order: seq<string>, took: QueryFunctions.Took)
      returns (served: Served)
      requires AliasFunctions.Enumerates(order, aliases.Keys)
      modifies this
      ensures server == old(server)
      ensures match Routes.Dispatch(verb, path, body, order, took)
              case None => served == NoRoute && State() == old(State())
              case Some(Invoke(op)) =>
                var o := Operations.Step(old(State()), codec, op);
                served == Answered(Routes.WriteResponse(o.response)) && State() == o.next
              case Some(ReadFailure) => served == Answered(Routes.ReadFailureWire) && State() == old(State())
              case Some(call) => served == NotModelled(call) && State() == old(State())
    {
      var call := Routes.Dispatch(verb, path, body, order, took);
      match call {
        case None =>
          served := NoRoute;
        case Some(Invoke(op)) =>
          var r := Apply(op, codec);
          served := Answered(Routes.WriteResponse(r));
        case Some(ReadFailure) =>
          served := Answered(Routes.ReadFailureWire);
        case Some(other) =>
          served := NotModelled(other);
      }
    }

    /** Creates the server with the route table; listening is not modelled. */
    method StartServer(address: string)
      modifies this
      ensures server == Some(Server(address, Routes.RouteTable, false))
      ensures State() == old(State())
    {
      server := Some(Server(address, Routes.RouteTable, false));
    }

    /** Closes the server if one was created; with none it does nothing. */
    method Stop()
      modifies this
      ensures old(server).None? ==> server == None
      ensures old(server).Some? ==> server == Some(old(server).value.(closed := true))
      ensures State() == old(State())
    {
      if server.Some? {
        server := Some(server.value.(closed := true));
      }
    }
  }
}
