# elasticfacker simulation engine, in Dafny

elasticfacker is a fake search server that runs inside a Go test process. It
answers a handful of index, alias and search-template REST calls from an
in-memory store, so client code can be tested without a real search cluster.
This project models its simulation engine:

- the store: index names, an alias table keyed by index name, seeded documents
  per index name, and an optional override response;
- the operations, each of which returns the override verbatim when one is
  installed and otherwise reads or updates the store and answers with a
  `{statusCode, status, body}` triple;
- the route table, the handlers that hand the path variables to one
  operation, and the response writer.

Layout, one module per source file or component:

- `types.dfy` — `Types`: the response triple, opaque payloads (`Json`,
  `Document`, `SearchRequest`), and `Store`, the abstract value of the engine's
  fields.
- `index_functions.dfy`, `alias_functions.dfy`, `query_functions.dfy` — each
  operation as a function from a `Store` to its response and new store, with
  contracts that say what the answer means and what is left untouched.
- `operations.dfy` — `Operations`: one call as `Step`, a sequence of calls as
  `Run`, and the properties that span several calls.
- `routes.dfy` — `Routes`: the route table in registration order, path
  matching, the handlers, and `WriteResponse`.
- `engine.dfy` — `Engine.InMemoryElasticsearch`: the engine object. Its fields
  are updated in place, one method per operation. Each method is proved equal to
  the function of the store for that operation.

Some facts hold by construction. Index names and alias-table keys are map keys,
so each name denotes at most one index and each key holds at most one alias. The
override is a single `Option<Response>` shared by every operation. Every
operation's only result is the `Response` triple.

The model follows the library code, not the stricter outcomes the repository's
example tests expect:

- re-creating an index answers 200;
- deleting a missing index answers 200;
- binding an alias answers 200 whether or not the index exists, and overwrites
  any earlier alias;
- a search on a just-created index answers 404. `CreateIndex` writes only the
  index-name map, and search looks the name up in the separate documents map
  (`Operations.SearchAfterCreateNotFound`);
- GET `/_alias/{alias}` for an alias that is bound answers 404
  (examples/memory_server_test.go:297-306 expects 200). `GetAlias` tests the
  argument against the alias table's keys, which are index names
  (esapi_alias_functions.go:8), so an alias name is found only when it is also
  a key (`Operations.BoundAliasLookupNotFound`);
- deleting the alias from `products-test-2` answers 200
  (examples/memory_server_test.go:328-338 expects 500). A subtest before it
  bound that key to that alias, and `DeleteAlias` answers 200 whenever the key
  holds the alias (esapi_alias_functions.go:43-48).

The alias table is keyed by index name. The constructor and the operations
disagree about which fields exist. The model keeps `indices`, `aliases`, `docs`
and `mock` as separate fields, as the operations use them.

## Model

| member | source | states |
|---|---|---|
| `IndexFunctions.IndexExists` | esapi_index_functions.go:3-18 | with an override, the override; otherwise 200 exactly when the name is an index and 404 exactly when it is not, with empty status text and body |
| `IndexFunctions.CreateIndex` | esapi_index_functions.go:20-29 | with an override, the override and the same store; otherwise 200, the index names become the old ones plus this name, the name maps to an empty attribute map, every other index keeps its attributes, and aliases, documents and override are untouched |
| `IndexFunctions.DeleteIndex` | esapi_index_functions.go:31-40 | with an override, the override and the same store; otherwise 200, the name is removed, every other index keeps its attributes, an absent name leaves the store as it was, and nothing else changes |
| `IndexFunctions.CreateIndexIdempotent` | esapi_index_functions.go:24 | creating an index a second time leaves the same store and answer as creating it once |
| `IndexFunctions.DeleteAbsentIsNoop` | esapi_index_functions.go:35-39 | deleting a name that is not an index changes nothing and still answers 200 |
| `IndexFunctions.CreateDeleteExists` | esapi_index_functions.go:7-14 | create then exists answers 200; delete then exists answers 404; create, delete, exists answers 404 |
| `AliasFunctions.LastMatch` | esapi_alias_functions.go:16-21 | the body built by ranging over the table is either empty or a key, visited by the range, whose alias equals the argument |
| `AliasFunctions.LastMatchFinds` | esapi_alias_functions.go:17-21 | if any visited key holds the argument, the body is a key that holds it |
| `AliasFunctions.GetAlias` | esapi_alias_functions.go:3-26 | with an override, the override; otherwise 200 exactly when the argument is a key of the alias table and 404 exactly when it is not, and the body is empty or a key whose alias is the argument |
| `AliasFunctions.GetAliasBody` | esapi_alias_functions.go:16-21 | when the range visits every key, the body is a key bound to the argument whenever one exists, and empty when none does |
| `AliasFunctions.PutAlias` | esapi_alias_functions.go:28-37 | with an override, the override and the same store; otherwise 200, the key now holds the alias (any previous alias overwritten), every other key is unchanged, and indices, documents and override are untouched |
| `AliasFunctions.DeleteAlias` | esapi_alias_functions.go:39-55 | with an override, the override and the same store; otherwise 200 exactly when the key holds that alias, in which case just that key is removed; otherwise 404 and the store unchanged |
| `AliasFunctions.PutAliasIgnoresIndices` | esapi_alias_functions.go:32-36 | binding answers the same and leaves the same alias table whatever index names exist |
| `AliasFunctions.PutThenDeleteTwice` | esapi_alias_functions.go:32-49 | after binding, the first matching unbind answers 200 and removes the key, and a repeated unbind answers 404 and changes nothing |
| `QueryFunctions.ShardTotal` | esapi_query_functions.go:34-39 | the shard total is the least of the document count and 10 |
| `QueryFunctions.Envelope` | esapi_query_functions.go:34-56 | the envelope returns exactly the stored documents in order, reports their full number as the total with relation "eq", reports `ShardTotal` of that number (the least of it and 10) as the shard total with 1 successful, 0 skipped and 0 failed, and `took` below 20 |
| `QueryFunctions.ErrorBody` | esapi_query_functions.go:21 | the error body is the message wrapped in `{"error":"` and `"}`, and `ErrorText` reads exactly that message back from it |
| `QueryFunctions.NotFoundBody` | esapi_query_functions.go:30 | the 404 body is an error body whose message is `Index <name> does not exist` |
| `QueryFunctions.NotFoundBodyNamesIndex` | esapi_query_functions.go:30 | different index names give different 404 bodies |
| `QueryFunctions.SearchTemplate` | esapi_query_functions.go:10-65 | the override first; otherwise 400 "Bad Request" with the decoder's error exactly when the body does not decode; then 404 "Not Found" exactly when the name has no documents entry; else 200 "OK" with the encoded envelope of that index's documents |
| `QueryFunctions.ParseBeforeLookup` | esapi_query_functions.go:15-32 | an undecodable body answers the same 400 whatever documents are stored |
| `QueryFunctions.SearchCounts` | esapi_query_functions.go:34-55 | with more than 10 documents the total counts all of them while the shard total is 10; with none, the total is 0 and no hits are returned |
| `Operations.Step` | types.go:10-15 | with an override, any call returns it and leaves the store unchanged; no call writes documents or the override; exists, get-alias and search change nothing; index calls leave the alias table alone and alias calls leave the index names alone |
| `Operations.Run` | types.go:10-15 | a sequence of calls yields one response per call and never changes the documents or the override |
| `Operations.OverrideShortCircuitsRun` | elasticfacker.go:24-26 | once an override is installed, every later call of any kind answers exactly it and the store stays as it was |
| `Operations.NeverCreatedStaysAbsent` | esapi_index_functions.go:24 | a name that is not an index stays absent, and exists answers 404 for it, through any calls none of which creates it |
| `Operations.IndexLifecycle` | esapi_index_functions.go:7-39 | create, exists, delete, exists answers 200, 200, 200, 404 |
| `Operations.SearchAfterCreateNotFound` | esapi_query_functions.go:25-32 | on a new engine, create followed by a well-formed search of the same name answers 404 |
| `Operations.BoundAliasLookupNotFound` | esapi_alias_functions.go:8-14 | on a new engine, looking up an alias just bound to a differently named index answers 404, because the lookup tests the table's keys |
| `Operations.AliasScenario` | esapi_alias_functions.go:28-55 | bind a to p, bind a to q, unbind a from p, unbind a from p answers 200, 200, 200, 404, leaving q bound to a and p unbound |
| `Routes.RouteTableLayout` | elasticfacker.go:33-44 | the route table holds ten routes, one per handler; no template repeats a variable name; each template binds exactly the path variables its handler reads |
| `Routes.RoutesDistinct` | elasticfacker.go:34-44 | no two routes share both method and path template |
| `Routes.Bindings` | elasticfacker.go:78 | the variables extracted from a path are exactly the template's variable names |
| `Routes.Instantiate` | elasticfacker.go:34-44 | the path a template names for given variables has one segment per template segment, each literal in place and each variable replaced by its value |
| `Routes.BindingsOfInstantiate` | elasticfacker.go:34-44 | a path built from a template and non-empty values fits the template, and matching it extracts exactly those values |
| `Routes.InstantiateOfBindings` | elasticfacker.go:34-44 | the other round trip: a path that fits a template without repeated names is rebuilt exactly from the variables matching extracts |
| `Routes.PathVar` | elasticfacker.go:78 | reading a path variable gives its bound value, or the empty string for a name that is not bound |
| `Routes.RoutedPathVars` | elasticfacker.go:78-128 | on a request a route accepts, every path variable the handler reads is bound to a non-empty segment, so no handler gets the empty default |
| `Routes.FirstRoute` | elasticfacker.go:33-44 | the chosen route accepts the request and no route registered before it does; no route is chosen only when none accepts it |
| `Routes.DispatchOutcomes` | elasticfacker.go:33-44 | a request gets no handler exactly when no route accepts it; the read-failure answer comes exactly when the search route accepts the request and its body cannot be read |
| `Routes.HandlerCall` | elasticfacker.go:127-134 | a handler answers on its own without calling an operation exactly when it is the search handler and the body cannot be read |
| `Routes.IndexRoutes` | elasticfacker.go:35-39 | HEAD, PUT and DELETE on `/{index}` call exists, create and delete with the index name unchanged |
| `Routes.AliasBindingRoutes` | elasticfacker.go:41-42 | PUT and DELETE on `/{index}/_aliases/{alias}` call bind and unbind with both names unchanged |
| `Routes.AliasLookupRoutes` | elasticfacker.go:38-40 | GET `/{index}/_alias` goes to the aliases-of-index handler with the name; GET `/_alias/{alias}` calls get-alias with the name, except the alias `_alias`, which the earlier-registered `/{index}/_alias` captures |
| `Routes.CatAndRootRoutes` | elasticfacker.go:34-37 | GET `/` goes to the service descriptor and GET `/_cat/indices/{pattern}` to the index listing with the pattern |
| `Routes.SearchRoute` | elasticfacker.go:127-138 | POST `/{index}/_search/template` calls search-template with the name and the body read; a body that cannot be read gives the handler's own 400 and no call |
| `Routes.WriteResponse` | elasticfacker.go:141-145 | what is handed to the ResponseWriter is exactly the operation's status code and body, with exactly one header set, `X-Elastic-Product: Elasticsearch` |
| `Routes.StatusTextNotWritten` | elasticfacker.go:141-145 | the status text is never handed to the ResponseWriter: responses differing only in it are written alike |
| `Routes.HttpError` | elasticfacker.go:132 | the answer `http.Error` hands over has the given code, the message followed by a newline as its body, and exactly the plain-text `Content-Type` and `nosniff` headers |
| `Routes.ReadFailureWithoutProductHeader` | elasticfacker.go:130-133 | the read-failure answer is a 400 with body `can't read body` and a newline, and unlike every answer `writeResponse` gives it carries no `X-Elastic-Product` header |
| `Engine.InMemoryElasticsearch.constructor` | elasticfacker.go:16-22 | a new engine has no index names, no aliases, no documents, no override and no server |
| `Engine.InMemoryElasticsearch.SetMockMethods` | elasticfacker.go:24-26 | replaces the override and nothing else |
| `Engine.InMemoryElasticsearch.IndexExists` | esapi_index_functions.go:3-18 | answers as `IndexFunctions.IndexExists` on the current fields, changing nothing |
| `Engine.InMemoryElasticsearch.CreateIndex` | esapi_index_functions.go:20-29 | updates the fields in place to the store `IndexFunctions.CreateIndex` gives and returns its answer; the server is untouched |
| `Engine.InMemoryElasticsearch.DeleteIndex` | esapi_index_functions.go:31-40 | updates the fields in place to the store `IndexFunctions.DeleteIndex` gives and returns its answer |
| `Engine.InMemoryElasticsearch.GetAlias` | esapi_alias_functions.go:3-26 | ranging over the table in the runtime's order, answers as `AliasFunctions.GetAlias`, changing nothing |
| `Engine.InMemoryElasticsearch.PutAlias` | esapi_alias_functions.go:28-37 | updates the alias table in place as `AliasFunctions.PutAlias` says and returns its answer |
| `Engine.InMemoryElasticsearch.DeleteAlias` | esapi_alias_functions.go:39-55 | updates the alias table in place as `AliasFunctions.DeleteAlias` says and returns its answer |
| `Engine.InMemoryElasticsearch.SearchTemplate` | esapi_query_functions.go:10-65 | answers as `QueryFunctions.SearchTemplate` on the current fields, changing nothing |
| `Engine.InMemoryElasticsearch.Apply` | elasticfacker.go:77-125 | running any operation through its method leaves exactly the store and answer `Operations.Step` gives |
| `Engine.InMemoryElasticsearch.Serve` | elasticfacker.go:77-145 | a routed request runs the matched handler's operation on the fields and writes its answer; an unreadable search body writes the plain-text 400 and changes nothing; the handlers outside this model are not run by the model and leave the fields as they were |
| `Engine.InMemoryElasticsearch.StartServer` | elasticfacker.go:32-49 | records a server at the address with the route table, open, leaving the store alone |
| `Engine.InMemoryElasticsearch.Stop` | elasticfacker.go:59-63 | with no server, does nothing; otherwise marks that server closed; the store is untouched |

## Left out

- The goroutine in `Start`, `ListenAndServe` and `log.Fatalf`: no network. The log lines `log.Println` (elasticfacker.go:51) and `log.Printf` (elasticfacker.go:131) are output only and are dropped. `StartServer` records the server value that is created; `Stop` records that it is closed. What closing does to live connections is not modelled.
- Gorilla mux internals. The model does not split paths, uses no variable-segment regexes, and gives no 404/405 for unmatched requests. A path is a sequence of segments, and a variable matches any non-empty segment, which is mux's default pattern. An unmatched request is reported as `NoRoute`.
- `encoding/json`. Decoding the body and encoding the envelope are the two functions of a `Codec` parameter. The decoder's error text is taken as given. The static JSON of the service descriptor (the `/` route) is not modelled; `Serve` reports it as not modelled.
- `GetIndex` and `GetAliasFromIndex` are not part of this model. Their routes and the variables passed to them are modelled; `Serve` reports such calls as not modelled. The `indicesAlias` map made by the constructor is also left out, because no modelled logic reads it.
- Go's map iteration order becomes an `order` parameter of `GetAlias`. The engine method requires it to list each key of the table once.
- The random `took` value becomes a parameter of type `Took`, a nat below 20.
- Concurrency: the maps are shared without synchronisation across request goroutines. Every call is modelled as a sequential method call.
- Go's panic on writing to a nil map: the constructor never makes `indices`. The model starts it as an empty map.
- Pointer aliasing of the override. Go returns the caller's own `*MockMethods`, so later writes to that struct would show through. The model holds a value.
- What net/http does after the handler: it drops the body of a HEAD response (so an override's body never reaches an exists caller) and refuses bodies on 204 and 304, and it adds `Date`, `Content-Length` and a sniffed `Content-Type`, none of which `writeResponse` sets. A `Wire` is what the handler hands to the ResponseWriter, not the bytes on the connection.
- net/http behaviour of `WriteHeader` outside 200–999: it panics below 100 and above 999, and sends interim 1xx responses. `WriteResponse` copies any code.
- `Document` contents, including float scores, and the search request's fields are opaque.
- No operation in the source adds documents. The documents map is a field that any state may hold, and no operation writes it.
- Search and count routes on `/{index}/_search` and `/{index}/_count` do not exist in the source route table.
