/** The request dispatcher: the fixed route table, matching a request path
    against it in registration order, the handlers that pass the path
    variables on to one operation, and the response writer. */
module Routes {
  import opened Types
  import Operations
  import QueryFunctions

  datatype HttpMethod = GET | HEAD | PUT | DELETE | POST

  /** One `/`-separated piece of a path template. */
  datatype Segment = Literal(text: string) | Variable(name: string)

  datatype Handler =
    | HandleRoot
    | HandleIndicesExists
    | HandleIndicesCreate
    | HandleCatIndices
    | HandleIndicesGetAliasFromIndex
    | HandleIndicesDelete
    | HandleIndicesGetAlias
    | HandleIndicesDeleteAlias
    | HandleIndicesPutAlias
    | HandleSearchTemplate

  datatype Route = Route(verb: HttpMethod, template: seq<Segment>, handler: Handler)

  /** The routes, in the order they are registered. */
  const RouteTable: seq<Route> := [
    Route(GET, [], HandleRoot),
    Route(HEAD, [Variable("indexName")], HandleIndicesExists),
    Route(PUT, [Variable("indexName")], HandleIndicesCreate),
    Route(GET, [Literal("_cat"), Literal("indices"), Variable("indexNamePattern")], HandleCatIndices),
    Route(GET, [Variable("indexName"), Literal("_alias")], HandleIndicesGetAliasFromIndex),
    Route(DELETE, [Variable("indexName")], HandleIndicesDelete),
    Route(GET, [Literal("_alias"), Variable("aliasName")], HandleIndicesGetAlias),
    Route(DELETE, [Variable("indexName"), Literal("_aliases"), Variable("aliasName")], HandleIndicesDeleteAlias),
    Route(PUT, [Variable("indexName"), Literal("_aliases"), Variable("aliasName")], HandleIndicesPutAlias),
    Route(POST, [Variable("indexName"), Literal("_search"), Literal("template")], HandleSearchTemplate)
  ]

  /** The path variables a handler reads. */
  function HandlerReads(h: Handler): set<string>
  {
    match h
    case HandleRoot => {}
    case HandleCatIndices => {"indexNamePattern"}
    case HandleIndicesGetAlias => {"aliasName"}
    case HandleIndicesDeleteAlias => {"indexName", "aliasName"}
    case HandleIndicesPutAlias => {"indexName", "aliasName"}
    case _ => {"indexName"}
  }

  /** Ten routes, one per handler; no template repeats a variable name, and
      each template binds exactly the variables its handler reads. */
  lemma RouteTableLayout()
    ensures |RouteTable| == 10
    ensures forall i, j :: 0 <= i < j < |RouteTable| ==> RouteTable[i].handler != RouteTable[j].handler
    ensures forall k :: 0 <= k < |RouteTable| ==> DistinctVars(RouteTable[k].template)
    ensures forall k :: 0 <= k < |RouteTable| ==> VarNames(RouteTable[k].template) == HandlerReads(RouteTable[k].handler)
  {
    VarNamesOfThree(RouteTable[3].template);
    VarNamesOfThree(RouteTable[7].template);
    VarNamesOfThree(RouteTable[8].template);
    VarNamesOfThree(RouteTable[9].template);
  }

  /** The names a three-segment template binds, segment by segment. */
  lemma VarNamesOfThree(t: seq<Segment>)
    requires |t| == 3
    ensures VarNames(t) == VarNames([t[0]]) + VarNames([t[1]]) + VarNames([t[2]])
  {
    assert t[1..][0] == t[1] && t[1..][1..][0] == t[2] && t[1..][1..][1..] == [];
    assert [t[0]][1..] == [t[1]][1..] == [t[2]][1..] == [];
    assert VarNames(t[1..][1..]) == VarNames([t[2]]);
    assert VarNames(t[1..]) == VarNames([t[1]]) + VarNames([t[2]]);
  }

  /** No two routes share both verb and path template. */
  lemma RoutesDistinct()
    ensures forall i, j :: 0 <= i < j < |RouteTable| ==>
              RouteTable[i].verb != RouteTable[j].verb || RouteTable[i].template != RouteTable[j].template
  {
  }

  /** A path, given as its segments, fits a template when it has as many
      segments, literals agree, and each variable stands for a non-empty
      segment. */
  predicate Fits(template: seq<Segment>, path: seq<string>)
  {
    && |template| == |path|
    && (forall i :: 0 <= i < |path| ==> template[i].Literal? ==> path[i] == template[i].text)
    && (forall i :: 0 <= i < |path| ==> template[i].Variable? ==> path[i] != "")
  }

  /** The variable names a template binds. */
  function VarNames(template: seq<Segment>): set<string>
  {
    if template == [] then {}
    else (if template[0].Variable? then {template[0].name} else {}) + VarNames(template[1..])
  }

  /** The path variables a fitting path binds. */
  function Bindings(template: seq<Segment>, path: seq<string>): (vars: map<string, string>)
    requires |template| == |path|
    ensures vars.Keys == VarNames(template)
    decreases |template|
  {
    if template == [] then map[]
    else
      var rest := Bindings(template[1..], path[1..]);
      if template[0].Variable? then rest[template[0].name := path[0]] else rest
  }

  /** The inverse of Bindings: the path a template names for given variables. */
  function Instantiate(template: seq<Segment>, vars: map<string, string>): (path: seq<string>)
    requires VarNames(template) <= vars.Keys
    ensures |path| == |template|
    ensures forall i :: 0 <= i < |path| && template[i].Literal? ==> path[i] == template[i].text
    ensures forall i :: 0 <= i < |path| && template[i].Variable? ==>
              template[i].name in vars && path[i] == vars[template[i].name]
    decreases |template|
  {
    if template == [] then []
    else
      [if template[0].Variable? then vars[template[0].name] else template[0].text]
      + Instantiate(template[1..], vars)
  }

  /** A template without repeated variable names. */
  predicate DistinctVars(template: seq<Segment>)
  {
    forall i, j :: 0 <= i < j < |template| && template[i].Variable? && template[j].Variable? ==>
      template[i].name != template[j].name
  }

  /** The tail of a template without repeated names has none either, and
      does not bind the head's name again. */
  lemma DistinctTail(template: seq<Segment>)
    requires template != [] && DistinctVars(template)
    ensures DistinctVars(template[1..])
    ensures template[0].Variable? ==> template[0].name !in VarNames(template[1..])
  {
    var rest := template[1..];
    forall i, j | 0 <= i < j < |rest| && rest[i].Variable? && rest[j].Variable?
      ensures rest[i].name != rest[j].name
    {
      assert template[i + 1] == rest[i] && template[j + 1] == rest[j];
    }
    if template[0].Variable? {
      VarNamesIndexed(rest);
      forall j | 0 <= j < |rest| && rest[j].Variable? ensures rest[j].name != template[0].name {
        assert template[j + 1] == rest[j];
      }
    }
  }

  /** Round trip: instantiating a template with non-empty values gives a path
      that fits it and binds exactly those values. */
  lemma {:induction false} BindingsOfInstantiate(template: seq<Segment>, vars: map<string, string>)
    requires DistinctVars(template) && vars.Keys == VarNames(template)
    requires forall n :: n in vars ==> vars[n] != ""
    ensures Fits(template, Instantiate(template, vars))
    ensures Bindings(template, Instantiate(template, vars)) == vars
    decreases |template|
  {
    if template != [] {
      var rest := template[1..];
      var restVars := if template[0].Variable? then vars - {template[0].name} else vars;
      DistinctTail(template);
      BindingsOfInstantiate(rest, restVars);
      InstantiateAgrees(rest, restVars, vars);
      var path := Instantiate(template, vars);
      assert path[1..] == Instantiate(rest, vars);
    }
  }

  /** The other round trip: the variables a fitting path binds name that
      same path again. */
  lemma {:induction false} InstantiateOfBindings(template: seq<Segment>, path: seq<string>)
    requires Fits(template, path) && DistinctVars(template)
    ensures Instantiate(template, Bindings(template, path)) == path
    decreases |template|
  {
    if template != [] {
      var rest := template[1..];
      var restVars := Bindings(rest, path[1..]);
      assert Fits(rest, path[1..]) by {
        forall i | 0 <= i < |rest| ensures template[i + 1] == rest[i] && path[i + 1] == path[1..][i] {
        }
      }
      DistinctTail(template);
      InstantiateOfBindings(rest, path[1..]);
      InstantiateAgrees(rest, restVars, Bindings(template, path));
    }
  }

  /** A variable name of a template is the name of one of its segments. */
  lemma {:induction false} VarNamesIndexed(template: seq<Segment>)
    ensures forall n :: n in VarNames(template) <==>
              exists j :: 0 <= j < |template| && template[j].Variable? && template[j].name == n
    decreases |template|
  {
    if template != [] {
      VarNamesIndexed(template[1..]);
      forall n | n in VarNames(template)
        ensures exists j :: 0 <= j < |template| && template[j].Variable? && template[j].name == n
      {
        if !(template[0].Variable? && template[0].name == n) {
          assert n in VarNames(template[1..]);
          var j :| 0 <= j < |template[1..]| && template[1..][j].Variable? && template[1..][j].name == n;
          assert template[j + 1] == template[1..][j];
        }
      }
      forall n | exists j :: 0 <= j < |template| && template[j].Variable? && template[j].name == n
        ensures n in VarNames(template)
      {
        var j :| 0 <= j < |template| && template[j].Variable? && template[j].name == n;
        if j > 0 {
          assert template[1..][j - 1] == template[j];
        }
      }
    }
  }

  /** Instantiation reads only the template's own variables. */
  lemma {:induction false} InstantiateAgrees(template: seq<Segment>, v: map<string, string>, w: map<string, string>)
    requires VarNames(template) <= v.Keys && VarNames(template) <= w.Keys
    requires forall n :: n in VarNames(template) ==> v[n] == w[n]
    ensures Instantiate(template, v) == Instantiate(template, w)
    decreases |template|
  {
    if template != [] {
      InstantiateAgrees(template[1..], v, w);
    }
  }

  /** Route `k` accepts this verb and path. */
  predicate MatchesAt(k: nat, verb: HttpMethod, path: seq<string>)
    requires k < |RouteTable|
  {
    RouteTable[k].verb == verb && Fits(RouteTable[k].template, path)
  }

  /** The first registered route that accepts the request, if any. */
  function FirstRoute(verb: HttpMethod, path: seq<string>, start: nat := 0): (r: Option<nat>)
    requires start <= |RouteTable|
    ensures r.Some? ==> start <= r.value < |RouteTable| && MatchesAt(r.value, verb, path)
    ensures r.Some? ==> forall j :: start <= j < r.value ==> !MatchesAt(j, verb, path)
    ensures r.None? ==> forall j :: start <= j < |RouteTable| ==> !MatchesAt(j, verb, path)
    decreases |RouteTable| - start
  {
    if start == |RouteTable| then None
    else if MatchesAt(start, verb, path) then Some(start)
    else FirstRoute(verb, path, start + 1)
  }

  /** What a handler does with the request. */
  datatype Call =
    | Invoke(op: Operations.Op)
    | ServiceDescriptor
    | CatIndices(pattern: string)
    | GetAliasFromIndex(index: string)
    | ReadFailure

  /** A path variable as the router hands it over; absent names read as "". */
  function PathVar(vars: map<string, string>, name: string): (v: string)
    ensures name in vars ==> v == vars[name]
    ensures name !in vars ==> v == ""
  {
    if name in vars then vars[name] else ""
  }

  /** Each variable a fitting path binds is a non-empty segment of it. */
  lemma {:induction false} BindingsNonEmpty(template: seq<Segment>, path: seq<string>)
    requires Fits(template, path)
    ensures forall n :: n in Bindings(template, path) ==> Bindings(template, path)[n] != ""
    decreases |template|
  {
    if template != [] {
      assert Fits(template[1..], path[1..]) by {
        forall i | 0 <= i < |template[1..]| ensures template[i + 1] == template[1..][i] && path[i + 1] == path[1..][i] {
        }
      }
      BindingsNonEmpty(template[1..], path[1..]);
    }
  }

  /** On a routed request every variable the handler reads is bound, to a
      non-empty segment, so the "" default is never what a handler gets. */
  lemma RoutedPathVars(k: nat, path: seq<string>)
    requires k < |RouteTable| && Fits(RouteTable[k].template, path)
    ensures forall n :: n in HandlerReads(RouteTable[k].handler) ==>
              n in Bindings(RouteTable[k].template, path) && PathVar(Bindings(RouteTable[k].template, path), n) != ""
  {
    RouteTableLayout();
    BindingsNonEmpty(RouteTable[k].template, path);
  }

  /** The handler bodies: each reads its path variables and calls one
      operation with them; the search handler first reads the body and, when
      that fails, answers without calling the operation. The runtime's alias
      iteration order and the random `took` are passed through. */
  function HandlerCall(h: Handler, vars: map<string, string>, body: Result<Bytes, string>,
                       order: seq<string>, took: QueryFunctions.Took): (c: Call)
    ensures (c == ReadFailure) <==> (h == HandleSearchTemplate && body.Failure?)
  {
    match h
    case HandleRoot => ServiceDescriptor
    case HandleIndicesExists => Invoke(Operations.IndexExists(PathVar(vars, "indexName")))
    case HandleIndicesCreate => Invoke(Operations.CreateIndex(PathVar(vars, "indexName")))
    case HandleCatIndices => CatIndices(PathVar(vars, "indexNamePattern"))
    case HandleIndicesGetAliasFromIndex => GetAliasFromIndex(PathVar(vars, "indexName"))
    case HandleIndicesGetAlias => Invoke(Operations.GetAlias(PathVar(vars, "aliasName"), order))
    case HandleIndicesDelete => Invoke(Operations.DeleteIndex(PathVar(vars, "indexName")))
    case HandleIndicesDeleteAlias =>
      Invoke(Operations.DeleteAlias(PathVar(vars, "indexName"), PathVar(vars, "aliasName")))
    case HandleIndicesPutAlias =>
      Invoke(Operations.PutAlias(PathVar(vars, "indexName"), PathVar(vars, "aliasName")))
    case HandleSearchTemplate =>
      if body.Failure? then ReadFailure
      else Invoke(Operations.SearchTemplate(PathVar(vars, "indexName"), body.value, took))
  }

  /** Route the request and run the matched handler; None when no route matches. */
  function Dispatch(verb: HttpMethod, path: seq<string>, body: Result<Bytes, string>,
                    order: seq<string>, took: QueryFunctions.Took): Option<Call>
  {
    match FirstRoute(verb, path)
    case None => None
    case Some(k) =>
      var route := RouteTable[k];
      Some(HandlerCall(route.handler, Bindings(route.template, path), body, order, took))
  }

  /** A request no route accepts gets no handler; the read-failure answer
      comes from the search route alone, exactly when the body is unreadable. */
  lemma DispatchOutcomes(verb: HttpMethod, path: seq<string>, body: Result<Bytes, string>,
                         order: seq<string>, took: QueryFunctions.Took)
    ensures Dispatch(verb, path, body, order, took).None? <==>
              forall k :: 0 <= k < |RouteTable| ==> !MatchesAt(k, verb, path)
    ensures Dispatch(verb, path, body, order, took) == Some(ReadFailure) <==>
              body.Failure? && MatchesAt(9, verb, path)
  {
  }

  /** HEAD, PUT and DELETE on `/{index}` reach exists, create and delete with
      the index name unchanged. */
  lemma IndexRoutes(index: string, body: Result<Bytes, string>, order: seq<string>, took: QueryFunctions.Took)
    requires index != ""
    ensures Dispatch(HEAD, [index], body, order, took) == Some(Invoke(Operations.IndexExists(index)))
    ensures Dispatch(PUT, [index], body, order, took) == Some(Invoke(Operations.CreateIndex(index)))
    ensures Dispatch(DELETE, [index], body, order, took) == Some(Invoke(Operations.DeleteIndex(index)))
  {
    assert MatchesAt(1, HEAD, [index]) && MatchesAt(2, PUT, [index]) && MatchesAt(5, DELETE, [index]);
  }

  /** PUT and DELETE on `/{index}/_aliases/{alias}` reach bind and unbind with
      both names unchanged. */
  lemma AliasBindingRoutes(index: string, alias: string, body: Result<Bytes, string>,
                           order: seq<string>, took: QueryFunctions.Took)
    requires index != "" && alias != ""
    ensures Dispatch(PUT, [index, "_aliases", alias], body, order, took)
            == Some(Invoke(Operations.PutAlias(index, alias)))
    ensures Dispatch(DELETE, [index, "_aliases", alias], body, order, took)
            == Some(Invoke(Operations.DeleteAlias(index, alias)))
  {
    var path := [index, "_aliases", alias];
    assert MatchesAt(7, DELETE, path) && MatchesAt(8, PUT, path);
    assert !MatchesAt(2, PUT, path) && !MatchesAt(5, DELETE, path);
  }

  /** GET `/_alias/{alias}` reaches get-alias, except for the alias named
      `_alias`, which `/{index}/_alias`, registered first, also matches. */
  lemma AliasLookupRoutes(index: string, alias: string, body: Result<Bytes, string>,
                          order: seq<string>, took: QueryFunctions.Took)
    requires index != "" && alias != ""
    ensures alias != "_alias" ==>
              Dispatch(GET, ["_alias", alias], body, order, took) == Some(Invoke(Operations.GetAlias(alias, order)))
    ensures Dispatch(GET, [index, "_alias"], body, order, took) == Some(GetAliasFromIndex(index))
    ensures Dispatch(GET, ["_alias", "_alias"], body, order, took) == Some(GetAliasFromIndex("_alias"))
  {
    assert MatchesAt(4, GET, [index, "_alias"]);
    assert !MatchesAt(0, GET, [index, "_alias"]) && !MatchesAt(3, GET, [index, "_alias"]);
    if alias != "_alias" {
      var path := ["_alias", alias];
      assert MatchesAt(6, GET, path) && !MatchesAt(4, GET, path);
      assert !MatchesAt(0, GET, path) && !MatchesAt(3, GET, path);
    }
  }

  /** GET `/` and GET `/_cat/indices/{pattern}` reach their handlers. */
  lemma CatAndRootRoutes(pattern: string, body: Result<Bytes, string>, order: seq<string>, took: QueryFunctions.Took)
    requires pattern != ""
    ensures Dispatch(GET, [], body, order, took) == Some(ServiceDescriptor)
    ensures Dispatch(GET, ["_cat", "indices", pattern], body, order, took) == Some(CatIndices(pattern))
  {
    assert MatchesAt(0, GET, []);
    var path := ["_cat", "indices", pattern];
    assert MatchesAt(3, GET, path) && !MatchesAt(0, GET, path);
  }

  /** POST `/{index}/_search/template` reaches search-template with the index
      name and body unchanged; when the body cannot be read the handler
      answers on its own and no operation runs. */
  lemma SearchRoute(index: string, body: Result<Bytes, string>, order: seq<string>, took: QueryFunctions.Took)
    requires index != ""
    ensures body.Success? ==>
              Dispatch(POST, [index, "_search", "template"], body, order, took)
              == Some(Invoke(Operations.SearchTemplate(index, body.value, took)))
    ensures body.Failure? ==> Dispatch(POST, [index, "_search", "template"], body, order, took) == Some(ReadFailure)
  {
    assert MatchesAt(9, POST, [index, "_search", "template"]);
  }

  /** What a handler hands to the ResponseWriter: the status code, the
      headers it sets and the body. */
  datatype Wire = Wire(status: int, headers: map<string, string>, body: string)

  const ProductHeader: string := "X-Elastic-Product"

  /** The operation's status code and body go out with the product header;
      the status text is not written. */
  function WriteResponse(r: Response): (w: Wire)
    ensures w.status == r.statusCode && w.body == r.body
    ensures ProductHeader in w.headers && w.headers[ProductHeader] == "Elasticsearch"
    ensures w.headers.Keys == {ProductHeader}
  {
    Wire(r.statusCode, map[ProductHeader := "Elasticsearch"], r.body)
  }

  /** Responses that differ only in their status text reach the wire alike. */
  lemma StatusTextNotWritten(r: Response, text: string)
    ensures WriteResponse(r) == WriteResponse(r.(status := text))
  {
  }

  /** net/http's Error: a plain-text body of the message and a newline, under
      the given code, with exactly the two headers it sets. */
  function HttpError(message: string, code: int): (w: Wire)
    ensures w.status == code
    ensures |w.body| == |message| + 1 && w.body[..|message|] == message && w.body[|message|] == '\n'
    ensures w.headers.Keys == {"Content-Type", "X-Content-Type-Options"}
    ensures w.headers["Content-Type"] == "text/plain; charset=utf-8" && w.headers["X-Content-Type-Options"] == "nosniff"
  {
    Wire(code,
      map["Content-Type" := "text/plain; charset=utf-8", "X-Content-Type-Options" := "nosniff"],
      message + "\n")
  }

  /** The plain-text 400 the search handler sends when the body cannot be read. */
  const ReadFailureWire: Wire := HttpError("can't read body", 400)

  /** The read-failure answer is a 400 that, unlike every answer WriteResponse
      gives, carries no product header. */
  lemma ReadFailureWithoutProductHeader(r: Response)
    ensures ReadFailureWire.status == 400 && ReadFailureWire.body == "can't read body\n"
    ensures ProductHeader !in ReadFailureWire.headers && ProductHeader in WriteResponse(r).headers
    ensures ReadFailureWire != WriteResponse(r)
  {
  }
}
