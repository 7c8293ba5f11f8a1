/** Alias table operations. The table is keyed by index name and holds one
    alias per key; get looks an alias up by value, put overwrites, and delete
    removes a key only when it holds the given alias. */
module AliasFunctions {
  import opened Types

  /** `order` lists every key of `keys` exactly once: one possible order in
      which Go's runtime ranges over the alias map. */
  predicate Enumerates(order: seq<string>, keys: set<string>)
  {
    && (forall i :: 0 <= i < |order| ==> order[i] in keys)
    && (forall k :: k in keys ==> k in order)
    && (forall i, j :: 0 <= i < j < |order| ==> order[i] != order[j])
  }

  /** The body GetAlias builds: ranging over the keys in `order`, remember the
      last key whose alias equals `alias`; the empty string when none does. */
  function LastMatch(aliases: map<string, string>, order: seq<string>, alias: string): (k: string)
    ensures k == "" || (k in order && k in aliases && aliases[k] == alias)
    decreases |order|
  {
    if order == [] then ""
    else
      var key := order[|order| - 1];
      if key in aliases && aliases[key] == alias then key
      else LastMatch(aliases, order[..|order| - 1], alias)
  }

  /** Whenever some key listed in `order` holds `alias`, the body names a key
      that holds it (not necessarily `w` itself). */
  lemma {:induction false} LastMatchFinds(aliases: map<string, string>, order: seq<string>, alias: string, w: string)
    requires w in order && w in aliases && aliases[w] == alias
    ensures LastMatch(aliases, order, alias) in aliases
    ensures aliases[LastMatch(aliases, order, alias)] == alias
    decreases |order|
  {
    var key := order[|order| - 1];
    if !(key in aliases && aliases[key] == alias) {
      var prefix := order[..|order| - 1];
      assert order == prefix + [key];
      assert w in prefix;
      LastMatchFinds(aliases, prefix, alias, w);
    }
  }

  /** GET /_alias/{name}: the status says whether `name` is a KEY of the
      table, while the body is a key whose VALUE is `name`. */
  function GetAlias(s: Store, indexOrAlias: string, order: seq<string>): (r: Response)
    ensures s.mock.Some? ==> r == s.mock.value
    ensures s.mock.None? ==> r.status == ""
    ensures s.mock.None? ==> (r.statusCode == 200 <==> indexOrAlias in s.aliases)
    ensures s.mock.None? ==> (r.statusCode == 404 <==> indexOrAlias !in s.aliases)
    ensures s.mock.None? ==> r.body == "" || (r.body in s.aliases && s.aliases[r.body] == indexOrAlias)
  {
    if s.mock.Some? then s.mock.value
    else
      var code := if indexOrAlias in s.aliases then 200 else 404;
      Response(code, "", LastMatch(s.aliases, order, indexOrAlias))
  }

  /** With the runtime's order covering the whole table, the body is a key
      bound to the name exactly when one exists, and empty otherwise. */
  lemma GetAliasBody(s: Store, indexOrAlias: string, order: seq<string>)
    requires s.mock.None? && Enumerates(order, s.aliases.Keys)
    ensures (exists k :: k in s.aliases && s.aliases[k] == indexOrAlias) ==>
              var b := GetAlias(s, indexOrAlias, order).body; b in s.aliases && s.aliases[b] == indexOrAlias
    ensures !(exists k :: k in s.aliases && s.aliases[k] == indexOrAlias) ==>
              GetAlias(s, indexOrAlias, order).body == ""
  {
    if w :| w in s.aliases && s.aliases[w] == indexOrAlias {
      LastMatchFinds(s.aliases, order, indexOrAlias, w);
    }
  }

  /** PUT /{index}/_aliases/{alias}: binds `alias` to key `index`, replacing
      any previous alias of that key, and answers 200 without consulting the
      index names. */
  function PutAlias(s: Store, index: string, alias: string): (o: Outcome)
    ensures s.mock.Some? ==> o == Outcome(s, s.mock.value)
    ensures s.mock.None? ==> o.response == StatusOnly(200)
    ensures s.mock.None? ==> o.next.aliases.Keys == s.aliases.Keys + {index}
    ensures s.mock.None? ==> o.next.aliases[index] == alias
    ensures forall k :: k in s.aliases && k != index ==> k in o.next.aliases && o.next.aliases[k] == s.aliases[k]
    ensures o.next.indices == s.indices && o.next.docs == s.docs && o.next.mock == s.mock
  {
    if s.mock.Some? then Outcome(s, s.mock.value)
    else Outcome(s.(aliases := s.aliases[index := alias]), StatusOnly(200))
  }

  /** DELETE /{index}/_aliases/{alias}: 200 and the key removed exactly when
      key `index` holds `alias`; otherwise 404 and nothing changes. */
  function DeleteAlias(s: Store, index: string, alias: string): (o: Outcome)
    ensures s.mock.Some? ==> o == Outcome(s, s.mock.value)
    ensures s.mock.None? ==> o.response.status == "" && o.response.body == ""
    ensures s.mock.None? ==> (o.response.statusCode == 200 <==> index in s.aliases && s.aliases[index] == alias)
    ensures s.mock.None? && index in s.aliases && s.aliases[index] == alias ==>
              o.next.aliases.Keys == s.aliases.Keys - {index}
    ensures s.mock.None? && !(index in s.aliases && s.aliases[index] == alias) ==>
              o == Outcome(s, StatusOnly(404))
    ensures forall k :: k in s.aliases && k != index ==> k in o.next.aliases && o.next.aliases[k] == s.aliases[k]
    ensures o.next.indices == s.indices && o.next.docs == s.docs && o.next.mock == s.mock
  {
    if s.mock.Some? then Outcome(s, s.mock.value)
    else if index in s.aliases && s.aliases[index] == alias then
      Outcome(s.(aliases := s.aliases - {index}), StatusOnly(200))
    else Outcome(s, StatusOnly(404))
  }

  /** PutAlias answers the same whatever indices exist: two stores that differ
      only in their index names give the same response and alias table. */
  lemma PutAliasIgnoresIndices(s: Store, t: Store, index: string, alias: string)
    requires t == s.(indices := t.indices)
    ensures PutAlias(s, index, alias).response == PutAlias(t, index, alias).response
    ensures PutAlias(s, index, alias).next.aliases == PutAlias(t, index, alias).next.aliases
  {
  }

  /** After binding, the first matching delete answers 200 and a repeated one 404. */
  lemma PutThenDeleteTwice(s: Store, index: string, alias: string)
    requires s.mock.None?
    ensures var s1 := PutAlias(s, index, alias).next;
            var d1 := DeleteAlias(s1, index, alias);
            var d2 := DeleteAlias(d1.next, index, alias);
            d1.response.statusCode == 200 && d2.response.statusCode == 404 &&
            d1.next.aliases == s.aliases - {index} && d2.next == d1.next
  {
  }
}
