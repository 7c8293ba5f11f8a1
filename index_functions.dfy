/** Index lifecycle: exists, create and delete, as functions of the store. */
module IndexFunctions {
  import opened Types

  /** HEAD on an index: 200 when the name is a key of `indices`, else 404. */
  function IndexExists(s: Store, index: string): (r: Response)
    ensures s.mock.Some? ==> r == s.mock.value
    ensures s.mock.None? ==> r.status == "" && r.body == ""
    ensures s.mock.None? ==> (r.statusCode == 200 <==> index in s.indices)
    ensures s.mock.None? ==> (r.statusCode == 404 <==> index !in s.indices)
  {
    if s.mock.Some? then s.mock.value
    else if index in s.indices then StatusOnly(200)
    else StatusOnly(404)
  }

  /** PUT on an index: binds the name to a fresh, empty attribute map and
      answers 200, whether or not the name was already present. The
      documents map is not touched. */
  function CreateIndex(s: Store, index: string): (o: Outcome)
    ensures s.mock.Some? ==> o == Outcome(s, s.mock.value)
    ensures s.mock.None? ==> o.response == StatusOnly(200)
    ensures s.mock.None? ==> o.next.indices.Keys == s.indices.Keys + {index}
    ensures s.mock.None? ==> o.next.indices[index] == map[]
    ensures forall k :: k in s.indices && k != index ==> k in o.next.indices && o.next.indices[k] == s.indices[k]
    ensures o.next.aliases == s.aliases && o.next.docs == s.docs && o.next.mock == s.mock
  {
    if s.mock.Some? then Outcome(s, s.mock.value)
    else Outcome(s.(indices := s.indices[index := map[]]), StatusOnly(200))
  }

  /** DELETE on an index: removes the name and answers 200, whether or not
      the name was present. */
  function DeleteIndex(s: Store, index: string): (o: Outcome)
    ensures s.mock.Some? ==> o == Outcome(s, s.mock.value)
    ensures s.mock.None? ==> o.response == StatusOnly(200)
    ensures s.mock.None? ==> o.next.indices.Keys == s.indices.Keys - {index}
    ensures forall k :: k in s.indices && k != index ==> k in o.next.indices && o.next.indices[k] == s.indices[k]
    ensures index !in s.indices ==> o.next == s
    ensures o.next.aliases == s.aliases && o.next.docs == s.docs && o.next.mock == s.mock
  {
    if s.mock.Some? then Outcome(s, s.mock.value)
    else Outcome(s.(indices := s.indices - {index}), StatusOnly(200))
  }

  /** Creating the same index twice leaves the same store as creating it once. */
  lemma CreateIndexIdempotent(s: Store, index: string)
    ensures CreateIndex(CreateIndex(s, index).next, index) == Outcome(CreateIndex(s, index).next, CreateIndex(s, index).response)
  {
  }

  /** Deleting an index that is absent changes nothing and still answers 200. */
  lemma DeleteAbsentIsNoop(s: Store, index: string)
    requires s.mock.None? && index !in s.indices
    ensures DeleteIndex(s, index) == Outcome(s, StatusOnly(200))
  {
  }

  /** Create, then exists, answers 200; delete, then exists, answers 404. */
  lemma CreateDeleteExists(s: Store, index: string)
    requires s.mock.None?
    ensures IndexExists(CreateIndex(s, index).next, index).statusCode == 200
    ensures IndexExists(DeleteIndex(s, index).next, index).statusCode == 404
    ensures IndexExists(DeleteIndex(CreateIndex(s, index).next, index).next, index).statusCode == 404
  {
  }
}
