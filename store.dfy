/** The in-memory resource store behind the test server, as pure steps over
    its state: the data (resource type -> id -> resource) and the counter for
    generated ids.  Each step returns its answer and the new state. */
module Store {
  import opened Wrappers
  import opened GoStrings
  import opened Documents
  import opened Intents
  import opened Ordering

  /** The errors the store answers with: the status-400 and status-404 error
      values that the server builds with its BadRequest and NotFound helpers,
      kept as their kind and detail. */
  datatype Problem = BadRequest(detail: string) | NotFound(detail: string)

  type Data = map<string, map<string, Resource>>

  /** Go's `s.Data[t]`: the collection, or an empty one when there is none. */
  function Collection(data: Data, t: string): map<string, Resource> {
    if t in data then data[t] else map[]
  }

  /** Every stored resource is filed under its own type and id. */
  predicate Filed(data: Data) {
    forall t :: t in data ==> FiledUnder(data[t], t)
  }

  predicate FiledUnder(coll: map<string, Resource>, t: string) {
    forall id :: id in coll ==> coll[id].resourceType == t && coll[id].id == id
  }

  // ---------------------------------------------------------------------------
  // Configuration

  /** The configured prefix: a slash, then the prefix without its outer
      slashes. */
  function CleanPrefix(prefix: string): (p: string)
    ensures p != [] && p[0] == '/' && p[1..] == Trim(prefix, '/')
    ensures |p| > 1 ==> p[1] != '/' && p[|p| - 1] != '/'
  {
    "/" + Trim(prefix, '/')
  }

  /** Cleaning a clean prefix changes nothing. */
  lemma CleanPrefixIdempotent(prefix: string)
    ensures CleanPrefix(CleanPrefix(prefix)) == CleanPrefix(prefix)
  {
    var t := Trim(prefix, '/');
    if t == [] {
      assert CleanPrefix(prefix) == "/";
      assert Trim("/", '/') == [];
    } else {
      TrimLeading(t, '/');
      assert CleanPrefix(prefix) == ['/'] + t;
    }
  }

  /** The allow-list check: when types are configured, only those types are
      served. */
  function TypeCheck(types: seq<string>, resourceType: string): (problem: Option<Problem>)
    ensures problem.None? <==> |types| == 0 || resourceType in types
  {
    if |types| > 0 && resourceType !in types then Some(BadRequest("unsupported resource type")) else None
  }

  // ---------------------------------------------------------------------------
  // Relationship links

  /** The links of relationship `name` of `res`: the relationship itself under
      ".../relationships/name" and the related resource under ".../name". */
  function RelationshipLinks(prefix: string, res: Resource, name: string): DocumentLinks {
    var base := prefix + "/" + res.resourceType + "/" + res.id;
    EmptyLinks.(self := base + "/relationships/" + name, related := base + "/" + name)
  }

  function LinkedDocuments(prefix: string, res: Resource, rels: map<string, Document>): map<string, Document> {
    map name | name in rels :: rels[name].(links := Some(RelationshipLinks(prefix, res, name)))
  }

  /** `res` with the links of every relationship document set. */
  function Linked(prefix: string, res: Resource): Resource {
    match res.relationships
    case None => res
    case Some(rels) => res.(relationships := Some(LinkedDocuments(prefix, res, rels)))
  }

  /** Linking changes the links of the relationship documents and nothing
      else: the same type, id, attributes, meta and relationship names, and
      each document keeps its data, included resources, errors and meta. */
  lemma LinkedChangesOnlyLinks(prefix: string, res: Resource)
    ensures var r := Linked(prefix, res);
      && r.(relationships := None) == res.(relationships := None)
      && r.relationships.Some? == res.relationships.Some?
      && (r.relationships.Some? ==>
            && r.relationships.value.Keys == res.relationships.value.Keys
            && forall name :: name in r.relationships.value ==>
                 r.relationships.value[name] == res.relationships.value[name].(links := Some(RelationshipLinks(prefix, res, name))))
  {
  }

  /** Linking twice is linking once. */
  lemma LinkedIdempotent(prefix: string, res: Resource)
    ensures Linked(prefix, Linked(prefix, res)) == Linked(prefix, res)
  {
    var once := Linked(prefix, res);
    if res.relationships.Some? {
      var rels := res.relationships.value;
      var l1 := LinkedDocuments(prefix, res, rels);
      var l2 := LinkedDocuments(prefix, once, l1);
      assert RelationshipLinks(prefix, once, "") == RelationshipLinks(prefix, res, "");
      forall name | name in l1 ensures l2[name] == l1[name] {
        assert RelationshipLinks(prefix, once, name) == RelationshipLinks(prefix, res, name);
      }
      MapsEqual(l2, l1);
    }
  }

  /** The relationship link is the related-resource link with
      "relationships/" inserted before the name. */
  lemma RelationshipLinkShape(prefix: string, res: Resource, name: string)
    ensures var l := RelationshipLinks(prefix, res, name);
      var head := l.related[..|l.related| - |name|];
      && l.related == head + name
      && l.self == head + "relationships/" + name
      && head == prefix + "/" + res.resourceType + "/" + res.id + "/"
  {
    var l := RelationshipLinks(prefix, res, name);
    var head := prefix + "/" + res.resourceType + "/" + res.id + "/";
    assert l.related == head + name;
    assert l.related[..|l.related| - |name|] == head;
  }

  // ---------------------------------------------------------------------------
  // List

  /** The slice bounds of a list request: offset and end from the offset
      style, or from the page style when no offset is given and the page
      number is positive. */
  function Window(req: Request): (int, int) {
    if req.pageOffset == 0 && req.pageNumber > 0 then
      (req.pageNumber * req.pageSize, req.pageNumber * req.pageSize + req.pageSize)
    else
      (req.pageOffset, req.pageLimit)
  }

  /** Go slices `list[offset:end]` only after checking offset and end against
      the length; an end below the offset would still make it panic. */
  predicate SliceDefined(n: int, req: Request) {
    var (offset, end) := Window(req);
    offset > 0 && offset < n && end <= n ==> offset <= end
  }

  /** The page of `list` that a list request asks for. */
  function Paginate<T>(list: seq<T>, req: Request): (r: Result<seq<T>, Problem>)
    requires SliceDefined(|list|, req)
    ensures var (offset, end) := Window(req);
      r.Failure? <==> offset > 0 && (offset >= |list| || end > |list|)
    ensures r.Success? ==> r.value == if Window(req).0 > 0 then list[Window(req).0..Window(req).1] else list
  {
    var (offset, end) := Window(req);
    if offset > 0 && (offset >= |list| || end > |list|) then
      Failure(BadRequest("invalid pagination parameters"))
    else if offset > 0 then
      Success(list[offset..end])
    else
      Success(list)
  }

  /** Where a page starts in the list: at the offset when it is positive,
      else at the beginning. */
  function PageStart(req: Request): int {
    if Window(req).0 > 0 then Window(req).0 else 0
  }

  /** A page is a run of consecutive elements of the list from its start,
      and the whole list when there is no positive offset. */
  lemma PaginateIsRun<T>(list: seq<T>, req: Request)
    requires SliceDefined(|list|, req) && Paginate(list, req).Success?
    ensures var page := Paginate(list, req).value;
      var lo := PageStart(req);
      0 <= lo && lo + |page| <= |list| && page == list[lo..lo + |page|]
    ensures PageStart(req) > 0 ==> |Paginate(list, req).value| == Window(req).1 - Window(req).0
    ensures PageStart(req) == 0 ==> Paginate(list, req).value == list
  {
  }

  /** Page n of size s (numbered from 0) holds elements n*s up to n*s+s. */
  lemma PageOfSize<T>(list: seq<T>, req: Request)
    requires req.pageOffset == 0 && req.pageNumber > 0 && req.pageSize > 0
    requires (req.pageNumber + 1) * req.pageSize <= |list|
    ensures SliceDefined(|list|, req)
    ensures var lo := req.pageNumber * req.pageSize;
      Paginate(list, req) == Success(list[lo..lo + req.pageSize])
  {
    var lo := req.pageNumber * req.pageSize;
    assert lo >= req.pageSize;
    assert lo + req.pageSize == (req.pageNumber + 1) * req.pageSize;
  }

  /** A run of an ascending list is ascending and holds elements of the list. */
  lemma RunOfSorted(list: seq<Resource>, lo: int, hi: int)
    requires 0 <= lo <= hi <= |list| && StrictlySorted(IdsOf(list))
    ensures StrictlySorted(IdsOf(list[lo..hi]))
    ensures forall x :: x in list[lo..hi] ==> x in list
  {
    var page := list[lo..hi];
    forall i, j | 0 <= i < j < |page| ensures Less(IdsOf(page)[i], IdsOf(page)[j]) {
      assert IdsOf(list)[lo + i] == page[i].id && IdsOf(list)[lo + j] == page[j].id;
    }
  }

  /** Every listed page is in ascending order of id and holds resources of
      the collection only. */
  lemma ListedPageSorted(coll: map<string, Resource>, req: Request)
    requires FiledById(coll)
    requires SliceDefined(|coll|, req) && Paginate(Listing(coll), req).Success?
    ensures var page := Paginate(Listing(coll), req).value;
      && StrictlySorted(IdsOf(page))
      && forall x :: x in page ==> x in coll.Values
  {
    var list := Listing(coll);
    ListingIsSorted(coll);
    PaginateIsRun(list, req);
    var page := Paginate(list, req).value;
    var lo := PageStart(req);
    RunOfSorted(list, lo, lo + |page|);
  }

  // ---------------------------------------------------------------------------
  // Find, create, update, delete

  /** The resource the request names. */
  function Find(data: Data, t: string, id: string): (r: Result<Resource, Problem>)
    ensures r.Success? <==> t in data && id in data[t]
    ensures r.Success? ==> r.value == data[t][id]
    ensures r.Failure? ==> r.error == NotFound("unknown resource")
  {
    if t !in data then Failure(NotFound("unknown resource"))
    else if id !in data[t] then Failure(NotFound("unknown resource"))
    else Success(data[t][id])
  }

  /** The outcome of a create: the answer, then the new data and counter. */
  datatype Outcome<R> = Outcome(result: Result<R, Problem>, data: Data, counter: int)

  /** The outcome of an update or a delete: the answer and the new data. */
  datatype Changed<R> = Changed(result: Result<R, Problem>, data: Data)

  /** The resource a create request will store: the given one, with a
      generated id "s-N" when it has none, and its relationship links set. */
  function Prepared(prefix: string, res: Resource, counter: int): Resource {
    Linked(prefix, if res.id == "" then res.(id := "s-" + Itoa(counter + 1)) else res)
  }

  function Create(prefix: string, data: Data, counter: int, t: string, doc: Document): Outcome<Resource> {
    if doc.data.None? || doc.data.value.one.None? then
      Outcome(Failure(BadRequest("missing resource")), data, counter)
    else
      var res := doc.data.value.one.value;
      if res.resourceType != t then
        Outcome(Failure(BadRequest("resource type mismatch")), data, counter)
      else
        var counter' := if res.id == "" then counter + 1 else counter;
        var stored := Prepared(prefix, res, counter);
        var coll := Collection(data, t);
        if stored.id in coll then
          Outcome(Failure(BadRequest("conflicting resource")), data[t := coll], counter')
        else
          Outcome(Success(stored), data[t := coll[stored.id := stored]], counter')
  }

  function Update(prefix: string, data: Data, t: string, id: string, doc: Document): Changed<Resource> {
    if doc.data.None? || doc.data.value.one.None? then
      Changed(Failure(BadRequest("missing resource")), data)
    else
      var res := doc.data.value.one.value;
      if res.resourceType != t then
        Changed(Failure(BadRequest("resource type mismatch")), data)
      else if res.id != id then
        Changed(Failure(BadRequest("resource id mismatch")), data)
      else if t !in data || id !in data[t] then
        Changed(Failure(NotFound("unknown resource")), data)
      else
        var stored := Linked(prefix, res);
        Changed(Success(stored), data[t := data[t][id := stored]])
  }

  function Delete(data: Data, t: string, id: string): Changed<()> {
    if t !in data || id !in data[t] then
      Changed(Failure(NotFound("unknown resource")), data)
    else
      Changed(Success(()), data[t := data[t] - {id}])
  }

  // ---------------------------------------------------------------------------
  // Properties of the steps

  /** The checks of a create, in their order: a missing resource, then a type
      mismatch, then a conflict exactly when the prepared id is taken; every
      other create succeeds. */
  lemma CreateOutcome(prefix: string, data: Data, counter: int, t: string, doc: Document)
    ensures var o := Create(prefix, data, counter, t, doc);
      if doc.data.None? || doc.data.value.one.None? then
        o.result == Failure(BadRequest("missing resource"))
      else if doc.data.value.one.value.resourceType != t then
        o.result == Failure(BadRequest("resource type mismatch"))
      else
        && (o.result.Success? <==> Prepared(prefix, doc.data.value.one.value, counter).id !in Collection(data, t))
        && (o.result.Failure? ==> o.result.error == BadRequest("conflicting resource"))
  {
  }

  /** A created resource can be found under its type and id. */
  lemma CreateThenFind(prefix: string, data: Data, counter: int, t: string, doc: Document)
    requires Create(prefix, data, counter, t, doc).result.Success?
    ensures var o := Create(prefix, data, counter, t, doc);
      Find(o.data, t, o.result.value.id) == Success(o.result.value)
  {
  }

  /** A successful create adds exactly one entry, under a fresh id, and changes
      no other collection. */
  lemma CreateAddsOne(prefix: string, data: Data, counter: int, t: string, doc: Document)
    requires Create(prefix, data, counter, t, doc).result.Success?
    ensures var o := Create(prefix, data, counter, t, doc);
      var id := o.result.value.id;
      && id !in Collection(data, t)
      && Collection(o.data, t).Keys == Collection(data, t).Keys + {id}
      && (forall k :: k in Collection(data, t) ==> Collection(o.data, t)[k] == Collection(data, t)[k])
      && (forall u :: u != t ==> Collection(o.data, u) == Collection(data, u))
  {
  }

  /** A failed create leaves the data as it was; a conflict still spends a
      generated id. */
  lemma CreateFailureKeepsData(prefix: string, data: Data, counter: int, t: string, doc: Document)
    requires Create(prefix, data, counter, t, doc).result.Failure?
    ensures var o := Create(prefix, data, counter, t, doc);
      && o.data == data
      && (o.result.error != BadRequest("conflicting resource") ==> o.counter == counter)
      && (o.result.error == BadRequest("conflicting resource") ==>
            o.counter == if doc.data.value.one.value.id == "" then counter + 1 else counter)
  {
    var o := Create(prefix, data, counter, t, doc);
    if o.result.error == BadRequest("conflicting resource") {
      assert t in data;
      MapsEqual(data[t := data[t]], data);
    }
  }

  /** A resource without an id gets "s-" followed by the next counter value. */
  lemma CreateGeneratesId(prefix: string, data: Data, counter: int, t: string, doc: Document)
    requires doc.data.Some? && doc.data.value.one.Some?
    requires doc.data.value.one.value.resourceType == t && doc.data.value.one.value.id == ""
    ensures var o := Create(prefix, data, counter, t, doc);
      && o.counter == counter + 1
      && (o.result.Success? ==> o.result.value.id == "s-" + Itoa(counter + 1))
  {
  }

  /** Distinct counter values generate distinct ids. */
  lemma GeneratedIdsDistinct(m: int, n: int)
    requires m != n
    ensures "s-" + Itoa(m) != "s-" + Itoa(n)
  {
    if "s-" + Itoa(m) == "s-" + Itoa(n) {
      assert ("s-" + Itoa(m))[2..] == Itoa(m);
      assert ("s-" + Itoa(n))[2..] == Itoa(n);
      ItoaInjective(m, n);
    }
  }

  /** Create keeps every resource filed under its own type and id. */
  lemma CreateKeepsFiled(prefix: string, data: Data, counter: int, t: string, doc: Document)
    requires Filed(data)
    ensures Filed(Create(prefix, data, counter, t, doc).data)
  {
    var o := Create(prefix, data, counter, t, doc);
    if o.result.Success? {
      var r := o.result.value;
      assert r.resourceType == t;
      assert FiledUnder(Collection(data, t), t);
      assert FiledUnder(o.data[t], t);
    } else {
      CreateFailureKeepsData(prefix, data, counter, t, doc);
    }
  }

  /** The created resource appears in the listing of its type, which grows by
      one. */
  lemma ListAfterCreate(prefix: string, data: Data, counter: int, t: string, doc: Document)
    requires Filed(data) && Create(prefix, data, counter, t, doc).result.Success?
    ensures var o := Create(prefix, data, counter, t, doc);
      && o.result.value in Listing(Collection(o.data, t))
      && |Listing(Collection(o.data, t))| == |Listing(Collection(data, t))| + 1
  {
    var o := Create(prefix, data, counter, t, doc);
    var r := o.result.value;
    var coll := Collection(data, t);
    assert Collection(o.data, t) == coll[r.id := r];
    assert FiledUnder(coll, t);
    ListingAfterInsert(coll, r);
  }

  lemma ListingAfterInsert(coll: map<string, Resource>, r: Resource)
    requires r.id !in coll && FiledById(coll)
    ensures r in Listing(coll[r.id := r])
    ensures |Listing(coll[r.id := r])| == |Listing(coll)| + 1
  {
    var coll' := coll[r.id := r];
    assert FiledById(coll');
    ListingIsSorted(coll');
    assert r == coll'[r.id];
    assert coll'.Keys == coll.Keys + {r.id};
  }

  /** Update checks, in order: a resource is given, its type matches, its id
      matches, and the resource exists.  A successful update replaces that
      one entry; a failed one changes nothing. */
  lemma UpdateReplacesOne(prefix: string, data: Data, t: string, id: string, doc: Document)
    ensures var o := Update(prefix, data, t, id, doc);
      && (o.result.Failure? ==> o.data == data)
      && (o.result.Success? ==>
            && Find(data, t, id).Success?
            && o.result.value == Linked(prefix, doc.data.value.one.value)
            && Find(o.data, t, id) == o.result
            && Collection(o.data, t).Keys == Collection(data, t).Keys
            && (forall k :: k in Collection(data, t) && k != id ==> Collection(o.data, t)[k] == Collection(data, t)[k])
            && (forall u :: u != t ==> Collection(o.data, u) == Collection(data, u)))
  {
  }

  /** The checks of an update, in their order: a missing resource, then a
      type mismatch, then an id mismatch; after them the update succeeds
      exactly when the resource exists. */
  lemma UpdateOutcome(prefix: string, data: Data, t: string, id: string, doc: Document)
    ensures var o := Update(prefix, data, t, id, doc);
      if doc.data.None? || doc.data.value.one.None? then
        o.result == Failure(BadRequest("missing resource"))
      else if doc.data.value.one.value.resourceType != t then
        o.result == Failure(BadRequest("resource type mismatch"))
      else if doc.data.value.one.value.id != id then
        o.result == Failure(BadRequest("resource id mismatch"))
      else
        && (o.result.Success? <==> Find(data, t, id).Success?)
        && (o.result.Failure? ==> o.result.error == NotFound("unknown resource"))
  {
  }

  /** An update naming a missing resource is refused with NotFound only after
      the document checks pass. */
  lemma UpdateErrorOrder(prefix: string, data: Data, t: string, id: string, doc: Document)
    requires Find(data, t, id).Failure?
    ensures var o := Update(prefix, data, t, id, doc);
      o.result.Failure? &&
      (o.result.error == NotFound("unknown resource") <==>
         doc.data.Some? && doc.data.value.one.Some? &&
         doc.data.value.one.value.resourceType == t && doc.data.value.one.value.id == id)
  {
  }

  lemma UpdateKeepsFiled(prefix: string, data: Data, t: string, id: string, doc: Document)
    requires Filed(data)
    ensures Filed(Update(prefix, data, t, id, doc).data)
  {
    var o := Update(prefix, data, t, id, doc);
    if o.result.Success? {
      assert FiledUnder(data[t], t);
      assert FiledUnder(o.data[t], t);
    }
  }

  /** A successful delete removes exactly that entry; a failed one changes
      nothing.  The emptied collection stays in place. */
  lemma DeleteRemovesOne(data: Data, t: string, id: string)
    ensures var o := Delete(data, t, id);
      && (o.result.Success? <==> Find(data, t, id).Success?)
      && (o.result.Failure? ==> o.data == data && o.result.error == NotFound("unknown resource"))
      && (o.result.Success? ==>
            && Find(o.data, t, id).Failure?
            && t in o.data
            && Collection(o.data, t).Keys == Collection(data, t).Keys - {id}
            && (forall k :: k in Collection(o.data, t) ==> Collection(o.data, t)[k] == Collection(data, t)[k])
            && (forall u :: u != t ==> Collection(o.data, u) == Collection(data, u)))
  {
  }

  lemma DeleteKeepsFiled(data: Data, t: string, id: string)
    requires Filed(data)
    ensures Filed(Delete(data, t, id).data)
  {
    var o := Delete(data, t, id);
    if o.result.Success? {
      assert FiledUnder(data[t], t);
      assert FiledUnder(o.data[t], t);
    }
  }

  /** Deleting what was just created restores the data, except that the
      collection now exists even if it did not before. */
  lemma CreateThenDelete(prefix: string, data: Data, counter: int, t: string, doc: Document)
    requires Create(prefix, data, counter, t, doc).result.Success?
    ensures var o := Create(prefix, data, counter, t, doc);
      Delete(o.data, t, o.result.value.id).data == data[t := Collection(data, t)]
  {
    var o := Create(prefix, data, counter, t, doc);
    var id := o.result.value.id;
    var coll := Collection(data, t);
    assert id !in coll;
    MapsEqual(coll[id := o.result.value] - {id}, coll);
    MapsEqual(Delete(o.data, t, id).data, data[t := coll]);
  }
}
