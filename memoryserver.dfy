/** The in-memory JSON:API server for tests: a resource store guarded by a
    type allow-list, answering list, find, create, update and delete
    requests.  Writing the HTTP response is replaced by returning a
    `Response` value. */
module MemoryServer {
  import opened Wrappers
  import opened GoStrings
  import opened Documents
  import opened Intents
  import opened Ordering
  import opened Store

  /** What a request is answered with. */
  datatype Response =
    | Listed(resources: seq<Resource>)
    | Single(resource: Resource)
    | NoContent
    | Rejected(problem: Problem)
    | Undecodable(message: string)

  /** The first `i` resources are in ascending order of id and none of them
      has a larger id than a resource after them. */
  ghost predicate SelectedUpTo(s: seq<Resource>, i: int) {
    0 <= i <= |s| &&
    SortedById(s[..i]) &&
    forall p, q :: 0 <= p < i <= q < |s| ==> !Less(s[q].id, s[p].id)
  }

  /** Moving a least one of the remaining resources to position `i` extends
      the selected prefix by one. */
  lemma SelectStep(s: seq<Resource>, i: int, m: int)
    requires SelectedUpTo(s, i) && i <= m < |s|
    requires forall k :: i <= k < |s| ==> !Less(s[k].id, s[m].id)
    ensures SelectedUpTo(s[i := s[m]][m := s[i]], i + 1)
    ensures multiset(s[i := s[m]][m := s[i]]) == multiset(s)
  {
    var t := s[i := s[m]][m := s[i]];
    var u := t[..i + 1];
    forall p, q | 0 <= p < q < i + 1 ensures !Less(u[q].id, u[p].id) {
      if q < i {
        assert u[q] == s[..i][q] && u[p] == s[..i][p];
      }
    }
    forall p, q | 0 <= p < i + 1 <= q < |t| ensures !Less(t[q].id, t[p].id) {
      assert t[q] == s[if q == m then i else q];
    }
    SwapKeepsElements(s, i, m);
  }

  /** Sorts resources in place in ascending order of id, as `sort.Slice` with
      `list[i].ID < list[j].ID` does. */
  method SortById(a: array<Resource>)
    modifies a
    ensures SortedById(a[..])
    ensures multiset(a[..]) == multiset(old(a[..]))
  {
    var i := 0;
    while i < a.Length
      invariant SelectedUpTo(a[..], i)
      invariant multiset(a[..]) == multiset(old(a[..]))
    {
      var m := LeastFrom(a, i);
      ghost var before := a[..];
      a[i], a[m] := a[m], a[i];
      assert a[..] == before[i := before[m]][m := before[i]];
      SelectStep(before, i, m);
      i := i + 1;
    }
    assert a[..] == a[..a.Length];
  }

  /** The index of a resource with the least id among `a[lo..]`. */
  method LeastFrom(a: array<Resource>, lo: int) returns (m: int)
    requires 0 <= lo < a.Length
    ensures lo <= m < a.Length
    ensures forall k :: lo <= k < a.Length ==> !Less(a[k].id, a[m].id)
  {
    m := lo;
    LessIrreflexive(a[lo].id);
    for j := lo + 1 to a.Length
      invariant lo <= m < j
      invariant forall k :: lo <= k < j ==> !Less(a[k].id, a[m].id)
    {
      if Less(a[j].id, a[m].id) {
        forall k | lo <= k < j ensures !Less(a[k].id, a[j].id) {
          if Less(a[k].id, a[j].id) { LessTransitive(a[k].id, a[j].id, a[m].id); }
        }
        LessIrreflexive(a[j].id);
        m := j;
      }
    }
  }

  /** Exchanging two elements leaves the multiset of a sequence unchanged. */
  lemma SwapKeepsElements<T>(s: seq<T>, i: int, j: int)
    requires 0 <= i < |s| && 0 <= j < |s|
    ensures multiset(s[i := s[j]][j := s[i]]) == multiset(s)
  {
    if i < j {
      SwapApart(s, i, j);
    } else if j < i {
      assert s[i := s[j]][j := s[i]] == s[j := s[i]][i := s[j]];
      SwapApart(s, j, i);
    }
  }

  lemma SwapApart<T>(s: seq<T>, i: int, j: int)
    requires 0 <= i < j < |s|
    ensures multiset(s[i := s[j]][j := s[i]]) == multiset(s)
  {
    var t := s[i := s[j]][j := s[i]];
    assert s == s[..i] + [s[i]] + s[i + 1..j] + [s[j]] + s[j + 1..];
    assert t == s[..i] + [s[j]] + s[i + 1..j] + [s[i]] + s[j + 1..];
  }

  /** The answer to a request and the store after it. */
  datatype Step = Step(response: Response, data: Data, counter: int)

  /** The callers' side of answering a request: a document for the intents
      that carry one, and a listed page the collection can hold. */
  predicate Servable(data: Data, req: Request, document: Option<Result<Document, string>>) {
    (req.intent == CreateResource || req.intent == UpdateResource ==> document.Some?) &&
    (req.intent == ListResources ==> SliceDefined(|Collection(data, req.resourceType)|, req))
  }

  /** How the server answers a parsed request: the type allow-list first, then
      the decoding of the document, then the intent. */
  ghost function Answer(prefix: string, types: seq<string>, data: Data, counter: int,
                        req: Request, document: Option<Result<Document, string>>): Step
    requires Filed(data) && Servable(data, req, document)
  {
    var t := req.resourceType;
    if TypeCheck(types, t).Some? then Step(Rejected(TypeCheck(types, t).value), data, counter)
    else if document.Some? && document.value.Failure? then Step(Undecodable(document.value.error), data, counter)
    else match req.intent
      case ListResources =>
        var page := Paginate(Listing(Collection(data, t)), req);
        Step(if page.Success? then Listed(page.value) else Rejected(page.error), data, counter)
      case FindResource =>
        var found := Store.Find(data, t, req.resourceID);
        Step(if found.Success? then Single(found.value) else Rejected(found.error), data, counter)
      case CreateResource =>
        var o := Store.Create(prefix, data, counter, t, document.value.value);
        Step(if o.result.Success? then Single(o.result.value) else Rejected(o.result.error), o.data, o.counter)
      case UpdateResource =>
        var o := Store.Update(prefix, data, t, req.resourceID, document.value.value);
        Step(if o.result.Success? then Single(o.result.value) else Rejected(o.result.error), o.data, counter)
      case DeleteResource =>
        var o := Store.Delete(data, t, req.resourceID);
        Step(if o.result.Success? then NoContent else Rejected(o.result.error), o.data, counter)
      case _ =>
        Step(Rejected(BadRequest("unsupported request method")), data, counter)
  }

  /** A request for a type outside the allow-list is refused before anything
      else is looked at, and changes nothing. */
  lemma UnlistedTypeRefused(prefix: string, types: seq<string>, data: Data, counter: int,
                            req: Request, document: Option<Result<Document, string>>)
    requires Filed(data) && Servable(data, req, document)
    requires |types| > 0 && req.resourceType !in types
    ensures Answer(prefix, types, data, counter, req, document)
      == Step(Rejected(BadRequest("unsupported resource type")), data, counter)
  {
  }

  /** Only create, update and delete change the store, and only create moves
      the counter. */
  lemma ReadsChangeNothing(prefix: string, types: seq<string>, data: Data, counter: int,
                           req: Request, document: Option<Result<Document, string>>)
    requires Filed(data) && Servable(data, req, document)
    ensures var s := Answer(prefix, types, data, counter, req, document);
      (req.intent != CreateResource && req.intent != UpdateResource && req.intent != DeleteResource ==> s.data == data) &&
      (req.intent != CreateResource ==> s.counter == counter)
  {
  }

  /** Answering keeps every stored resource filed under its own type and id. */
  lemma AnswerKeepsFiled(prefix: string, types: seq<string>, data: Data, counter: int,
                         req: Request, document: Option<Result<Document, string>>)
    requires Filed(data) && Servable(data, req, document)
    ensures Filed(Answer(prefix, types, data, counter, req, document).data)
  {
    if document.Some? && document.value.Success? {
      CreateKeepsFiled(prefix, data, counter, req.resourceType, document.value.value);
      UpdateKeepsFiled(prefix, data, req.resourceType, req.resourceID, document.value.value);
    }
    DeleteKeepsFiled(data, req.resourceType, req.resourceID);
  }

  /** A listing answer holds resources of the requested type, each under its
      own id, in strictly ascending order of id. */
  lemma ListedAnswerSorted(prefix: string, types: seq<string>, data: Data, counter: int,
                           req: Request, document: Option<Result<Document, string>>)
    requires Filed(data) && Servable(data, req, document)
    requires Answer(prefix, types, data, counter, req, document).response.Listed?
    ensures var page := Answer(prefix, types, data, counter, req, document).response.resources;
      StrictlySorted(IdsOf(page)) &&
      forall x :: x in page ==> x.resourceType == req.resourceType && x in Collection(data, req.resourceType).Values
  {
    var coll := Collection(data, req.resourceType);
    ListedOnlyWhenListing(prefix, types, data, counter, req, document);
    assert FiledUnder(coll, req.resourceType);
    ListedPageSorted(coll, req);
  }

  /** Only a listing request is answered with a list: the requested page of
      the collection's listing. */
  lemma ListedOnlyWhenListing(prefix: string, types: seq<string>, data: Data, counter: int,
                              req: Request, document: Option<Result<Document, string>>)
    requires Filed(data) && Servable(data, req, document)
    requires Answer(prefix, types, data, counter, req, document).response.Listed?
    ensures req.intent == ListResources
    ensures var page := Paginate(Listing(Collection(data, req.resourceType)), req);
      page.Success? && Answer(prefix, types, data, counter, req, document).response.resources == page.value
  {
  }

  /** The resources of a collection in the order a map range visits them:
      each exactly once. */
  method Gather(coll: map<string, Resource>) returns (items: seq<Resource>)
    requires FiledById(coll)
    ensures forall k :: 0 <= k < |items| ==> items[k].id in coll && coll[items[k].id] == items[k]
    ensures forall id :: id in coll ==> coll[id] in items
    ensures forall x :: multiset(items)[x] <= 1
  {
    items := [];
    var seen: set<string> := {};
    while seen != coll.Keys
      invariant seen <= coll.Keys
      invariant forall k :: 0 <= k < |items| ==> items[k].id in seen && coll[items[k].id] == items[k]
      invariant forall id :: id in seen ==> coll[id] in items
      invariant forall x :: multiset(items)[x] <= 1
      decreases coll.Keys - seen
    {
      var id :| id in coll && id !in seen;
      assert coll[id] !in items;
      items := items + [coll[id]];
      seen := seen + {id};
    }
  }

  /** The pagination step of listing: the window of the request, refused
      when it starts inside but does not fit the list. */
  method Page(list: array<Resource>, req: Request) returns (r: Result<seq<Resource>, Problem>)
    requires SliceDefined(list.Length, req)
    ensures r == Paginate(list[..], req)
  {
    // get offset and limit
    var offset := req.pageOffset;
    var limit := req.pageLimit;
    if offset == 0 && req.pageNumber > 0 {
      offset := req.pageNumber * req.pageSize;
      limit := offset + req.pageSize;
    }

    // check offset and limit
    if offset > 0 && (offset >= list.Length || limit > list.Length) {
      return Failure(BadRequest("invalid pagination parameters"));
    }

    // apply pagination
    if offset > 0 {
      return Success(list[offset..limit]);
    }
    return Success(list[..]);
  }

  class Server {
    /** The URL prefix of the links the server writes. */
    const prefix: string
    /** The resource types served; every type when empty. */
    const types: seq<string>
    var data: Data
    var counter: int

    /** Every stored resource is filed under its own type and id. */
    ghost predicate Valid()
      reads this
    {
      Filed(data)
    }

    /** NewServer: an empty store with the cleaned prefix. */
    constructor (configPrefix: string, configTypes: seq<string>)
      ensures prefix == CleanPrefix(configPrefix) && types == configTypes
      ensures data == map[] && counter == 0
      ensures Valid()
    {
      prefix := "/" + Trim(configPrefix, '/');
      types := configTypes;
      data := map[];
      counter := 0;
    }

    /** The allow-list check of a request's resource type. */
    method CheckType(resourceType: string) returns (problem: Option<Problem>)
      ensures problem == TypeCheck(types, resourceType)
    {
      if |types| > 0 {
        var ok := false;
        for i := 0 to |types|
          invariant ok <==> resourceType in types[..i]
        {
          assert types[..i + 1] == types[..i] + [types[i]];
          if resourceType == types[i] {
            ok := true;
          }
        }
        assert types[..|types|] == types;
        if !ok {
          return Some(BadRequest("unsupported resource type"));
        }
      }
      return None;
    }

    /** Sets the links of every relationship document of `res`. */
    method LinkRelationships(res: Resource) returns (r: Resource)
      ensures r == Linked(prefix, res)
    {
      if res.relationships.None? {
        return res;
      }
      var rels := res.relationships.value;
      var out := rels;
      var seen: set<string> := {};
      while seen != rels.Keys
        invariant seen <= rels.Keys && out.Keys == rels.Keys
        invariant forall name :: name in rels ==>
          out[name] == if name in seen then rels[name].(links := Some(RelationshipLinks(prefix, res, name))) else rels[name]
        decreases rels.Keys - seen
      {
        var name :| name in rels && name !in seen;
        out := out[name := out[name].(links := Some(RelationshipLinks(prefix, res, name)))];
        seen := seen + {name};
      }
      MapsEqual(out, LinkedDocuments(prefix, res, rels));
      return res.(relationships := Some(out));
    }

    /** The resources of the requested type in ascending order of id, cut to
      the requested page. */
    method List(req: Request) returns (r: Result<seq<Resource>, Problem>)
      requires Valid()
      requires SliceDefined(|Collection(data, req.resourceType)|, req)
      ensures r == Paginate(Listing(Collection(data, req.resourceType)), req)
    {
      // get resources from collection
      var coll := Collection(data, req.resourceType);
      assert FiledUnder(coll, req.resourceType);
      var items := Gather(coll);

      // sort list
      var list := new Resource[|items|](k requires 0 <= k < |items| => items[k]);
      assert list[..] == items;
      SortById(list);
      ArrangementIsListing(coll, items, list[..]);

      assert list[..] == Listing(coll);
      r := Page(list, req);
    }

    /** The resource the request names. */
    method Find(req: Request) returns (r: Result<Resource, Problem>)
      ensures r == Store.Find(data, req.resourceType, req.resourceID)
    {
      if req.resourceType !in data {
        return Failure(NotFound("unknown resource"));
      }
      var coll := data[req.resourceType];
      if req.resourceID !in coll {
        return Failure(NotFound("unknown resource"));
      }
      return Success(coll[req.resourceID]);
    }

    /** Stores the resource of `doc` under the requested type. */
    method Create(req: Request, doc: Document) returns (r: Result<Resource, Problem>)
      modifies this
      ensures Outcome(r, data, counter) == Store.Create(prefix, old(data), old(counter), req.resourceType, doc)
      ensures old(Valid()) ==> Valid()
    {
      if Valid() {
        CreateKeepsFiled(prefix, data, counter, req.resourceType, doc);
      }

      // check document
      if doc.data.None? || doc.data.value.one.None? {
        return Failure(BadRequest("missing resource"));
      }
      var res := doc.data.value.one.value;

      // check type
      if res.resourceType != req.resourceType {
        return Failure(BadRequest("resource type mismatch"));
      }

      // check id
      var next := counter;
      var stored := res;
      if res.id == "" {
        next := counter + 1;
        stored := res.(id := "s-" + Itoa(next));
      }

      // link relationships
      stored := LinkRelationships(stored);
      assert stored == Prepared(prefix, res, counter);

      // get collection
      var coll := Collection(data, req.resourceType);
      counter := next;

      // check existence
      if stored.id in coll {
        data := data[req.resourceType := coll];
        return Failure(BadRequest("conflicting resource"));
      }

      // store resource
      data := data[req.resourceType := coll[stored.id := stored]];
      return Success(stored);
    }

    /** Replaces the named resource by the resource of `doc`. */
    method Update(req: Request, doc: Document) returns (r: Result<Resource, Problem>)
      modifies this
      ensures Changed(r, data) == Store.Update(prefix, old(data), req.resourceType, req.resourceID, doc)
      ensures counter == old(counter)
      ensures old(Valid()) ==> Valid()
    {
      if Valid() {
        UpdateKeepsFiled(prefix, data, req.resourceType, req.resourceID, doc);
      }

      // check document
      if doc.data.None? || doc.data.value.one.None? {
        return Failure(BadRequest("missing resource"));
      }
      var res := doc.data.value.one.value;

      // check type
      if res.resourceType != req.resourceType {
        return Failure(BadRequest("resource type mismatch"));
      }

      // check id
      if res.id != req.resourceID {
        return Failure(BadRequest("resource id mismatch"));
      }

      // link relationships
      res := LinkRelationships(res);

      // get collection
      if req.resourceType !in data {
        return Failure(NotFound("unknown resource"));
      }
      var coll := data[req.resourceType];

      // get resource
      if req.resourceID !in coll {
        return Failure(NotFound("unknown resource"));
      }

      // update resource
      data := data[req.resourceType := coll[req.resourceID := res]];
      return Success(res);
    }

    /** Removes the named resource. */
    method Delete(req: Request) returns (r: Result<(), Problem>)
      modifies this
      ensures Changed(r, data) == Store.Delete(old(data), req.resourceType, req.resourceID)
      ensures counter == old(counter)
      ensures old(Valid()) ==> Valid()
    {
      if Valid() {
        DeleteKeepsFiled(data, req.resourceType, req.resourceID);
      }

      // get collection
      if req.resourceType !in data {
        return Failure(NotFound("unknown resource"));
      }
      var coll := data[req.resourceType];

      // check resource
      if req.resourceID !in coll {
        return Failure(NotFound("unknown resource"));
      }

      // delete resource
      data := data[req.resourceType := coll - {req.resourceID}];
      return Success(());
    }

    /** Answers one parsed request, as the HTTP handler does once it holds
        the mutex. */
    method Serve(req: Request, document: Option<Result<Document, string>>) returns (response: Response)
      requires Valid() && Servable(data, req, document)
      modifies this
      ensures Step(response, data, counter) == Answer(prefix, types, old(data), old(counter), req, document)
      ensures Valid()
    {
      AnswerKeepsFiled(prefix, types, data, counter, req, document);

      // check resource type if list is given
      var problem := CheckType(req.resourceType);
      if problem.Some? {
        return Rejected(problem.value);
      }

      // parse document
      if document.Some? && document.value.Failure? {
        return Undecodable(document.value.error);
      }

      // handle intent
      var r: Result<Response, Problem>;
      match req.intent {
        case ListResources =>
          var page := List(req);
          r := if page.Success? then Success(Listed(page.value)) else Failure(page.error);
        case FindResource =>
          var found := Find(req);
          r := if found.Success? then Success(Single(found.value)) else Failure(found.error);
        case CreateResource =>
          var created := Create(req, document.value.value);
          r := if created.Success? then Success(Single(created.value)) else Failure(created.error);
        case UpdateResource =>
          var updated := Update(req, document.value.value);
          r := if updated.Success? then Success(Single(updated.value)) else Failure(updated.error);
        case DeleteResource =>
          var deleted := Delete(req);
          r := if deleted.Success? then Success(NoContent) else Failure(deleted.error);
        case _ =>
          r := Failure(BadRequest("unsupported request method"));
      }
      response := if r.Success? then r.value else Rejected(r.error);
    }
  }
}
