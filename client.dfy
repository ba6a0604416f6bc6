/** The low-level JSON:API client: configuration normalisation, the merging
    of additional requests into a base request, and the classification of a
    server's answer into a document, an error or nothing.  The HTTP
    transport is replaced by an `Exchange` value. */
module Client {
  import opened Wrappers
  import opened GoStrings
  import opened Errors
  import opened Documents
  import opened Intents

  // ---------------------------------------------------------------------------
  // Configuration

  /** The client's configuration; the authorizer callback is not part of the
      model. */
  datatype ClientConfig = ClientConfig(baseURI: string, responseLimit: int)

  /** The response limit used when none is configured. */
  const DefaultResponseLimit: int := 8192

  /** NewClientWithClient: one trailing slash is dropped from the base URI and
      a zero response limit becomes the default. */
  function NewClient(config: ClientConfig): (c: ClientConfig)
    ensures HasSuffix(config.baseURI, "/") ==> c.baseURI + "/" == config.baseURI
    ensures !HasSuffix(config.baseURI, "/") ==> c.baseURI == config.baseURI
    ensures c.responseLimit != 0
    ensures config.responseLimit != 0 ==> c.responseLimit == config.responseLimit
    ensures config.responseLimit == 0 ==> c.responseLimit == DefaultResponseLimit
  {
    ClientConfig(TrimSuffix(config.baseURI, "/"),
                 if config.responseLimit == 0 then DefaultResponseLimit else config.responseLimit)
  }

  /** Normalising twice changes nothing unless the base URI ends in two
      slashes. */
  lemma NewClientIdempotent(config: ClientConfig)
    requires !HasSuffix(config.baseURI, "//")
    ensures NewClient(NewClient(config)) == NewClient(config)
  {
    var u := config.baseURI;
    if HasSuffix(u, "/") {
      var t := NewClient(config).baseURI;
      assert u == t + "/";
      assert |t| > 0 ==> u[|u| - 2..] == [t[|t| - 1], '/'];
    }
  }

  /** Only one slash is dropped: "a//" becomes "a/", and a second normalisation
      would drop another. */
  lemma NewClientTrimsOnce()
    ensures NewClient(ClientConfig("a//", 0)).baseURI == "a/"
    ensures NewClient(NewClient(ClientConfig("a//", 0))).baseURI == "a"
  {
    assert HasSuffix("a//", "/");
    assert HasSuffix("a/", "/");
  }

  // ---------------------------------------------------------------------------
  // Merging requests

  /** The entry of an optional map, empty where the key or the map is missing. */
  function Entry(m: Options, k: string): seq<string> {
    if m.Some? && k in m.value then m.value[k] else []
  }

  /** The lists of two maps joined key by key. */
  function MergeMaps(a: map<string, seq<string>>, b: map<string, seq<string>>): map<string, seq<string>> {
    map k | k in a.Keys + b.Keys :: Entry(Some(a), k) + Entry(Some(b), k)
  }

  /** The options of a merged request: unchanged when the incoming map is
      empty, joined key by key otherwise.  A missing base map is taken to be
      empty and created. */
  function MergeOptions(base: Options, extra: Options): (m: Options)
    ensures forall k :: Entry(m, k) == Entry(base, k) + Entry(extra, k)
    ensures base.Some? ==> m.Some?
  {
    if Size(extra) == 0 then base else Some(MergeMaps(base.GetOr(map[]), extra.value))
  }

  /** One additional request merged into the request built so far. */
  function MergeOne(req: Request, r: Request): Request {
    req.(
      includes := req.includes + r.includes,
      pageNumber := if r.pageNumber > 0 then r.pageNumber else req.pageNumber,
      pageSize := if r.pageSize > 0 then r.pageSize else req.pageSize,
      pageOffset := if r.pageOffset > 0 then r.pageOffset else req.pageOffset,
      pageLimit := if r.pageLimit > 0 then r.pageLimit else req.pageLimit,
      sorting := req.sorting + r.sorting,
      fields := MergeOptions(req.fields, r.fields),
      filters := MergeOptions(req.filters, r.filters))
  }

  /** The additional requests merged into the base one after the other. */
  function Merged(req: Request, reqs: seq<Request>): Request
    decreases |reqs|
  {
    if reqs == [] then req else MergeOne(Merged(req, reqs[..|reqs| - 1]), reqs[|reqs| - 1])
  }

  /** The Go code writes into the base request's field and filter maps; a
      nil map there must not receive an entry. */
  predicate Mergeable(req: Request, reqs: seq<Request>) {
    (req.fields.None? ==> forall j :: 0 <= j < |reqs| ==> Size(reqs[j].fields) == 0) &&
    (req.filters.None? ==> forall j :: 0 <= j < |reqs| ==> Size(reqs[j].filters) == 0)
  }

  /** Joins `extra` into `base` key by key, appending where the existing list
      is non-empty and setting the incoming list otherwise. */
  method MergeInto(base: map<string, seq<string>>, extra: map<string, seq<string>>) returns (m: map<string, seq<string>>)
    ensures m == MergeMaps(base, extra)
  {
    m := base;
    var seen: set<string> := {};
    while seen != extra.Keys
      invariant seen <= extra.Keys
      invariant m.Keys == base.Keys + seen
      invariant forall k :: k in m ==> m[k] == Entry(Some(base), k) + (if k in seen then extra[k] else [])
      decreases extra.Keys - seen
    {
      var k :| k in extra && k !in seen;
      if k in m && |m[k]| > 0 {
        m := m[k := m[k] + extra[k]];
      } else {
        m := m[k := extra[k]];
      }
      seen := seen + {k};
    }
    MapsEqual(m, MergeMaps(base, extra));
  }

  /** mergeRequests: folds the additional requests into the base request in
      argument order. */
  method MergeRequests(req: Request, reqs: seq<Request>) returns (r: Request)
    requires Mergeable(req, reqs)
    ensures r == Merged(req, reqs)
  {
    r := req;
    for i := 0 to |reqs|
      invariant r == Merged(req, reqs[..i])
      invariant req.fields.Some? ==> r.fields.Some?
      invariant req.filters.Some? ==> r.filters.Some?
    {
      assert reqs[..i + 1][..i] == reqs[..i];
      r := MergeStep(r, reqs[i]);
    }
    assert reqs[..|reqs|] == reqs;
  }

  /** The fields or filters step of one pass: nothing happens unless the
      incoming map has entries. */
  method MergeOptionsInto(base: Options, extra: Options) returns (m: Options)
    requires Size(extra) > 0 ==> base.Some?
    ensures m == MergeOptions(base, extra)
  {
    m := base;
    if Size(extra) > 0 {
      var merged := MergeInto(base.value, extra.value);
      m := Some(merged);
    }
  }

  /** One pass of the merging loop. */
  method MergeStep(req: Request, x: Request) returns (r: Request)
    requires Size(x.fields) > 0 ==> req.fields.Some?
    requires Size(x.filters) > 0 ==> req.filters.Some?
    ensures r == MergeOne(req, x)
  {
    // check include
    var includes := req.includes;
    if |x.includes| != 0 {
      includes := includes + x.includes;
    }
    assert includes == req.includes + x.includes;

    // check pagination
    var number, size, offset, limit := req.pageNumber, req.pageSize, req.pageOffset, req.pageLimit;
    if x.pageNumber > 0 {
      number := x.pageNumber;
    }
    if x.pageSize > 0 {
      size := x.pageSize;
    }
    if x.pageOffset > 0 {
      offset := x.pageOffset;
    }
    if x.pageLimit > 0 {
      limit := x.pageLimit;
    }

    // check sorting
    var sorting := req.sorting;
    if |x.sorting| > 0 {
      sorting := sorting + x.sorting;
    }
    assert sorting == req.sorting + x.sorting;

    // check fields
    var fields := MergeOptionsInto(req.fields, x.fields);

    // check filters
    var filters := MergeOptionsInto(req.filters, x.filters);

    r := req.(includes := includes, pageNumber := number, pageSize := size, pageOffset := offset,
              pageLimit := limit, sorting := sorting, fields := fields, filters := filters);
  }

  /** The lists of a sequence of lists, one after the other. */
  function Flatten(ss: seq<seq<string>>): seq<string>
    decreases |ss|
  {
    if ss == [] then [] else ss[0] + Flatten(ss[1..])
  }

  lemma {:induction false} FlattenSnoc(ss: seq<seq<string>>, s: seq<string>)
    ensures Flatten(ss + [s]) == Flatten(ss) + s
    decreases |ss|
  {
    if ss == [] {
      assert [s][1..] == [];
    } else {
      assert (ss + [s])[1..] == ss[1..] + [s];
      FlattenSnoc(ss[1..], s);
    }
  }

  /** The query options a request carries, named so that one statement can
      speak of each of them. */
  datatype ListOption = Include | Sort
  datatype PageOption = PageNumber | PageSize | PageOffset | PageLimit
  datatype MapOption = Fields | Filters

  function ListOf(r: Request, o: ListOption): seq<string> {
    match o
    case Include => r.includes
    case Sort => r.sorting
  }

  function PageOf(r: Request, o: PageOption): int {
    match o
    case PageNumber => r.pageNumber
    case PageSize => r.pageSize
    case PageOffset => r.pageOffset
    case PageLimit => r.pageLimit
  }

  function MapOf(r: Request, o: MapOption): Options {
    match o
    case Fields => r.fields
    case Filters => r.filters
  }

  /** The given option of every request, in order. */
  function Lists(reqs: seq<Request>, o: ListOption): (l: seq<seq<string>>)
    ensures |l| == |reqs| && forall i :: 0 <= i < |reqs| ==> l[i] == ListOf(reqs[i], o)
    decreases |reqs|
  {
    if reqs == [] then [] else Lists(reqs[..|reqs| - 1], o) + [ListOf(reqs[|reqs| - 1], o)]
  }

  function Pages(reqs: seq<Request>, o: PageOption): (l: seq<int>)
    ensures |l| == |reqs| && forall i :: 0 <= i < |reqs| ==> l[i] == PageOf(reqs[i], o)
    decreases |reqs|
  {
    if reqs == [] then [] else Pages(reqs[..|reqs| - 1], o) + [PageOf(reqs[|reqs| - 1], o)]
  }

  function Entries(reqs: seq<Request>, o: MapOption, k: string): (l: seq<seq<string>>)
    ensures |l| == |reqs| && forall i :: 0 <= i < |reqs| ==> l[i] == Entry(MapOf(reqs[i], o), k)
    decreases |reqs|
  {
    if reqs == [] then [] else Entries(reqs[..|reqs| - 1], o, k) + [Entry(MapOf(reqs[|reqs| - 1], o), k)]
  }

  /** The value of the last positive element, or `base` when there is none. */
  function LastPositive(base: int, values: seq<int>): int
    decreases |values|
  {
    if values == [] then base else LastPositive(if values[0] > 0 then values[0] else base, values[1..])
  }

  lemma {:induction false} LastPositiveSnoc(base: int, values: seq<int>, v: int)
    ensures LastPositive(base, values + [v]) == if v > 0 then v else LastPositive(base, values)
    decreases |values|
  {
    if values == [] {
      assert [v][1..] == [];
    } else {
      assert (values + [v])[1..] == values[1..] + [v];
      LastPositiveSnoc(if values[0] > 0 then values[0] else base, values[1..], v);
    }
  }

  /** LastPositive returns the last positive value. */
  lemma {:induction false} LastPositiveIsLast(base: int, values: seq<int>, j: int)
    requires 0 <= j < |values| && values[j] > 0
    requires forall k :: j < k < |values| ==> values[k] <= 0
    ensures LastPositive(base, values) == values[j]
    decreases |values|
  {
    if j > 0 {
      LastPositiveIsLast(if values[0] > 0 then values[0] else base, values[1..], j - 1);
    } else {
      LastPositiveOfNone(values[0], values[1..]);
    }
  }

  /** LastPositive returns the base when no value is positive. */
  lemma {:induction false} LastPositiveOfNone(base: int, values: seq<int>)
    requires forall k :: 0 <= k < |values| ==> values[k] <= 0
    ensures LastPositive(base, values) == base
    decreases |values|
  {
    if values != [] {
      LastPositiveOfNone(base, values[1..]);
    }
  }

  /** Merging never changes the intent or the location of the base request,
      and merging nothing returns the base request. */
  lemma {:induction false} MergedKeepsLocation(req: Request, reqs: seq<Request>)
    ensures var r := Merged(req, reqs);
      r.intent == req.intent && r.resourceType == req.resourceType && r.resourceID == req.resourceID &&
      r.relatedResource == req.relatedResource && r.relationship == req.relationship
    ensures reqs == [] ==> Merged(req, reqs) == req
    decreases |reqs|
  {
    if reqs != [] {
      MergedKeepsLocation(req, reqs[..|reqs| - 1]);
    }
  }

  /** Includes and sort keys of the merged request are those of the base
      followed by those of every additional request in argument order. */
  lemma {:induction false} MergedConcatenates(req: Request, reqs: seq<Request>, o: ListOption)
    ensures ListOf(Merged(req, reqs), o) == ListOf(req, o) + Flatten(Lists(reqs, o))
    decreases |reqs|
  {
    if reqs != [] {
      var front := reqs[..|reqs| - 1];
      MergedConcatenates(req, front, o);
      FlattenSnoc(Lists(front, o), ListOf(reqs[|reqs| - 1], o));
    }
  }

  /** Each page parameter of the merged request is the last positive one
      among the additional requests, or the base's when none is positive. */
  lemma {:induction false} MergedPages(req: Request, reqs: seq<Request>, o: PageOption)
    ensures PageOf(Merged(req, reqs), o) == LastPositive(PageOf(req, o), Pages(reqs, o))
    decreases |reqs|
  {
    if reqs != [] {
      var front := reqs[..|reqs| - 1];
      MergedPages(req, front, o);
      LastPositiveSnoc(PageOf(req, o), Pages(front, o), PageOf(reqs[|reqs| - 1], o));
    }
  }

  /** Under every key, the fields and filters of the merged request are those
      of the base followed by those of every additional request in argument
      order. */
  lemma {:induction false} MergedOptions(req: Request, reqs: seq<Request>, o: MapOption, k: string)
    ensures Entry(MapOf(Merged(req, reqs), o), k) == Entry(MapOf(req, o), k) + Flatten(Entries(reqs, o, k))
    decreases |reqs|
  {
    if reqs != [] {
      var front := reqs[..|reqs| - 1];
      MergedOptions(req, front, o, k);
      FlattenSnoc(Entries(front, o, k), Entry(MapOf(reqs[|reqs| - 1], o), k));
    }
  }

  /** Merging in two batches is merging their concatenation. */
  lemma {:induction false} MergedInBatches(req: Request, a: seq<Request>, b: seq<Request>)
    ensures Merged(Merged(req, a), b) == Merged(req, a + b)
    decreases |b|
  {
    if b == [] {
      assert a + b == a;
    } else {
      MergedInBatches(req, a, b[..|b| - 1]);
      assert (a + b)[..|a + b| - 1] == a + b[..|b| - 1];
    }
  }

  /** The request Client.List sends: the listing of a type with the
      additional requests merged in. */
  function ListRequest(resourceType: string, reqs: seq<Request>): (r: Request)
    ensures r.intent == ListResources && r.resourceType == resourceType && r.resourceID == ""
  {
    MergedKeepsLocation(At(ListResources, resourceType, ""), reqs);
    Merged(At(ListResources, resourceType, ""), reqs)
  }

  /** The request Client.Find sends: one resource with the additional
      requests merged in. */
  function FindRequest(resourceType: string, id: string, reqs: seq<Request>): (r: Request)
    ensures r.intent == FindResource && r.resourceType == resourceType && r.resourceID == id
  {
    MergedKeepsLocation(At(FindResource, resourceType, id), reqs);
    Merged(At(FindResource, resourceType, id), reqs)
  }

  /** The base requests of Client.List and Client.Find carry no field or
      filter map, so an additional request with a sparse fieldset leaves the
      Go code writing into a nil map. */
  lemma ListWithFieldsPanics()
    ensures var extra := At(ListResources, "", "").(fields := Some(map["foo" := ["bar"]]));
      !Mergeable(At(ListResources, "foo", ""), [extra]) &&
      Entry(ListRequest("foo", [extra]).fields, "foo") == ["bar"]
  {
    var extra := At(ListResources, "", "").(fields := Some(map["foo" := ["bar"]]));
    assert Size(extra.fields) == 1;
    MergedOptions(At(ListResources, "foo", ""), [extra], Fields, "foo");
    assert Entries([extra], Fields, "foo") == [["bar"]];
    assert Flatten([["bar"]]) == ["bar"] + Flatten([]);
  }

  // ---------------------------------------------------------------------------
  // Performing a request

  const StatusOK: int := 200
  const StatusAccepted: int := 202
  const StatusNoContent: int := 204

  /** What happened on the wire: the request could not be built or sent, or
      the server answered with a status and a body that did or did not
      decode. */
  datatype Exchange =
    | Unsent(message: string)
    | Answered(status: int, body: Result<Document, string>)

  /** The error half of the client's answer: a plain message, or the first
      error object of the response document. */
  datatype ClientError = Failed(message: string) | Api(error: Error)

  /** The client's answer: an optional document and an optional error. */
  datatype Reply = Reply(doc: Option<Document>, err: Option<ClientError>)

  predicate Writes(intent: Intent) {
    intent == CreateResource || intent == UpdateResource || intent == DeleteResource
  }

  /** Do: the decisions taken around the transport.  Whether the intent
      expects a document is given, and the exchange stands for everything
      from encoding the body to decoding the response. */
  function Do(intent: Intent, documentExpected: bool, doc: Option<Document>, exchange: Exchange): (r: Reply)
    ensures documentExpected && doc.None? ==> r == Reply(None, Some(Failed("missing document")))
    ensures r.err.None? && r.doc.Some? ==>
      exchange.Answered? && exchange.status == StatusOK &&
      exchange.body == Success(r.doc.value) && r.doc.value.errors == []
    ensures r.err.None? && r.doc.None? ==>
      Writes(intent) && exchange.Answered? && exchange.status in {StatusAccepted, StatusNoContent}
    ensures (!(documentExpected && doc.None?) && exchange.Answered? && Writes(intent) &&
             exchange.status in {StatusAccepted, StatusNoContent}) ==> r == Reply(None, None)
    ensures r.err.Some? && r.err.value.Api? ==>
      exchange.Answered? && exchange.body.Success? && r.doc == Some(exchange.body.value) &&
      exchange.body.value.errors != [] && r.err.value.error == exchange.body.value.errors[0]
  {
    if documentExpected && doc.None? then Reply(None, Some(Failed("missing document")))
    else match exchange
      case Unsent(message) => Reply(None, Some(Failed(message)))
      case Answered(status, body) =>
        if Writes(intent) && (status == StatusAccepted || status == StatusNoContent) then Reply(None, None)
        else if body.Failure? then Reply(None, Some(Failed(body.error)))
        else if |body.value.errors| > 0 then Reply(Some(body.value), Some(Api(body.value.errors[0])))
        else if status != StatusOK then Reply(None, Some(Failed("missing error")))
        else Reply(Some(body.value), None)
  }

  /** A decoded body with errors yields the document and its first error,
      whatever the status, unless a write was accepted without content. */
  lemma FirstErrorReported(intent: Intent, documentExpected: bool, doc: Option<Document>, status: int, body: Document)
    requires !(documentExpected && doc.None?)
    requires !(Writes(intent) && (status == StatusAccepted || status == StatusNoContent))
    requires body.errors != []
    ensures Do(intent, documentExpected, doc, Answered(status, Success(body))) == Reply(Some(body), Some(Api(body.errors[0])))
  {
  }

  /** A decoded body without errors under a status other than 200 is a
      failure, and under 200 it is the answer. */
  lemma StatusDecides(intent: Intent, documentExpected: bool, doc: Option<Document>, status: int, body: Document)
    requires !(documentExpected && doc.None?)
    requires !(Writes(intent) && (status == StatusAccepted || status == StatusNoContent))
    requires body.errors == []
    ensures Do(intent, documentExpected, doc, Answered(status, Success(body))) ==
      if status == StatusOK then Reply(Some(body), None) else Reply(None, Some(Failed("missing error")))
  {
  }

  /** Reads never take the accepted-without-content shortcut. */
  lemma ReadsAlwaysDecode(intent: Intent, documentExpected: bool, doc: Option<Document>, status: int, body: Result<Document, string>)
    requires !Writes(intent) && !(documentExpected && doc.None?)
    ensures Do(intent, documentExpected, doc, Answered(status, body)).doc.None? ==>
      Do(intent, documentExpected, doc, Answered(status, body)).err.Some?
  {
  }
}
