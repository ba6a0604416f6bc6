/** Classification of a JSON:API request URL: the Content-Type check, the path
    grammar (collection / resource / related resource / relationship) and the
    query parameters `include`, `sort`, `page[number]`, `page[size]`,
    `fields[T]` and `filter[T]`. */
module RequestParser {
  import opened Wrappers
  import opened GoStrings

  /** The JSON:API media type. */
  const ContentType: string := "application/vnd.api+json"

  datatype ParseError = InvalidContentType | InvalidURL

  /** Query parameters: each key with all of its values, in order. */
  type Values = map<string, seq<string>>

  /** A classified request.  `fields` and `filters` are `None` where Go
      leaves the map nil. */
  datatype Request = Request(
    resource: string,
    resourceID: string,
    relatedResource: string,
    relationship: string,
    includes: seq<string>,
    pageNumber: int,
    pageSize: int,
    sorting: seq<string>,
    fields: Option<Values>,
    filters: Option<Values>)

  /** Go's `m[k]` on a map of slices: the entry, or nil (empty) when absent. */
  function Entry(m: Values, k: string): seq<string> {
    if k in m then m[k] else []
  }

  const EmptyRequest: Request := Request("", "", "", "", [], 0, 0, [], None, None)

  // ---------------------------------------------------------------------------
  // Specification

  /** The path with every leading and trailing `/` removed, split on `/`. */
  function Segments(path: string): (segments: seq<string>)
    ensures |segments| >= 1
  {
    Split(Trim(path, '/'), '/')
  }

  /** The location part of a request, read off the path segments. */
  datatype Location = Location(resource: string, resourceID: string, relatedResource: string, relationship: string)

  /** The path grammar: one to four non-empty segments; a third segment names
      a related resource unless it is "relationships", in which case a fourth
      segment names the relationship. */
  function Locate(segments: seq<string>): Result<Location, ParseError> {
    if |segments| == 0 || |segments| > 4 || exists i :: 0 <= i < |segments| && segments[i] == "" then
      Failure(InvalidURL)
    else if |segments| == 3 && segments[2] == "relationships" then
      Failure(InvalidURL)
    else if |segments| == 4 && segments[2] != "relationships" then
      Failure(InvalidURL)
    else
      Success(Location(
        segments[0],
        if |segments| >= 2 then segments[1] else "",
        if |segments| == 3 then segments[2] else "",
        if |segments| == 4 then segments[3] else ""))
  }

  /** The comma-separated pieces of every value of `key`, in order. */
  function Pieces(q: Values, key: string): seq<string> {
    if key in q then SplitAll(q[key], ',') else []
  }

  /** A page parameter is absent, or has one value that is a decimal integer. */
  predicate PageValid(q: Values, key: string) {
    key !in q || (|q[key]| == 1 && Atoi(q[key][0]).Some?)
  }

  function PageValue(q: Values, key: string): int
    requires PageValid(q, key)
  {
    if key in q then Atoi(q[key][0]).value else 0
  }

  /** `key` has the form prefix + T + "]".  (Both prefixes end in `[`, so a key
      ending in `]` is longer than the prefix.) */
  predicate IsBracketKey(key: string, prefix: string) {
    |prefix| < |key| && key[..|prefix|] == prefix && key[|key| - 1] == ']'
  }

  /** The T of a key prefix + T + "]". */
  function BracketType(key: string, prefix: string): string
    requires IsBracketKey(key, prefix)
  {
    key[|prefix|..|key| - 1]
  }

  /** The key prefix + T + "]". */
  function BracketKey(prefix: string, t: string): string {
    prefix + t + "]"
  }

  lemma BracketKeyType(prefix: string, t: string)
    ensures IsBracketKey(BracketKey(prefix, t), prefix)
    ensures BracketType(BracketKey(prefix, t), prefix) == t
  {
    var key := BracketKey(prefix, t);
    assert key[..|prefix|] == prefix;
    assert key[|prefix|..|key| - 1] == t;
  }

  lemma BracketKeyOfType(key: string, prefix: string)
    requires IsBracketKey(key, prefix)
    ensures BracketKey(prefix, BracketType(key, prefix)) == key
  {
    assert key == key[..|prefix|] + BracketType(key, prefix) + [']'];
  }

  predicate HasBracketKey(q: Values, prefix: string) {
    exists k :: k in q && IsBracketKey(k, prefix)
  }

  /** At type `t`, `g` holds the pieces of the values of prefix + t + "]" when
      that key carries at least one value, and nothing otherwise. */
  ghost predicate GroupedAt(g: Values, q: Values, prefix: string, t: string) {
    && (t in g <==> BracketKey(prefix, t) in q && |q[BracketKey(prefix, t)]| > 0)
    && (t in g ==> g[t] == SplitAll(q[BracketKey(prefix, t)], ','))
  }

  /** `g` maps each T to the pieces of the values of prefix + T + "]", for the
      keys of that form that carry at least one value. */
  ghost predicate IsGroupOf(g: Values, q: Values, prefix: string) {
    forall t :: GroupedAt(g, q, prefix, t)
  }

  lemma GroupUnique(g1: Values, g2: Values, q: Values, prefix: string)
    requires IsGroupOf(g1, q, prefix) && IsGroupOf(g2, q, prefix)
    ensures g1 == g2
  {
    forall t ensures (t in g1 <==> t in g2) && (t in g1 ==> g1[t] == g2[t]) {
      assert GroupedAt(g1, q, prefix, t) && GroupedAt(g2, q, prefix, t);
    }
    MapsEqual(g1, g2);
  }

  function Group(q: Values, prefix: string): (g: Values)
    ensures IsGroupOf(g, q, prefix)
  {
    var types := set k | k in q && IsBracketKey(k, prefix) && |q[k]| > 0 :: BracketType(k, prefix);
    assert forall t :: BracketKey(prefix, t) in q && |q[BracketKey(prefix, t)]| > 0 ==> t in types by {
      forall t | BracketKey(prefix, t) in q && |q[BracketKey(prefix, t)]| > 0 ensures t in types {
        BracketKeyType(prefix, t);
      }
    }
    assert forall t :: t in types ==> BracketKey(prefix, t) in q && |q[BracketKey(prefix, t)]| > 0 by {
      forall t | t in types ensures BracketKey(prefix, t) in q && |q[BracketKey(prefix, t)]| > 0 {
        var w :| w in q && IsBracketKey(w, prefix) && |q[w]| > 0 && BracketType(w, prefix) == t;
        BracketKeyOfType(w, prefix);
      }
    }
    var g := map t | t in types :: SplitAll(q[BracketKey(prefix, t)], ',');
    assert forall t :: GroupedAt(g, q, prefix, t);
    g
  }

  /** `Group`, or `None` when no key of the form prefix + T + "]" occurs at
      all (Go leaves the map nil). */
  function Grouped(q: Values, prefix: string): Option<Values> {
    if HasBracketKey(q, prefix) then Some(Group(q, prefix)) else None
  }

  /** The whole classification. */
  function Parse(contentType: string, path: string, query: Values): Result<Request, ParseError> {
    if contentType != ContentType then Failure(InvalidContentType)
    else
      match Locate(Segments(path))
      case Failure(e) => Failure(e)
      case Success(loc) =>
        if !PagesValid(query) then Failure(InvalidURL)
        else
          Success(Decoded(loc, query))
  }

  /** Query parameters pass when both page parameters are valid. */
  predicate PagesValid(q: Values) {
    PageValid(q, "page[number]") && PageValid(q, "page[size]")
  }

  /** The request at `loc` with the query parameters of `q`. */
  function Decoded(loc: Location, q: Values): Request
    requires PagesValid(q)
  {
    Request(
      loc.resource, loc.resourceID, loc.relatedResource, loc.relationship,
      Pieces(q, "include"),
      PageValue(q, "page[number]"),
      PageValue(q, "page[size]"),
      Pieces(q, "sort"),
      Grouped(q, "fields["),
      Grouped(q, "filter["))
  }

  // ---------------------------------------------------------------------------
  // The parser

  /** The query keys visited so far. */
  function Restrict(q: Values, keys: set<string>): (r: Values)
    ensures r.Keys == q.Keys * keys
    ensures forall k :: k in r ==> r[k] == q[k]
  {
    map k | k in q && k in keys :: q[k]
  }

  /** Appends the comma-separated pieces of each value in turn. */
  method AppendPieces(acc: seq<string>, values: seq<string>) returns (r: seq<string>)
    ensures r == acc + SplitAll(values, ',')
  {
    r := acc;
    for i := 0 to |values|
      invariant r == acc + SplitAll(values[..i], ',')
    {
      assert values[..i + 1][..i] == values[..i];
      r := r + Split(values[i], ',');
    }
    assert values[..|values|] == values;
  }

  /** The entry for `typ` extended by the pieces of `values`; the entry is
      written only when there is a value. */
  function Accumulated(m: Values, typ: string, values: seq<string>): Values {
    if |values| == 0 then m else m[typ := Entry(m, typ) + SplitAll(values, ',')]
  }

  lemma AccumulatedStep(m: Values, typ: string, values: seq<string>, i: nat)
    requires i < |values|
    ensures var r := Accumulated(m, typ, values[..i]);
      Accumulated(m, typ, values[..i + 1]) == r[typ := Entry(r, typ) + Split(values[i], ',')]
  {
    var done := values[..i];
    assert values[..i + 1][..i] == done;
    var pieces := SplitAll(values[..i + 1], ',');
    assert pieces == SplitAll(done, ',') + Split(values[i], ',');
    var r := Accumulated(m, typ, done);
    if i == 0 {
      assert SplitAll(done, ',') == [];
      assert pieces == Split(values[i], ',');
      assert r == m;
    } else {
      assert r == m[typ := Entry(m, typ) + SplitAll(done, ',')];
      assert Entry(r, typ) + Split(values[i], ',') == Entry(m, typ) + pieces;
      MapsEqual(r[typ := Entry(r, typ) + Split(values[i], ',')], m[typ := Entry(m, typ) + pieces]);
    }
  }

  /** Appends the pieces of each value to the entry for `typ`, one value at a
      time. */
  method Accumulate(m: Values, typ: string, values: seq<string>) returns (r: Values)
    ensures r == Accumulated(m, typ, values)
  {
    r := m;
    for i := 0 to |values|
      invariant r == Accumulated(m, typ, values[..i])
    {
      AccumulatedStep(m, typ, values, i);
      r := r[typ := Entry(r, typ) + Split(values[i], ',')];
    }
    assert values[..|values|] == values;
  }

  /** On a type with no entry yet, accumulating records exactly the pieces. */
  lemma AccumulatedFresh(m: Values, typ: string, values: seq<string>)
    requires typ !in m
    ensures Accumulated(m, typ, values) == if |values| == 0 then m else m[typ := SplitAll(values, ',')]
  {
    assert [] + SplitAll(values, ',') == SplitAll(values, ',');
  }

  /** Adding a key that is not of the form prefix + T + "]" leaves the grouped
      map as it was. */
  lemma GroupedOther(p: Values, k: string, vs: seq<string>, prefix: string)
    requires k !in p && !IsBracketKey(k, prefix)
    ensures Grouped(p[k := vs], prefix) == Grouped(p, prefix)
  {
    var p' := p[k := vs];
    assert HasBracketKey(p', prefix) ==> HasBracketKey(p, prefix);
    var g := Group(p, prefix);
    forall t ensures GroupedAt(g, p', prefix, t) {
      BracketKeyType(prefix, t);
      assert BracketKey(prefix, t) != k;
      assert GroupedAt(g, p, prefix, t);
    }
    GroupUnique(Group(p', prefix), Group(p, prefix), p', prefix);
  }

  lemma GroupWithoutKeys(p: Values, prefix: string)
    requires !HasBracketKey(p, prefix)
    ensures IsGroupOf(map[], p, prefix)
  {
    forall t ensures GroupedAt(map[], p, prefix, t) {
      BracketKeyType(prefix, t);
    }
  }

  /** The group after adding a fresh key prefix + T + "]", at one type `x`. */
  lemma GroupStepAt(g: Values, p: Values, k: string, vs: seq<string>, prefix: string, x: string)
    requires k !in p && IsBracketKey(k, prefix) && IsGroupOf(g, p, prefix)
    ensures GroupedAt(if |vs| == 0 then g else g[BracketType(k, prefix) := SplitAll(vs, ',')], p[k := vs], prefix, x)
  {
    var t := BracketType(k, prefix);
    BracketKeyOfType(k, prefix);
    BracketKeyType(prefix, x);
    assert GroupedAt(g, p, prefix, x);
    if x == t {
      assert BracketKey(prefix, x) == k;
      assert x !in g;
    } else {
      assert BracketKey(prefix, x) != k;
    }
  }

  /** The group after adding a fresh key prefix + T + "]". */
  lemma GroupStep(g: Values, p: Values, k: string, vs: seq<string>, prefix: string)
    requires k !in p && IsBracketKey(k, prefix) && IsGroupOf(g, p, prefix)
    ensures BracketType(k, prefix) !in g
    ensures IsGroupOf(if |vs| == 0 then g else g[BracketType(k, prefix) := SplitAll(vs, ',')], p[k := vs], prefix)
  {
    BracketKeyOfType(k, prefix);
    assert GroupedAt(g, p, prefix, BracketType(k, prefix));
    var g' := if |vs| == 0 then g else g[BracketType(k, prefix) := SplitAll(vs, ',')];
    var p' := p[k := vs];
    forall x ensures GroupedAt(g', p', prefix, x) {
      GroupStepAt(g, p, k, vs, prefix, x);
    }
  }

  /** Adding a key prefix + T + "]" creates the map if needed and records the
      pieces of its values under T. */
  lemma GroupedAdd(p: Values, k: string, vs: seq<string>, prefix: string)
    requires k !in p && IsBracketKey(k, prefix)
    ensures BracketType(k, prefix) !in Grouped(p, prefix).GetOr(map[])
    ensures Grouped(p[k := vs], prefix) ==
      var m := Grouped(p, prefix).GetOr(map[]);
      Some(if |vs| == 0 then m else m[BracketType(k, prefix) := SplitAll(vs, ',')])
  {
    assert HasBracketKey(p[k := vs], prefix);
    var m := Grouped(p, prefix).GetOr(map[]);
    if !HasBracketKey(p, prefix) {
      GroupWithoutKeys(p, prefix);
    }
    GroupStep(m, p, k, vs, prefix);
    GroupUnique(Group(p[k := vs], prefix), if |vs| == 0 then m else m[BracketType(k, prefix) := SplitAll(vs, ',')], p[k := vs], prefix);
  }

  /** Restricting a query to some of its keys keeps the page parameters valid. */
  lemma PagesValidRestrict(q: Values, keys: set<string>)
    ensures PagesValid(q) ==> PagesValid(Restrict(q, keys))
  {
  }

  /** Adding `key` leaves every parameter with another name as it was. */
  lemma OtherKeys(p: Values, key: string, values: seq<string>)
    requires key !in p
    ensures var p' := p[key := values];
      && (key != "include" ==> Pieces(p', "include") == Pieces(p, "include"))
      && (key != "sort" ==> Pieces(p', "sort") == Pieces(p, "sort"))
      && (key != "page[number]" ==> PageValid(p', "page[number]") == PageValid(p, "page[number]"))
      && (key != "page[number]" && PageValid(p, "page[number]") ==> PageValue(p', "page[number]") == PageValue(p, "page[number]"))
      && (key != "page[size]" ==> PageValid(p', "page[size]") == PageValid(p, "page[size]"))
      && (key != "page[size]" && PageValid(p, "page[size]") ==> PageValue(p', "page[size]") == PageValue(p, "page[size]"))
      && (!IsBracketKey(key, "fields[") ==> Grouped(p', "fields[") == Grouped(p, "fields["))
      && (!IsBracketKey(key, "filter[") ==> Grouped(p', "filter[") == Grouped(p, "filter["))
  {
    if !IsBracketKey(key, "fields[") { GroupedOther(p, key, values, "fields["); }
    if !IsBracketKey(key, "filter[") { GroupedOther(p, key, values, "filter["); }
  }

  /** The four named parameters are not of the form fields[T] or filter[T]. */
  lemma NamedKeys(key: string)
    ensures key == "include" || key == "sort" || key == "page[number]" || key == "page[size]" ==>
      !IsBracketKey(key, "fields[") && !IsBracketKey(key, "filter[")
  {
    if (key == "include" || key == "sort" || key == "page[number]" || key == "page[size]") && |key| > 7 {
      assert key[..7][0] == key[0] != 'f';
    }
  }

  /** Decodes one query parameter into `req`, the request decoded from `p`;
      fails on a malformed page parameter. */
  method ApplyParam(req: Request, key: string, values: seq<string>, ghost loc: Location, ghost p: Values)
    returns (r: Result<Request, ParseError>)
    requires key !in p && PagesValid(p) && req == Decoded(loc, p)
    ensures var p' := p[key := values];
      if PagesValid(p') then r == Success(Decoded(loc, p')) else r == Failure(InvalidURL)
  {
    OtherKeys(p, key, values);
    NamedKeys(key);

    if key == "include" {
      assert req.includes == [];
      var pieces := AppendPieces(req.includes, values);
      assert pieces == Pieces(p[key := values], "include");
      return Success(req.(includes := pieces));
    }

    if key == "sort" {
      assert req.sorting == [];
      var pieces := AppendPieces(req.sorting, values);
      assert pieces == Pieces(p[key := values], "sort");
      return Success(req.(sorting := pieces));
    }

    if key == "page[number]" {
      if |values| != 1 {
        return Failure(InvalidURL);
      }
      var n := Atoi(values[0]);
      if n.None? {
        return Failure(InvalidURL);
      }
      return Success(req.(pageNumber := n.value));
    }

    if key == "page[size]" {
      if |values| != 1 {
        return Failure(InvalidURL);
      }
      var n := Atoi(values[0]);
      if n.None? {
        return Failure(InvalidURL);
      }
      return Success(req.(pageSize := n.value));
    }

    var next := req;
    if IsBracketKey(key, "fields[") {
      GroupedAdd(p, key, values, "fields[");
      var fields := next.fields.GetOr(map[]);
      AccumulatedFresh(fields, key[7..|key| - 1], values);
      fields := Accumulate(fields, key[7..|key| - 1], values);
      next := next.(fields := Some(fields));
    }
    if IsBracketKey(key, "filter[") {
      GroupedAdd(p, key, values, "filter[");
      var filters := next.filters.GetOr(map[]);
      AccumulatedFresh(filters, key[7..|key| - 1], values);
      filters := Accumulate(filters, key[7..|key| - 1], values);
      next := next.(filters := Some(filters));
    }
    return Success(next);
  }

  /** The location part of ParseRequest: the segment checks and the request
      fields they set. */
  method ParseLocation(segments: seq<string>) returns (r: Result<Request, ParseError>)
    ensures Locate(segments).Failure? ==> r == Failure(Locate(segments).error)
    ensures Locate(segments).Success? ==> r == Success(Decoded(Locate(segments).value, map[]))
  {
    if |segments| == 0 || |segments| > 4 {
      return Failure(InvalidURL);
    }

    // check for invalid segments
    for i := 0 to |segments|
      invariant forall j :: 0 <= j < i ==> segments[j] != ""
    {
      if segments[i] == "" {
        return Failure(InvalidURL);
      }
    }

    var req := EmptyRequest;
    req := req.(resource := segments[0]);
    if |segments| > 1 {
      req := req.(resourceID := segments[1]);
    }
    if |segments| == 3 && segments[2] != "relationships" {
      req := req.(relatedResource := segments[2]);
    }
    if |segments| == 4 && segments[2] == "relationships" {
      req := req.(relationship := segments[3]);
    }

    // final check
    if |segments| > 2 && req.relatedResource == "" && req.relationship == "" {
      return Failure(InvalidURL);
    }
    return Success(req);
  }

  /** ParseRequest: checks the Content-Type header, classifies the path and
      decodes the query.  Keys are visited in an arbitrary order, as Go's map
      iteration does; the result is the same for every order. */
  method ParseRequest(contentType: string, path: string, query: Values) returns (r: Result<Request, ParseError>)
    ensures r == Parse(contentType, path, query)
  {
    // check content type
    if contentType != ContentType {
      return Failure(InvalidContentType);
    }

    // trim and split path
    var segments := Split(Trim(path, '/'), '/');
    var located := ParseLocation(segments);
    if located.Failure? {
      return Failure(located.error);
    }
    var req := located.value;
    ghost var loc := Locate(segments).value;

    // decode query parameters
    var visited: set<string> := {};
    while visited != query.Keys
      invariant visited <= query.Keys
      invariant PagesValid(Restrict(query, visited))
      invariant req == Decoded(loc, Restrict(query, visited))
      decreases query.Keys - visited
    {
      var key :| key in query && key !in visited;
      ghost var p := Restrict(query, visited);
      assert Restrict(query, visited + {key}) == p[key := query[key]];
      var next := ApplyParam(req, key, query[key], loc, p);
      if next.Failure? {
        assert !PagesValid(query) by {
          PagesValidRestrict(query, visited + {key});
        }
        return Failure(next.error);
      }
      req := next.value;
      visited := visited + {key};
    }
    assert Restrict(query, visited) == query;
    return Success(req);
  }

  // ---------------------------------------------------------------------------
  // Properties

  /** The Content-Type header is checked before the path and the query. */
  lemma ContentTypeFirst(contentType: string, path: string, query: Values)
    ensures Parse(contentType, path, query) == Failure(InvalidContentType) <==> contentType != ContentType
  {
  }

  /** A path made of slashes alone (the root, or the empty path) names no
      resource. */
  lemma RootPathInvalid(path: string, query: Values)
    requires forall i :: 0 <= i < |path| ==> path[i] == '/'
    ensures Parse(ContentType, path, query) == Failure(InvalidURL)
  {
    assert Trim(path, '/') == [];
    assert Segments(path) == [""];
  }

  /** The path segments a location is read from. */
  function LocationPath(loc: Location): seq<string> {
    [loc.resource]
    + (if loc.resourceID != "" then [loc.resourceID] else [])
    + (if loc.relatedResource != "" then [loc.relatedResource] else [])
    + (if loc.relationship != "" then ["relationships", loc.relationship] else [])
  }

  /** The location fields of a request. */
  function LocationOf(r: Request): Location {
    Location(r.resource, r.resourceID, r.relatedResource, r.relationship)
  }

  /** Segments the grammar accepts are read back into exactly the location
      they spell. */
  lemma LocateAccepts(segments: seq<string>)
    requires 1 <= |segments| <= 4
    requires forall i :: 0 <= i < |segments| ==> segments[i] != ""
    requires |segments| == 3 ==> segments[2] != "relationships"
    requires |segments| == 4 ==> segments[2] == "relationships"
    ensures Locate(segments).Success?
    ensures LocationPath(Locate(segments).value) == segments
  {
  }

  /** What the grammar accepts: a non-empty resource, never both a related
      resource and a relationship, neither without an id, and the location
      spells out the segments it came from. */
  lemma LocateShape(segments: seq<string>)
    requires Locate(segments).Success?
    ensures var loc := Locate(segments).value;
      && LocationPath(loc) == segments
      && loc.resource != ""
      && (loc.relatedResource == "" || loc.relationship == "")
      && (loc.relatedResource != "" || loc.relationship != "" ==> loc.resourceID != "")
  {
  }

  /** On success, the request's location is the one the path segments spell. */
  lemma ParseLocated(contentType: string, path: string, query: Values)
    requires Parse(contentType, path, query).Success?
    ensures contentType == ContentType && Locate(Segments(path)).Success?
    ensures LocationOf(Parse(contentType, path, query).value) == Locate(Segments(path)).value
  {
  }

  /** A well-formed path "/" + s1 + "/" + ... + sn has the segments s1 ... sn. */
  lemma SegmentsOfJoin(segments: seq<string>)
    requires 1 <= |segments|
    requires forall i :: 0 <= i < |segments| ==> segments[i] != "" && '/' !in segments[i]
    ensures Segments("/" + Join(segments, '/')) == segments
  {
    JoinEnds(segments, '/');
    var j := Join(segments, '/');
    assert j[0] != '/' by { assert segments[0][0] in segments[0]; }
    var last := segments[|segments| - 1];
    assert j[|j| - 1] != '/' by { assert last[|last| - 1] in last; }
    TrimLeading(j, '/');
    SplitJoin(segments, '/');
  }

  /** A classified path is, apart from its outer slashes, the join of the
      request's segments. */
  lemma ParsedPath(contentType: string, path: string, query: Values)
    requires Parse(contentType, path, query).Success?
    ensures Trim(path, '/') == Join(LocationPath(LocationOf(Parse(contentType, path, query).value)), '/')
  {
    ParseLocated(contentType, path, query);
    LocateShape(Segments(path));
    JoinSplit(Trim(path, '/'), '/');
  }

  /** A fields[T] or filter[T] parameter with values is recorded under T with
      the pieces of its values; the map exists exactly when some parameter
      of that form occurs. */
  lemma ParsedGroup(contentType: string, path: string, query: Values, prefix: string, t: string)
    requires Parse(contentType, path, query).Success?
    requires prefix == "fields[" || prefix == "filter["
    ensures var r := Parse(contentType, path, query).value;
      var g := if prefix == "fields[" then r.fields else r.filters;
      && (g.Some? <==> exists k :: k in query && IsBracketKey(k, prefix))
      && (g.Some? ==> (t in g.value <==> prefix + t + "]" in query && |query[prefix + t + "]"]| > 0))
      && (g.Some? && t in g.value ==> g.value[t] == SplitAll(query[prefix + t + "]"], ','))
  {
    if HasBracketKey(query, prefix) {
      assert GroupedAt(Group(query, prefix), query, prefix, t);
    }
  }

  /** A page parameter decodes to its one integer value, and is 0 when absent;
      two values, or one that is not an integer, are refused. */
  lemma ParsedPage(contentType: string, path: string, query: Values, key: string)
    requires contentType == ContentType && Locate(Segments(path)).Success?
    requires key == "page[number]" || key == "page[size]"
    ensures key in query && |query[key]| != 1 ==> Parse(contentType, path, query) == Failure(InvalidURL)
    ensures key in query && |query[key]| == 1 && Atoi(query[key][0]).None? ==> Parse(contentType, path, query) == Failure(InvalidURL)
    ensures Parse(contentType, path, query).Success? ==>
      var r := Parse(contentType, path, query).value;
      var n := if key == "page[number]" then r.pageNumber else r.pageSize;
      if key in query then Atoi(query[key][0]) == Some(n) else n == 0
  {
  }

  /** `include=a&include=b,c` asks for a, b and c, in that order. */
  lemma IncludeExample()
    ensures Pieces(map["include" := ["a", "b,c"]], "include") == ["a", "b", "c"]
  {
    var values := ["a", "b,c"];
    SplitExamples();
    assert values[..1] == ["a"] && values[..1][..0] == [];
    assert SplitAll(values[..1], ',') == ["a"];
    assert SplitAll(values, ',') == ["a"] + ["b", "c"];
  }

  lemma SplitExamples()
    ensures Split("a", ',') == ["a"]
    ensures Split("b,c", ',') == ["b", "c"]
  {
    SplitPlain("a", ',');
    assert Join(["b", "c"], ',') == "b,c";
    SplitJoin(["b", "c"], ',');
  }
}
