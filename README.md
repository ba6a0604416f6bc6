# jsonapi: a verified model of a Go JSON:API library

This project models the core of a small Go library for the JSON:API 1.0 media
type (`application/vnd.api+json`) and proves properties of it in Dafny. It
covers six pieces:

- **Request classification** (`request.go`). The Content-Type header is
  checked. The URL path is trimmed and split into one to four segments: a
  collection, a resource, a related resource, or a relationship. The query
  parameters `include`, `sort`, `page[number]`, `page[size]`, `fields[T]` and
  `filter[T]` are decoded. The parser loops over the path segments and over
  the query map. Go visits a map in an unspecified order, so the model picks
  each key with a `:|` choice. `RequestParser.ParseRequest` is proved equal
  to the deterministic specification `RequestParser.Parse`, so the result is
  the same whatever order the keys are visited in.
- **The in-memory server** (`server.go`). A class `MemoryServer.Server` holds:
  - the cleaned URL prefix;
  - the type allow-list;
  - the store, a map from type to (id → resource);
  - the id counter.

  Its methods do the following:
  - check the allow-list;
  - list a collection: gather it from the map, selection-sort it by id in an
    array, and then paginate it;
  - find, create, update and delete resources;
  - set the links of every relationship;
  - dispatch a parsed request.

  Each method is proved equal to a pure step function of module `Store`,
  applied to the old state. The properties are proved about those functions:
  - error precedence;
  - exactly one entry added, replaced or removed;
  - nothing else changes;
  - the page is sorted and drawn from the collection;
  - every resource stays filed under its own type and id.
- **Client request merging and reply classification** (`client.go`). Covered
  are the configuration clean-up, the loop that merges extra requests into a
  base request, and the branches `Do` takes around the transport.
- **One-or-many decoding** (`unmarshal.go`). The first character decides
  between the single branch and the list branch of `HybridResource` and
  `HybridDocument`. A document's relationships object is decoded member by
  member, and a whole document is decoded from its text. The JSON decoder of
  a value is a function parameter.
- **Error values** (`error.go`, `helpers.go`). These are the bad-request
  constructors and the `Error()` message.
- **Go library behaviour** the core relies on (module `GoStrings`):
  - `strings.Trim`, `strings.TrimSuffix`, `strings.Split`;
  - `strconv.Atoi`, `strconv.Itoa`;
  - byte-wise string ordering.

Files:
- `wrappers.dfy`: Option and Result.
- `values.dfy`: JSON values and the `Map` type.
- `errors.dfy`.
- `documents.dfy`: resources, documents and their links.
- `gostrings.dfy`.
- `requestparser.dfy`.
- `intents.dfy`: the request descriptor the server and client exchange.
- `ordering.dfy`: sorted listings of a collection.
- `store.dfy`.
- `memoryserver.dfy`.
- `client.dfy`.
- `unmarshal.dfy`.

## Model

| member | source | states |
|---|---|---|
| Errors.Message | error.go:61-63 | The message is the title, then ": ", then the detail, so its length is the length of the title plus 2 plus the length of the detail |
| Errors.MessageOnlyTitleAndDetail | error.go:61-63 | Errors with the same title and detail have the same message, whatever their id, status, code, source, links and meta |
| Errors.MessageDeterminesDetail | error.go:61-63 | For a fixed title, the message determines the detail |
| Errors.MessageAmbiguous | error.go:61-63 | Without the title, the message is ambiguous: ("a", "b: c") and ("a: b", "c") give the same text |
| Errors.BadRequest | helpers.go:5-12 | Status 400, title "Bad Request", the detail unchanged, no source, and every other field empty |
| Errors.BadRequestParam | helpers.go:14-24 | Like BadRequest, plus a source whose parameter is `param` and whose pointer is empty |
| Errors.BadRequestParamRefinesBadRequest | helpers.go:5-24 | The two constructors differ only in the source |
| Errors.BadRequestMessage | helpers.go:5-24 | Both messages are "Bad Request: " + detail |
| GoStrings.TrimSuffix | client.go:34 | Removes the suffix once when it is present; otherwise leaves the string unchanged |
| GoStrings.Trim | request.go:48 | The result is a middle slice of the string with only cut characters before and after it; no leading or trailing cut character remains; the result is empty exactly when the string has only cut characters; a string without them at its ends is unchanged |
| GoStrings.Split | request.go:48 | At least one piece, and no piece contains the separator |
| GoStrings.JoinSplit | request.go:48 | Joining the pieces of a split gives back the string |
| GoStrings.SplitJoin | request.go:48 | Splitting a join of separator-free pieces gives back the pieces |
| GoStrings.SplitPlain | request.go:89-100 | A value without a comma is one piece |
| GoStrings.LessTotal | server.go:117-120 | The byte-wise order of ids is total |
| GoStrings.LessTransitive | server.go:117-120 | The byte-wise order of ids is transitive |
| GoStrings.LessIrreflexive | server.go:117-120 | The byte-wise order of ids is irreflexive |
| GoStrings.Atoi | request.go:109-112 | Only decimal digits with an optional sign are accepted, and an accepted number is the string's own value (so out-of-range text is rejected); every digit string within the 64-bit range yields its value, negated after a `-` and unchanged after a `+` |
| GoStrings.NatDigits | server.go:180 | The decimal digits of n, without leading zeros |
| GoStrings.ItoaAtoi | server.go:180 | Parsing the decimal text of a 64-bit integer gives the integer back |
| GoStrings.ItoaInjective | server.go:180 | Different integers have different decimal texts |
| RequestParser.ParseRequest | request.go:41-161 | The parser equals the specification Parse, whatever order the query keys are visited in |
| RequestParser.ContentTypeFirst | request.go:42-45 | The result is InvalidContentType exactly when the header is not the JSON:API media type, whatever the path and the query |
| RequestParser.ParseLocation | request.go:47-84 | A failure of the path grammar is returned as is; otherwise the request holds the location and empty query options |
| RequestParser.ApplyParam | request.go:87-154 | Adding one query key gives the request decoded from the larger query, or InvalidURL when its page parameter is malformed |
| RequestParser.AppendPieces | request.go:89-100 | The comma pieces of every value are appended in order |
| RequestParser.Accumulate | request.go:132-154 | fields[T] and filter[T] values are accumulated under T |
| RequestParser.AccumulatedFresh | request.go:138-141 | Under a new type, the entry is the comma pieces of the values; no values add no entry |
| RequestParser.Group | request.go:132-154 | The grouped map holds, for each type T with a non-empty parameter prefix[T], the comma pieces of its values |
| RequestParser.GroupUnique | request.go:132-154 | Only one map can be the group of a query |
| RequestParser.GroupedAdd | request.go:132-154 | One more prefix[T] key (re)creates the map and adds T exactly when it has values |
| RequestParser.OtherKeys | request.go:87-154 | One more key leaves every option that key does not name unchanged, so unrecognised keys have no effect |
| RequestParser.NamedKeys | request.go:87-154 | The four named parameters are never taken as fields[T] or filter[T] |
| RequestParser.BracketKeyType | request.go:138 | The type between the 7-character prefix and the final `]` of prefix + T + "]" is T |
| RequestParser.BracketKeyOfType | request.go:132-138 | Every bracket key is prefix + its type + "]" |
| RequestParser.RootPathInvalid | request.go:48-58 | An empty path or a path of slashes alone is InvalidURL |
| RequestParser.LocateAccepts | request.go:48-84 | One to four non-empty segments, with "relationships" exactly at the third place of a four-segment path, are accepted and spell back to the same segments |
| RequestParser.LocateShape | request.go:60-84 | An accepted location has a resource, never both a related resource and a relationship, neither of them without an id, and spells back its segments |
| RequestParser.ParseLocated | request.go:42-84 | A success implies the media type and an accepted path, and carries that path's location |
| RequestParser.SegmentsOfJoin | request.go:48 | "/" + s1 + "/" + … + sn splits back into s1 … sn |
| RequestParser.ParsedPath | request.go:48-84 | A classified path is, apart from its outer slashes, the join of the request's segments |
| RequestParser.ParsedGroup | request.go:132-154 | The fields or filters map exists exactly when a key of that form occurs; T is in it exactly when prefix[T] has values; its entry is their comma pieces |
| RequestParser.ParsedPage | request.go:104-130 | A page parameter with other than one value, or one that is not an integer, is InvalidURL; otherwise the page field is its value, or 0 when absent |
| RequestParser.IncludeExample | request.go:88-94 | include=a&include=b,c asks for a, b and c in that order |
| RequestParser.PagesValidRestrict | request.go:104-130 | Valid page parameters stay valid on part of the query |
| RequestParser.Restrict | request.go:87 | The query restricted to the keys visited so far |
| Store.CleanPrefix | server.go:31 | "/" followed by the prefix without leading and trailing slashes |
| Store.CleanPrefixIdempotent | server.go:31 | Cleaning a clean prefix changes nothing |
| Store.TypeCheck | server.go:58-70 | A request passes exactly when the allow-list is empty or contains its type |
| Store.LinkedChangesOnlyLinks | server.go:269-276 | Linking sets only each relationship document's links, and keeps the names, the data and the rest of the resource |
| Store.LinkedIdempotent | server.go:269-276 | Linking twice is linking once |
| Store.RelationshipLinkShape | server.go:272-273 | Related is prefix/type/id/name; Self is prefix/type/id/relationships/name |
| Store.Paginate | server.go:122-138 | The page fails exactly when the offset is positive and reaches or passes the end of the list, or the end lies beyond it; otherwise it is list[offset:end] for a positive offset and the whole list for none |
| Store.PaginateIsRun | server.go:122-138 | A page is a run of consecutive elements from its start, end minus offset long for a positive offset; with no positive offset it is the whole list |
| Store.PageOfSize | server.go:123-126 | Page n of size s holds elements n·s to n·s + s |
| Store.RunOfSorted | server.go:135-137 | A slice of an ascending list is ascending and holds elements of the list |
| Store.ListedPageSorted | server.go:102-138 | Every page of a collection's listing is in strictly ascending order of id and holds only resources of the collection |
| Store.Find | server.go:145-161 | Found exactly when the type and id are present, and then the stored resource; otherwise NotFound("unknown resource") |
| Store.CreateOutcome | server.go:163-199 | Create answers in the source's order: missing resource, then type mismatch, then a conflict exactly when the prepared id is already taken, otherwise success |
| Store.CreateThenFind | server.go:163-207 | A created resource can be found under its type and id |
| Store.CreateAddsOne | server.go:186-199 | A successful create adds exactly one entry, under a new id, and changes no other collection or entry |
| Store.CreateFailureKeepsData | server.go:163-196 | A failed create leaves the store unchanged; the counter moves only when a conflict follows a generated id |
| Store.CreateGeneratesId | server.go:177-181 | A resource without an id moves the counter by one and is stored as "s-" + the new counter |
| Store.GeneratedIdsDistinct | server.go:180 | Different counter values generate different ids |
| Store.CreateKeepsFiled | server.go:163-207 | Create keeps every resource filed under its own type and id |
| Store.ListAfterCreate | server.go:102-207 | After a successful create, the resource is in the listing and the listing is one longer |
| Store.ListingAfterInsert | server.go:104-120 | Inserting a resource under a new id puts it in the listing and makes the listing one longer |
| Store.UpdateReplacesOne | server.go:209-248 | A successful update needs an existing entry, stores the linked resource under it, and changes nothing else; a failed one changes nothing |
| Store.UpdateErrorOrder | server.go:211-239 | For an unknown resource, NotFound appears exactly when the document, type and id checks pass first |
| Store.UpdateOutcome | server.go:209-243 | Update answers in the source's order: missing resource, type mismatch, id mismatch, then success exactly when the resource exists and NotFound otherwise |
| Store.UpdateKeepsFiled | server.go:209-248 | Update keeps every resource filed under its own type and id |
| Store.DeleteRemovesOne | server.go:250-267 | Delete succeeds exactly when the resource exists, then removes exactly that key; otherwise it fails with NotFound("unknown resource") and changes nothing |
| Store.DeleteKeepsFiled | server.go:250-267 | Delete keeps every resource filed under its own type and id |
| Store.CreateThenDelete | server.go:163-267 | Deleting what was just created restores the store, with the collection of that type present |
| Ordering.SortedIds | server.go:117-120 | The ids of a set in strictly ascending order |
| Ordering.StrictlySortedUnique | server.go:117-120 | Two strictly sorted id sequences with the same elements are equal |
| Ordering.MinExists | server.go:117-120 | A non-empty set of ids has a least element |
| Ordering.ListingIds | server.go:104-120 | The ids of a collection's listing are its keys in ascending order |
| Ordering.ListingMember | server.go:104-120 | A resource is in the listing exactly when it is in the collection |
| Ordering.ListingIsSorted | server.go:104-120 | The listing is strictly ascending by id and holds exactly the collection's resources |
| Ordering.ArrangedIdsStrictlySorted | server.go:117-120 | A duplicate-free arrangement of a collection sorted by id is strictly ascending |
| Ordering.ArrangedIdsAreKeys | server.go:104-115 | The ids of a complete arrangement are the collection's keys |
| Ordering.ArrangementIsListing | server.go:104-120 | Any duplicate-free arrangement of a collection, sorted by id, is the listing |
| MemoryServer.SortById | server.go:117-120 | Sorts a resource array in place by id and permutes its elements |
| MemoryServer.LeastFrom | server.go:117-120 | The index of a least id in a suffix of the array |
| MemoryServer.SelectStep | server.go:117-120 | One selection swap extends the sorted prefix and keeps the elements |
| MemoryServer.SwapKeepsElements | server.go:117-120 | Swapping two elements keeps the multiset of the elements |
| MemoryServer.Gather | server.go:104-115 | Each resource of the collection is collected exactly once, in any order |
| MemoryServer.Page | server.go:122-138 | Slicing the sorted array gives the Paginate page: array[offset:end] for a positive offset, the whole array otherwise, or the pagination error |
| MemoryServer.Server.constructor | server.go:29-43 | A new server has the cleaned prefix, the given allow-list, an empty store and counter 0 |
| MemoryServer.Server.CheckType | server.go:58-70 | The allow-list loop agrees with TypeCheck |
| MemoryServer.Server.LinkRelationships | server.go:269-276 | Visiting the relationships in any order gives the linked resource |
| MemoryServer.Server.List | server.go:102-143 | The answer is the Paginate page of the collection's ascending listing, that is listing[offset:end], the whole listing, or the pagination error |
| MemoryServer.Server.Find | server.go:145-161 | The answer is Store.Find on the current store |
| MemoryServer.Server.Create | server.go:163-207 | The answer, store and counter are Store.Create's outcome on the old state; the filing invariant is kept |
| MemoryServer.Server.Update | server.go:209-248 | The answer and store are Store.Update's outcome on the old state; the counter does not move; the filing invariant is kept |
| MemoryServer.Server.Delete | server.go:250-267 | The answer and store are Store.Delete's outcome on the old state; the counter does not move; the filing invariant is kept |
| MemoryServer.Server.Serve | server.go:46-100 | The response and new state are Answer's: allow-list first, then the document decode, then the intent, with "unsupported request method" for every other intent |
| MemoryServer.UnlistedTypeRefused | server.go:58-70 | A type outside a non-empty allow-list is refused with "unsupported resource type" and changes nothing |
| MemoryServer.ReadsChangeNothing | server.go:82-97 | Only create, update and delete change the store; only create moves the counter |
| MemoryServer.AnswerKeepsFiled | server.go:82-97 | Every answer keeps every resource filed under its own type and id |
| MemoryServer.ListedAnswerSorted | server.go:102-143 | A listed answer is strictly ascending by id and holds resources of the requested type from its collection |
| MemoryServer.ListedOnlyWhenListing | server.go:82-143 | Only a list request is answered with a list, which is the requested page of the listing |
| Client.NewClient | client.go:32-45 | One trailing slash is removed from the base URI; a response limit of 0 becomes 8192 and any other limit is kept |
| Client.NewClientIdempotent | client.go:34-39 | Normalising twice is normalising once, unless the URI ends in two slashes |
| Client.NewClientTrimsOnce | client.go:34 | "a//" becomes "a/", and only a second normalisation gives "a" |
| Client.MergeOptions | client.go:212-232 | The entry of each key is the base entry followed by the extra entry; an existing map stays a map |
| Client.MergeInto | client.go:214-220 | The append-or-replace loop over the extra map, in any visiting order, gives the key-wise concatenation |
| Client.MergeStep | client.go:187-232 | One extra request merged in, given that its maps are written only into existing maps |
| Client.MergeRequests | client.go:185-236 | The merge loop equals the fold Merged, whenever Go's writes land in existing maps |
| Client.MergedKeepsLocation | client.go:185-236 | Merging never changes the intent or the location; merging nothing returns the base |
| Client.MergedConcatenates | client.go:189-191 | Include and sort are the base's followed by every extra request's, in argument order |
| Client.MergedPages | client.go:194-205 | Each page option is the last positive value among the extra requests, or the base's when none is positive |
| Client.LastPositiveIsLast | client.go:194-205 | The last positive value is the one after which no value is positive |
| Client.LastPositiveOfNone | client.go:194-205 | With no positive value the base stays |
| Client.MergedOptions | client.go:212-232 | Each fields or filters entry is the base entry followed by every extra request's entry, in argument order |
| Client.MergedInBatches | client.go:185-236 | Merging a then b is merging a + b |
| Client.FlattenSnoc | client.go:189-191 | Appending one more list to the flattened lists appends it at the end |
| Client.ListRequest | client.go:49-54 | A list request for the type, with the extra requests merged in |
| Client.FindRequest | client.go:58-64 | A find request for the type and id, with the extra requests merged in |
| Client.ListWithFieldsPanics | client.go:50-53 | The base of List cannot take an extra request with fields, yet the evidently intended merge gives fields {"foo": ["bar"]} |
| Client.Do | client.go:102-183 | A missing document fails first; 202 or 204 on a write returns nothing, and an empty reply only arises that way; the first error of a decoded body is returned with the document; success needs 200 and a body without errors |
| Client.FirstErrorReported | client.go:172-175 | A decoded body with errors yields the document and its first error, whatever the status |
| Client.StatusDecides | client.go:177-182 | A body without errors is the answer under 200, and "missing error" under any other status |
| Client.ReadsAlwaysDecode | client.go:152-159 | A read never ends with neither a document nor an error |
| Unmarshal.UnmarshalHybrid | unmarshal.go:14-37 | A value starting with `{` fills the single branch, one starting with `[` fills the list branch, and anything else is "invalid" |
| Unmarshal.FreshDecodeSetsOneBranch | unmarshal.go:14-37 | Decoding into a fresh container sets exactly one branch, chosen by the first character |
| Unmarshal.LiteralsRefused | unmarshal.go:23 | Empty input, numbers, strings, booleans and null are "invalid" |
| Unmarshal.DecodeRelationships | unmarshal.go:27-37 | A relationships object decodes exactly when every member decodes, and holds exactly the member names |
| Unmarshal.LastMemberWins | unmarshal.go:27-37 | A repeated name keeps the container of its last member |
| Unmarshal.BadMemberFails | unmarshal.go:36 | A member that is neither an object nor an array makes the whole object fail |
| Unmarshal.SkipSpace | unmarshal.go:42 | The input without its leading JSON whitespace |
| Unmarshal.UnmarshalDocument | unmarshal.go:40-48 | Empty input is EOF; an object goes to the decoder; every success is the decoder's document or, for null, the empty document |
| Unmarshal.SpaceIgnored | unmarshal.go:40-48 | Leading whitespace does not change the outcome |
| Unmarshal.OtherValuesRefused | unmarshal.go:40-48 | A top level that is not an object (or null) fails |

## Left out

- HTTP I/O is not modelled:
  - response writing in `ServeHTTP`;
  - `WriteResource`, `WriteResources`, `WriteError` and `ParseDocument`, whose files are not part of this model.

  A server answer is a `Response` value. The decoded request document is a
  parameter of `Serve`, absent or decoded or undecodable.
- `Parser.ParseRequest`, `Intent.DocumentExpected`, `Intent.RequestMethod`, `Request.Self` and `Request.Query` are not part of this model:
  - the server takes an already parsed request;
  - the client takes whether a document is expected as a parameter;
  - the URL is never built.
- The declaring file of the intent-carrying request used by `server.go` and `client.go` is not part of this model. Its fields are taken from their uses (module `Intents`).
- The server's `sync.Mutex` is left out. It only serialises requests, and the model is sequential.
- Pointer aliasing is left out. It arises in three places, and the model keeps values:
  - `linkRelationships` writes into relationship documents shared with the caller;
  - `createResource` writes the generated id into the caller's resource and sets `req.ResourceID`;
  - the maps and slices that `mergeRequests` shares with its arguments.
- A relationship entry holding a nil document makes Go panic in `linkRelationships`. Documents here are values, so that entry cannot be expressed.
- MemoryServer.Server.List: requires `SliceDefined`, the case Go can slice. When the offset and end pass the length check but the end lies below the offset, Go panics.
- MemoryServer.Server.Serve: requires `Servable`, which combines List's precondition with a document being present for create and update, as `DocumentExpected` guarantees in Go.
- Store.Paginate: the product `PageNumber * PageSize` is unbounded here. In Go it is an int64 product converted to int, and a huge page number can wrap it.
- Store.Create: the id counter is unbounded here. In Go it is an `int` (`server.go:178-180`), which would wrap after 2^63 - 1 generated ids.
- The `Status` of an error is an integer, as `helpers.go` and the server's error values use it. `error.go:42` declares it a string.
- `Resource.Relationships` is a map from name to Document, as `server.go` uses it. `resource.go:27` declares a map to HybridDocument, and that decoding is modelled on its own (`Unmarshal.DecodeRelationships`).
- Unmarshal.UnmarshalDocument: the JSON decoder of a value is a function parameter. The rules for empty input, `null` and non-objects stand in for encoding/json. They are stated for the first non-space character only, so an object's contents (including `{}`) are left to the decoder.
- Client.Do: everything from encoding the body to decoding the response is folded into one `Exchange` value:
  - the transport, the authorizer, the URL and the content type;
  - the response limit and `UseNumber`.
- The client's `Create`, `Update` and `Delete` wrappers are left out. They only build a request for `Do`. `List` and `Find` are modelled by the requests they build (`ListRequest` and `FindRequest`).
- The server's errors are `Store.Problem` values: `BadRequest(detail)` and `NotFound(detail)` stand for the `*Error` values that the functions of those names return in `server.go`. Their files are not part of this model, so only the kind and the detail are kept. They are distinct from `Errors.BadRequest`, which models `helpers.go`.
- Go does not distinguish a nil slice from an empty one in any path modelled here, so slices are sequences. Nil maps are `None`.
- Left out for being thin wrappers or demos:
  - `payload.go`, `marshal.go`, `http.go`;
  - the echo adapter and `MapToStruct`;
  - the example programs.
- The newer API that `request_test.go` expects is not implemented by `request.go`, so it is not modelled. It covers method override, a prefix argument, and Action/Target classification.

## Findings

| source | as written | input that shows it | evidently intended | confidence | as-written member | corrected member |
|---|---|---|---|---|---|---|
| client.go:50-53, 59-63, 213-232 | `List` and `Find` build the base request without `Fields` or `Filters` maps. `mergeRequests` then assigns `req.Fields[k]` into that nil map. | `List("foo", Request{Fields: map[string][]string{"foo": {"bar"}}})` writes into a nil map, and Go panics | Create the map on the first write, as `request.go:133-135` and `145-147` do, so the merged request has fields {"foo": ["bar"]} | high; not executed | Client.ListWithFieldsPanics | Client.MergedOptions |
