/** The request descriptor that the in-memory server and the client exchange:
    the classified operation (the intent), the location and the query
    options.  The intents are those of the JSON:API operations. */
module Intents {
  import opened Wrappers

  datatype Intent =
    | ListResources
    | FindResource
    | GetRelatedResources
    | GetRelationship
    | CreateResource
    | AppendToRelationship
    | UpdateResource
    | SetRelationship
    | DeleteResource
    | RemoveFromRelationship
    | CollectionAction
    | ResourceAction

  /** Query options that map a type to a list of names or values: `None`
      where Go leaves the map nil. */
  type Options = Option<map<string, seq<string>>>

  datatype Request = Request(
    intent: Intent,
    resourceType: string,
    resourceID: string,
    relatedResource: string,
    relationship: string,
    includes: seq<string>,
    pageNumber: int,
    pageSize: int,
    pageOffset: int,
    pageLimit: int,
    sorting: seq<string>,
    fields: Options,
    filters: Options)

  /** A request with only the intent and the location set. */
  function At(intent: Intent, resourceType: string, resourceID: string): Request {
    Request(intent, resourceType, resourceID, "", "", [], 0, 0, 0, 0, [], None, None)
  }

  /** The number of entries of an optional map (Go's `len` on a nil map is 0). */
  function Size(m: Options): nat {
    if m.Some? then |m.value| else 0
  }
}
