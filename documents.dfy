/** The JSON:API document model (jsonapi.org/format, "Document Structure"):
    documents, resources, links and the one-or-many containers. */
module Documents {
  import opened Wrappers
  import opened Values
  import opened Errors

  /** A single value or a list of values.  Go keeps two nullable fields;
      the decoder sets at most one of them. */
  datatype Hybrid<+T> = Hybrid(one: Option<T>, many: Option<seq<T>>)

  /** Links related to a document's primary data. */
  datatype DocumentLinks = DocumentLinks(
    self: string,
    related: string,
    first: string,
    previous: string,
    next: string,
    last: string)

  /** A resource object, identified by its type and id.  Relationships map a
      name to an embedded linkage document. */
  datatype Resource = Resource(
    resourceType: string,
    id: string,
    attributes: Option<Map>,
    relationships: Option<map<string, Document>>,
    meta: Option<Map>)

  /** A single resource or a list of resources. */
  type HybridResource = Hybrid<Resource>

  /** A single document or a list of documents. */
  type HybridDocument = Hybrid<Document>

  /** The top-level structure of every request and response body. */
  datatype Document = Document(
    data: Option<HybridResource>,
    included: seq<Resource>,
    links: Option<DocumentLinks>,
    errors: seq<Error>,
    meta: Option<Map>)

  const EmptyHybrid: Hybrid<Resource> := Hybrid(None, None)

  const EmptyDocument: Document := Document(None, [], None, [], None)

  const EmptyLinks: DocumentLinks := DocumentLinks("", "", "", "", "", "")
}
