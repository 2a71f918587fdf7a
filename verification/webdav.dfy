/**
 What the adapter sends to and reads back from the WebDAV server, with the XML
 already parsed into the few values the adapter looks at.
 */
module WebDav {
  import opened Wrappers

  /** The `Depth` header: the resource alone, or the resource and its children. */
  datatype Depth = Zero | One

  /** The three PROPFIND request bodies the adapter sends. */
  datatype Body = CurrentUserPrincipalBody | DisplayNameBody | AllPropsBody

  /** One PROPFIND: the request path, the `Depth` header and the body. */
  datatype Request = Request(uriPath: string, depth: Depth, body: Body)

  /** A `d:href` with text: the raw text and the path component of its percent-decoded URL. */
  datatype Href = Href(text: string, path: string)

  /** A `d:resourcetype` element, and whether it holds a `d:collection` child. */
  datatype ResourceType = ResourceType(collection: bool)

  /**
   One `d:response` of a multistatus. `href` is None when the element is
   missing or has no text; `displayName` is the text of the first nested
   `d:displayname`, None when there is none or it has no text.
   */
  datatype Resp = Resp(href: Option<Href>, resourceType: Option<ResourceType>, displayName: Option<string>)

  /**
   A well-formed reply body: its `d:response` children in document order, and the
   text (None when missing or text-less) of its first `current-user-principal/href`
   and of its first `displayname`.
   */
  datatype Doc = Doc(responses: seq<Resp>, principalHref: Option<string>, displayName: Option<string>)

  /** A reply body either fails to parse as XML or yields a document. */
  datatype Reply = Malformed | Xml(doc: Doc)

  /** The transport: the reply body the server gives to each request. */
  type Network = Request -> Reply
}
