/**
 The ownCloud storage adapter: identity resolution, item lookup, child listing
 and client configuration, over a transport given as a function from requests
 to reply bodies.
 */
module OwnCloud {
  import opened Wrappers
  import opened Strings
  import opened Storage
  import opened ItemIds
  import opened Paths
  import opened WebDav
  import opened Responses

  /** The ways an adapter operation fails. */
  datatype Error =
    | MalformedResponse             // the reply body is not XML
    | PropertyNotFound(message: string)
    | MissingUsername
    | InvalidItemId(reason: IdError)
    | ItemNotFound                  // a Depth 0 reply without any `d:response`

  /** The parsed `external_api_url` of the account. */
  datatype ApiUrl = ApiUrl(scheme: string, netloc: string, path: string)

  /** The configuration handed to the file-transfer client. */
  datatype WbConfig = WbConfig(folder: string, host: string, verifySsl: bool)

  /** The two single properties the adapter reads from a reply. */
  datatype Property = CurrentUserPrincipal | DisplayName

  function Lookup(doc: Doc, prop: Property): Option<string> {
    match prop
    case CurrentUserPrincipal => doc.principalHref
    case DisplayName => doc.displayName
  }

  function NotFoundMessage(prop: Property): string {
    match prop
    case CurrentUserPrincipal => "current-user-principal not found in response"
    case DisplayName => "displayname not found in response"
  }

  /** The display name used when the server reports none. */
  const DefaultName := "default-name"

  /** `_fallback_username` of this adapter: always a non-empty name. */
  function FallbackUsername(): (u: Option<string>)
    ensures u.Some? && u.value != ""
  {
    Some("default-username")
  }

  /**
   `_parse_property`: the property's text when it is present and non-empty;
   a reply that is not XML fails before any lookup.
   */
  function ParseProperty(reply: Reply, prop: Property): (r: Result<string, Error>)
    ensures reply.Malformed? ==> r == Failure(MalformedResponse)
    ensures r.Success? <==> reply.Xml? && Lookup(reply.doc, prop).Some? && Lookup(reply.doc, prop).value != ""
    ensures r.Success? ==> r.value != "" && Lookup(reply.doc, prop) == Some(r.value)
    ensures reply.Xml? && r.Failure? ==> r == Failure(PropertyNotFound(NotFoundMessage(prop)))
  {
    match reply
    case Malformed => Failure(MalformedResponse)
    case Xml(doc) =>
      match Lookup(doc, prop)
      case Some(text) => if text != "" then Success(text) else Failure(PropertyNotFound(NotFoundMessage(prop)))
      case None => Failure(PropertyNotFound(NotFoundMessage(prop)))
  }

  /**
   `_parse_displayname`: a missing display name is replaced by `DefaultName`;
   only a reply that is not XML fails (the parse error is not the caught kind).
   */
  function ParseDisplayName(reply: Reply): (r: Result<string, Error>)
    ensures r.Failure? <==> reply.Malformed?
    ensures r.Failure? ==> r.error == MalformedResponse
    ensures r.Success? ==> r.value != ""
    ensures r.Success? ==> r.value == DefaultName || Lookup(reply.doc, DisplayName) == Some(r.value)
    ensures reply.Xml? && (reply.doc.displayName.None? || reply.doc.displayName == Some("")) ==> r == Success(DefaultName)
    ensures reply.Xml? && reply.doc.displayName.Some? && reply.doc.displayName.value != "" ==>
      r == Success(reply.doc.displayName.value)
  {
    var r := ParseProperty(reply, DisplayName);
    if r.Success? then r
    else if r.error.PropertyNotFound? then Success(DefaultName)
    else r
  }

  /**
   The username for the principal fallback: `extras["username"]` when it is
   present and non-empty, else the fallback when that is non-empty, else
   `MissingUsername`.
   */
  function ResolveUsername(extras: map<string, string>, fallback: Option<string>): (r: Result<string, Error>)
    ensures r.Success? ==> r.value != ""
    ensures r.Failure? ==> r.error == MissingUsername
    ensures "username" in extras && extras["username"] != "" ==> r == Success(extras["username"])
    ensures r.Success? ==> ("username" in extras && r.value == extras["username"]) || Some(r.value) == fallback
    ensures r.Failure? <==> ("username" !in extras || extras["username"] == "") && (fallback.None? || fallback == Some(""))
  {
    var username :=
      if "username" in extras && extras["username"] != "" then Some(extras["username"]) else fallback;
    if username.None? || username.value == "" then Failure(MissingUsername) else Success(username.value)
  }

  /** With this adapter's fallback there is always a username, so `MissingUsername` never arises. */
  lemma MissingUsernameUnreachable(extras: map<string, string>)
    ensures ResolveUsername(extras, FallbackUsername()).Success?
  {
  }

  /** The principal path derived from a username when the server reports no principal. */
  function FallbackPrincipalUrl(username: string): (url: string)
    ensures LStrip(url) == "remote.php/dav/files/" + username + "/"
  {
    var rest := "remote.php/dav/files/" + username + "/";
    LStripExact("/", rest);
    "/" + rest
  }

  /** The request path built from the fallback principal URL. */
  lemma FallbackPrincipalPath(u: string)
    ensures StripAbsolutePath(LStrip(FallbackPrincipalUrl(u))) == "remote.php/dav/files/" + u + "/"
  {
    StripAbsolutePathIdempotent(FallbackPrincipalUrl(u));
  }

  /** The principal's leading slashes are removed twice in the source; the second time removes nothing. */
  lemma StripTwice(url: string)
    ensures StripAbsolutePath(LStrip(url)) == LStrip(url)
  {
    StripAbsolutePathIdempotent(url);
  }

  /** The first request of identity resolution: the account root, Depth 0, current-user-principal. */
  function PrincipalRequest(): (req: Request)
    ensures req.uriPath == "" && req.depth == Zero && req.body == CurrentUserPrincipalBody
  {
    Request(StripAbsolutePath(""), Zero, CurrentUserPrincipalBody)
  }

  /**
   The path of the second request of `get_external_account_id`: the reported
   principal without its leading slashes, or, when none is reported, the
   username-based convention.
   */
  function PrincipalPath(reply: Reply, extras: map<string, string>, fallback: Option<string>): (r: Result<string, Error>)
    ensures r.Success? ==> NoLeadingSlash(r.value)
    ensures r.Failure? ==> r.error == MalformedResponse || r.error == MissingUsername
    ensures reply.Malformed? ==> r == Failure(MalformedResponse)
    ensures ParseProperty(reply, CurrentUserPrincipal).Success? ==>
      r == Success(StripAbsolutePath(ParseProperty(reply, CurrentUserPrincipal).value))
    ensures reply.Xml? && ParseProperty(reply, CurrentUserPrincipal).Failure? ==>
      match ResolveUsername(extras, fallback)
      case Success(u) => r == Success("remote.php/dav/files/" + u + "/")
      case Failure(e) => r == Failure(e)
  {
    var principal := ParseProperty(reply, CurrentUserPrincipal);
    if principal.Success? then
      var url := LStrip(principal.value);
      StripTwice(principal.value);
      Success(StripAbsolutePath(url))
    else if principal.error == MalformedResponse then
      Failure(MalformedResponse)
    else
      match ResolveUsername(extras, fallback)
      case Failure(e) => Failure(e)
      case Success(u) =>
        FallbackPrincipalPath(u);
        Success(StripAbsolutePath(LStrip(FallbackPrincipalUrl(u))))
  }

  /**
   `get_external_account_id`: resolve the principal, then read its display name.
   It fails only when a reply is not XML, and what it returns is never empty.
   */
  function GetExternalAccountId(net: Network, extras: map<string, string>): (r: Result<string, Error>)
    ensures r.Failure? ==> r.error == MalformedResponse
    ensures r.Success? ==> r.value != ""
    ensures net(PrincipalRequest()).Malformed? ==> r == Failure(MalformedResponse)
    ensures net(PrincipalRequest()).Xml? && ParseProperty(net(PrincipalRequest()), CurrentUserPrincipal).Failure? ==>
      var u := if "username" in extras && extras["username"] != "" then extras["username"] else "default-username";
      r == ParseDisplayName(net(Request("remote.php/dav/files/" + u + "/", Zero, DisplayNameBody)))
    ensures ParseProperty(net(PrincipalRequest()), CurrentUserPrincipal).Success? ==>
      var principal := ParseProperty(net(PrincipalRequest()), CurrentUserPrincipal).value;
      r == ParseDisplayName(net(Request(StripAbsolutePath(principal), Zero, DisplayNameBody)))
  {
    MissingUsernameUnreachable(extras);
    var path :- PrincipalPath(net(PrincipalRequest()), extras, FallbackUsername());
    ParseDisplayName(net(Request(path, Zero, DisplayNameBody)))
  }

  /** `get_item_info`: the first `d:response` of a Depth 0 PROPFIND, under the identifier's own path. */
  function GetItemInfo(net: Network, itemId: string): (r: Result<Item, Error>)
    ensures ParseItemId(itemId).Failure? ==> r == Failure(InvalidItemId(ParseItemId(itemId).error))
    ensures r.Success? ==>
      (ParseItemId(itemId).Success? && ParseItemId(r.value.id) == Success((r.value.itemType, ParseItemId(itemId).value.1)))
    ensures r == Failure(ItemNotFound) <==>
      (ParseItemId(itemId).Success? &&
       var reply := net(Request(StripAbsolutePath(ParseItemId(itemId).value.1), Zero, AllPropsBody));
       reply.Xml? && reply.doc.responses == [])
    ensures ParseItemId(itemId).Success? ==>
      var path := ParseItemId(itemId).value.1;
      var reply := net(Request(StripAbsolutePath(path), Zero, AllPropsBody));
      && (reply.Malformed? ==> r == Failure(MalformedResponse))
      && (reply.Xml? && reply.doc.responses != [] ==> r == Success(ParseResponseElement(reply.doc.responses[0], path)))
  {
    match ParseItemId(itemId)
    case Failure(e) => Failure(InvalidItemId(e))
    case Success((_, path)) =>
      match net(Request(StripAbsolutePath(path), Zero, AllPropsBody))
      case Malformed => Failure(MalformedResponse)
      case Xml(doc) =>
        if doc.responses == [] then Failure(ItemNotFound)
        else Success(ParseResponseElement(doc.responses[0], path))
  }

  /**
   `list_child_items`: a Depth 1 PROPFIND on the folder, whose entries are
   filtered as `Children` describes. The page cursor is not used.
   */
  function ListChildItems(net: Network, api: ApiUrl, itemId: string, filter: Option<ItemType>): (r: Result<seq<Item>, Error>)
    ensures ParseItemId(itemId).Failure? ==> r == Failure(InvalidItemId(ParseItemId(itemId).error))
    ensures ParseItemId(itemId).Success? ==>
      var path := ParseItemId(itemId).value.1;
      var reply := net(Request(StripAbsolutePath(path), One, AllPropsBody));
      && (reply.Malformed? ==> r == Failure(MalformedResponse))
      && (reply.Xml? ==> r.Success? && forall k :: 0 <= k < |r.value| ==> Listable(r.value[k], Query(api.path, path, filter)))
      && (reply.Xml? ==> r == Success(Children(reply.doc.responses, Query(api.path, path, filter))))
  {
    match ParseItemId(itemId)
    case Failure(e) => Failure(InvalidItemId(e))
    case Success((_, path)) =>
      match net(Request(StripAbsolutePath(path), One, AllPropsBody))
      case Malformed => Failure(MalformedResponse)
      case Xml(doc) => Success(Children(doc.responses, Query(api.path, path, filter)))
  }

  /** The root path "/" is requested as "" and compares as "". */
  lemma RootPathFacts()
    ensures StripAbsolutePath("/") == "" && RStrip("/") == ""
  {
    LStripExact("/", "");
    RStripExact("", "/");
    assert "/" == "/" + "" == "" + "/";
  }

  /**
   `list_root_items`: the children of the root folder, requested at the account
   root; the root itself is never among them.
   */
  function ListRootItems(net: Network, api: ApiUrl): (r: Result<seq<Item>, Error>)
    ensures net(Request("", One, AllPropsBody)).Malformed? <==> r.Failure?
    ensures r.Success? ==> forall k :: 0 <= k < |r.value| ==> Trimmed(IdPath(r.value[k]))
    ensures r == ListChildItems(net, api, RootId(), None)
  {
    RootIdIsRoot();
    RootPathFacts();
    var r := ListChildItems(net, api, RootId(), None);
    var q := Query(api.path, "/", None);
    assert r.Success? ==> forall k :: 0 <= k < |r.value| ==> Listable(r.value[k], q);
    assert r.Success? ==> forall k :: 0 <= k < |r.value| ==> Trimmed(IdPath(r.value[k])) by {
      if r.Success? {
        forall k | 0 <= k < |r.value| ensures Trimmed(IdPath(r.value[k])) {
          assert Listable(r.value[k], q);
          assert IdPath(r.value[k]) != "/";
        }
      }
    }
    r
  }

  /** `build_wb_config`: the host is the base URL's origin, which splits back into scheme and authority. */
  function BuildWbConfig(api: ApiUrl): (c: WbConfig)
    ensures c.folder == "" && c.verifySsl
    ensures ':' !in api.scheme ==> SplitOnce(c.host, ':') == Some((api.scheme, "//" + api.netloc))
  {
    var host := api.scheme + "://" + api.netloc;
    assert ':' !in api.scheme ==> SplitOnce(host, ':') == Some((api.scheme, "//" + api.netloc)) by {
      if ':' !in api.scheme {
        assert host == api.scheme + [':'] + ("//" + api.netloc);
        SplitOnceJoin(api.scheme, ':', "//" + api.netloc);
      }
    }
    WbConfig("", host, true)
  }

  /** Which username the principal fallback uses. */
  lemma ResolveUsernameExamples()
    ensures ResolveUsername(map[], None) == Failure(MissingUsername)
    ensures ResolveUsername(map["username" := "alice"], FallbackUsername()) == Success("alice")
    ensures ResolveUsername(map["username" := ""], FallbackUsername()) == Success("default-username")
    ensures ResolveUsername(map[], FallbackUsername()) == Success("default-username")
  {
  }

  /** A server without principal support: the display name is read under `remote.php/dav/files/alice/`. */
  lemma PrincipalFallbackExample(net: Network)
    requires net(PrincipalRequest()) == Xml(Doc([], None, None))
    ensures GetExternalAccountId(net, map["username" := "alice"])
      == ParseDisplayName(net(Request("remote.php/dav/files/alice/", Zero, DisplayNameBody)))
  {
    assert "remote.php/dav/files/" + "alice" + "/" == "remote.php/dav/files/alice/";
  }
}
