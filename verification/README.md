# ownCloud storage adapter — a Dafny model

This project models the ownCloud/WebDAV storage adapter of gravyvalet
(`addon_imps/storage/owncloud.py`): the class that turns the generic
storage-addon operations (resolve the external account id, list the root,
get one item, list a folder's children, build the file-transfer client
configuration) into PROPFIND requests and turns the multistatus replies into
items.

With the network and the XML parser taken out, what remains is string and
sequence logic, and that is what the model states and proves:

- the item-identifier codec `"{type}:{path}"`: split on the first colon, and
  the empty id stands for the root folder;
- path normalisation: leading slashes are stripped from request paths, and an
  href is turned into an item path by removing the base URL's path as a plain
  string prefix and then trimming slashes;
- building one item from one `d:response`;
- the child-listing filter;
- the fallbacks of identity resolution.

Modules, leaves first:

| module | file | contents |
|---|---|---|
| `Wrappers` | wrappers.dfy | `Option`, `Result` |
| `Strings` | strings.dfy | Python's `lstrip`/`rstrip`/`strip("/")`, `split(":", 1)`, `split("/")[-1]`, each characterised by its contract and by a uniqueness lemma |
| `Storage` | storage.dfy | `ItemType`, its tag values, `Item` (the toolkit's `ItemResult`) |
| `ItemIds` | item_ids.dfy | `_make_item_id`, `_parse_item_id`, `_owncloud_root_id` |
| `Paths` | paths.dfy | `_strip_absolute_path`, `_href_to_path` |
| `WebDav` | webdav.dfy | requests, reply documents, `d:response` entries, the transport as a function |
| `Responses` | responses.dfy | `_parse_response_element` and the filtering loop of `list_child_items` |
| `OwnCloud` | owncloud.dfy | the adapter's operations, with their error paths |

Abstractions:

- **The transport** is a function `Network = Request -> Reply`. A `Request`
  records the request path, the `Depth` header and which of the three
  request bodies is sent. So a contract can name the exact request an
  operation issues, for example the second PROPFIND of identity resolution.
- **A reply** is `Malformed`, for a body `ET.fromstring` rejects, or a `Doc`.
  A `Doc` holds the `d:response` children in document order, plus the text
  of the first `current-user-principal/href` and of the first `displayname`.
  A missing element and an element without text both become `None`.
- **A `d:response`** is `Resp(href, resourceType, displayName)`. The href
  carries its raw text, which the emptiness test looks at, and the path
  component of its percent-decoded URL, which is what `_href_to_path` works
  on.
- **Exceptions** become `Result` values with an `Error`. The XML parse error
  is a `SyntaxError`, not a `ValueError`. So a malformed reply is not caught
  by the `except ValueError` around the principal lookup, nor inside
  `_parse_displayname`. The model propagates it as `MalformedResponse` in
  both places.
- **`ItemType` values** come from the addon toolkit, whose enum is not part of
  this model. The tags are taken to be `"FILE"` and `"FOLDER"`, the member
  names. The actual values of the toolkit's enum are not known here and may
  be lower-case (`"file"`, `"folder"`). Every proof uses only the facts in
  `Storage.TypeValueFacts`: the two tags differ and neither contains a colon.
  So the proofs hold for either spelling.

## Model

| member | source | states |
|---|---|---|
| `Strings.LStrip` | addon_imps/storage/owncloud.py:132-133 | `lstrip("/")` removes a run of slashes from the front and nothing else; what remains does not start with a slash |
| `Strings.RStrip` | addon_imps/storage/owncloud.py:122 | `rstrip("/")` removes a run of slashes from the back and nothing else; what remains does not end with a slash |
| `Strings.Strip` | addon_imps/storage/owncloud.py:209 | `strip("/")` leaves no slash at either end, and is empty exactly when the input is all slashes |
| `Strings.LStripExact` | addon_imps/storage/owncloud.py:133 | slashes in front of a string that does not start with one are exactly what `lstrip` removes |
| `Strings.RStripExact` | addon_imps/storage/owncloud.py:122 | slashes behind a string that does not end with one are exactly what `rstrip` removes |
| `Strings.StripExact` | addon_imps/storage/owncloud.py:209 | `strip` gives back the slash-free core of a string wrapped in slashes |
| `Strings.SplitOnce` | addon_imps/storage/owncloud.py:220 | the two-part unpack of `split(":", maxsplit=1)` fails exactly when there is no colon; otherwise the left part holds no colon and the two parts rejoin to the input |
| `Strings.SplitOnceJoin` | addon_imps/storage/owncloud.py:220 | splitting `a + ":" + b` on the first colon gives `(a, b)` whenever `a` has no colon, whatever `b` holds |
| `Strings.LastSegment` | addon_imps/storage/owncloud.py:164 | `split("/")[-1]` is slash-free, ends the input, and is preceded by a slash unless it is the whole input |
| `Strings.LastSegmentUnique` | addon_imps/storage/owncloud.py:164 | only one string has those properties |
| `Strings.LastSegmentAfterSlash` | addon_imps/storage/owncloud.py:164 | the last segment of `a + "/" + name` is `name` when `name` is slash-free |
| `Storage.ItemTypeOf` | addon_imps/storage/owncloud.py:221 | `ItemType(token)` succeeds exactly on the two tag values, and returns the type whose tag is the token |
| `Storage.TypeValueFacts` | addon_imps/storage/owncloud.py:213-214 | the two tags differ and contain no colon |
| `ItemIds.MakeItemId` | addon_imps/storage/owncloud.py:213-214 | the id is non-empty, and splitting it at its first colon gives back the type's tag and the path |
| `ItemIds.ParseItemId` | addon_imps/storage/owncloud.py:217-221 | the empty id decodes to the root folder; a non-empty id without a colon fails as `MissingSeparator`; a decoded non-empty id re-encodes to itself |
| `ItemIds.ParseMakeItemId` | addon_imps/storage/owncloud.py:213-221 | decoding an encoded id gives back the pair, for every path, including paths with colons and the empty path |
| `ItemIds.ParseItemIdFails` | addon_imps/storage/owncloud.py:217-221 | decoding fails exactly on non-empty ids that are no `"{type}:{path}"` encoding |
| `ItemIds.ParseItemIdUnknownType` | addon_imps/storage/owncloud.py:220-221 | a colon-free token that is no tag, followed by a colon and any path, fails as `UnknownItemType` carrying that token |
| `ItemIds.RootIdIsRoot` | addon_imps/storage/owncloud.py:217-225 | the root id and the empty id both decode to `(FOLDER, "/")` |
| `ItemIds.ParseItemIdExamples` | addon_imps/storage/owncloud.py:217-221 | the folder tag followed by `:a:b` decodes to path `a:b`, so only the first colon separates; `bogus` fails for lack of a colon |
| `ItemIds.UnknownTypeExamples` | addon_imps/storage/owncloud.py:220-221 | `bogus:x` fails on the unknown type `bogus`, and `:` on the unknown empty type |
| `ItemIds.RootId` | addon_imps/storage/owncloud.py:224-225 | the root id is non-empty and decodes to `(FOLDER, "/")` |
| `Paths.StripAbsolutePath` | addon_imps/storage/owncloud.py:132-133 | the request path starts without a slash, and only leading slashes were removed |
| `Paths.StripAbsolutePathIdempotent` | addon_imps/storage/owncloud.py:132-133 | stripping twice is stripping once |
| `Paths.BasePath` | addon_imps/storage/owncloud.py:202 | the base URL's path with `rstrip("/")` then `lstrip("/")` is exactly its `strip("/")`, so it has no slash at either end |
| `Paths.BasePathIsStrip` | addon_imps/storage/owncloud.py:202 | trimming the back and then the front gives the same string as trimming the front and then the back |
| `Paths.HrefToPath` | addon_imps/storage/owncloud.py:198-210 | the result is `"/"` or a non-empty path with no slash at either end; an href path that is the base path gives `"/"` |
| `Paths.RelativePath` | addon_imps/storage/owncloud.py:203-210 | with the base path already normalised: the result is `"/"` or a trimmed path, and `"/"` when the href path without leading slashes is the base |
| `Paths.HrefToPathUnderBase` | addon_imps/storage/owncloud.py:198-210 | an href path made of slashes, the base path, slashes, a trimmed path and slashes gives exactly that trimmed path |
| `Paths.HrefToPathOutsideBase` | addon_imps/storage/owncloud.py:198-210 | an href path that does not start with the base path is only trimmed |
| `Paths.HrefToPathOfBase` | addon_imps/storage/owncloud.py:198-210 | an href path that is the base path between any slashes gives `"/"` |
| `Paths.HrefToPathPlainPrefix` | addon_imps/storage/owncloud.py:203-205 | the prefix test is on characters, not segments: the base followed directly by any trimmed text, such as `u` followed by `2/x`, gives that text |
| `Paths.HrefToPathAllSlashes` | addon_imps/storage/owncloud.py:198-210 | under a non-empty base, an href path made only of slashes gives `"/"` |
| `Responses.ParseResponseElement` | addon_imps/storage/owncloud.py:149-170 | FOLDER exactly when a resourcetype with a collection marker is present; the name is the non-empty display name, else the last segment of the path without trailing slashes; the id is non-empty and decodes to the item's type and the given path, so it is exactly `"{type}:{path}"` |
| `Responses.Kept` | addon_imps/storage/owncloud.py:116-127 | an entry the loop keeps has an href, and its item has the asked type, decodes to `"/"` or a trimmed path, and is not the folder itself modulo trailing slashes |
| `Responses.KeptIndices` | addon_imps/storage/owncloud.py:113-128 | the kept entries' positions are in range, strictly increasing, each kept, and include every kept entry |
| `Responses.Children` | addon_imps/storage/owncloud.py:113-130 | the listed items are the kept entries' items in the entries' order; each has the asked type, decodes to `"/"` or a trimmed path, and is not the folder itself modulo trailing slashes |
| `Responses.KeptIndicesHaveHrefs` | addon_imps/storage/owncloud.py:116-118 | an entry with a missing or empty href never contributes an item |
| `Responses.TrailingSlashIgnored` | addon_imps/storage/owncloud.py:122 | for `"/"` or a trimmed path, one more trailing slash does not change the compared `rstrip("/")` form |
| `Responses.LeadingSlashMatters` | addon_imps/storage/owncloud.py:122 | for a trimmed path, a leading slash changes the compared `rstrip("/")` form |
| `Responses.SelfEntryRecognition` | addon_imps/storage/owncloud.py:120-123 | an entry is recognised as the folder itself when the folder is asked for by its path with or without a trailing slash, and not when asked for with a leading slash |
| `OwnCloud.ParseProperty` | addon_imps/storage/owncloud.py:189-196 | succeeds exactly with a present, non-empty text; a non-XML reply fails as `MalformedResponse`, a missing property as `PropertyNotFound` with the property's message |
| `OwnCloud.ParseDisplayName` | addon_imps/storage/owncloud.py:179-187 | fails only on a non-XML reply; a present, non-empty display name is returned as it is, and `default-name` replaces a missing or empty one |
| `OwnCloud.ResolveUsername` | addon_imps/storage/owncloud.py:47-51 | a non-empty `extras["username"]` wins, else the fallback; the result is never empty; `MissingUsername` exactly when neither is non-empty |
| `OwnCloud.FallbackUsername` | addon_imps/storage/owncloud.py:64-66 | the fallback username is always present and non-empty |
| `OwnCloud.MissingUsernameUnreachable` | addon_imps/storage/owncloud.py:64-66 | with this adapter's fallback `default-username` the username error never arises |
| `OwnCloud.PrincipalRequest` | addon_imps/storage/owncloud.py:32-40 | the first request asks for the current-user principal at the account root `""` with Depth 0 |
| `OwnCloud.FallbackPrincipalUrl` | addon_imps/storage/owncloud.py:52 | without its leading slash, the conventional principal URL is `remote.php/dav/files/{username}/` |
| `OwnCloud.PrincipalPath` | addon_imps/storage/owncloud.py:36-57 | the second request path has no leading slash; it is the reported principal stripped, or, when none is reported, `remote.php/dav/files/{username}/`; a non-XML reply fails |
| `OwnCloud.GetExternalAccountId` | addon_imps/storage/owncloud.py:32-62 | the account id is never empty; of the failures the model has, the only one that can arise is a non-XML reply; with a reported principal, the display name is read at that principal's path without its leading slashes; without one, it is read from `remote.php/dav/files/{username}/`, with `default-username` when the extras give none |
| `OwnCloud.GetItemInfo` | addon_imps/storage/owncloud.py:71-92 | an undecodable id fails as `InvalidItemId`; a non-XML reply fails as `MalformedResponse`; `ItemNotFound` exactly when the reply is XML with no `d:response`; otherwise the item is the first `d:response` parsed under the requested id's path |
| `OwnCloud.ListChildItems` | addon_imps/storage/owncloud.py:94-130 | an undecodable id fails as `InvalidItemId`, a non-XML reply as `MalformedResponse`; otherwise the listing is `Children` of the reply's entries: the kept entries' items in order, each passing the filter and not the folder itself |
| `OwnCloud.ListRootItems` | addon_imps/storage/owncloud.py:68-69 | of the failures the model has, the root listing fails exactly on a non-XML reply to the Depth 1 request at `""`; never lists the root itself, and is the child listing of the root id with no type filter |
| `OwnCloud.BuildWbConfig` | addon_imps/storage/owncloud.py:135-147 | folder is empty and TLS is verified; the host splits back into the URL's scheme and `//` plus its authority |
| `OwnCloud.ResolveUsernameExamples` | addon_imps/storage/owncloud.py:46-52 | no extras and no fallback fail; `alice` wins; an empty or missing username falls back to `default-username` |
| `OwnCloud.PrincipalFallbackExample` | addon_imps/storage/owncloud.py:46-62 | without principal support and with username `alice`, the display name is read from `remote.php/dav/files/alice/` |

## Left out

- The network calls (`self.network.PROPFIND`, `async with`, `text_content()`) are I/O through a collaborator. They are modelled as the `Network` function. Concurrency, suspension and the release of the response are not modelled.
- A failure of the transport itself, such as an exception from `PROPFIND` or `text_content()`, propagates unchanged from every operation. It is not modelled: `Network` is total and always yields a reply, so the failure cases the contracts list are those of the reply's content only.
- XML parsing (`ET.fromstring`, `find`/`findall`, namespaces) is foreign library behaviour, and the three request-body templates are constant data. The model works on the abstract `Doc`/`Resp` records and names the bodies by a tag.
- `unquote` and `urlparse` are library behaviour. The decoded href path and the parsed base URL (scheme, authority, path) are inputs. `build_wb_config` parses the URL after `rstrip("/")`; that never changes the scheme or the authority, the only parts `build_wb_config` uses, so one parsed URL serves both uses.
- The `page_cursor` argument of `list_root_items` and `list_child_items` is ignored by the source. It is not modelled, and a listing is one sequence of items.
- `Storage.TypeValue`: the enum values `"FILE"` and `"FOLDER"` are assumed, since the enum is not part of this model.
- The rest of the repository (the Django views, serializers, models, enum validators and test helpers) is not part of this model.
