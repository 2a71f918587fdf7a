/**
 Turning `d:response` entries into items: one entry at a time, and the
 filtering loop that lists a folder's children.
 */
module Responses {
  import opened Wrappers
  import opened Strings
  import opened Storage
  import opened ItemIds
  import opened Paths
  import opened WebDav

  /** `_parse_response_element` for an entry whose relative path is already known. */
  function ParseResponseElement(resp: Resp, path: string): (item: Item)
    ensures item.itemType == Folder <==> resp.resourceType == Some(ResourceType(true))
    ensures resp.displayName.Some? && resp.displayName.value != "" ==> item.name == resp.displayName.value
    ensures !(resp.displayName.Some? && resp.displayName.value != "") ==> IsLastSegment(item.name, RStrip(path))
    ensures item.id != "" && ParseItemId(item.id) == Success((item.itemType, path))
  {
    var t := if resp.resourceType.Some? && resp.resourceType.value.collection then Folder else File;
    var name :=
      if resp.displayName.Some? && resp.displayName.value != "" then resp.displayName.value
      else LastSegment(RStrip(path));
    ParseMakeItemId(t, path);
    Item(MakeItemId(t, path), name, t)
  }

  /** What a listing is asked for: the base URL's path, the folder's path and an optional type. */
  datatype Query = Query(apiPath: string, path: string, filter: Option<ItemType>)

  /** The relative path an entry's href maps to. */
  function EntryPath(resp: Resp, apiPath: string): string
    requires resp.href.Some?
  {
    HrefToPath(resp.href.value.path, apiPath)
  }

  /** The item an entry with an href becomes. */
  function EntryItem(resp: Resp, apiPath: string): Item
    requires resp.href.Some?
  {
    ParseResponseElement(resp, EntryPath(resp, apiPath))
  }

  /** The path an item identifier carries, "" when it does not decode. */
  function IdPath(item: Item): string {
    match ParseItemId(item.id)
    case Success((_, p)) => p
    case Failure(_) => ""
  }

  /** What every listed item satisfies. */
  predicate Listable(item: Item, q: Query) {
    && (q.filter.Some? ==> item.itemType == q.filter.value)
    && ParseItemId(item.id).Success?
    && (IdPath(item) == "/" || Trimmed(IdPath(item)))
    && RStrip(IdPath(item)) != RStrip(q.path)
  }

  /** The listing loop keeps an entry with a non-empty href that is not the folder itself and has the asked type. */
  predicate Kept(resp: Resp, q: Query)
    ensures Kept(resp, q) ==> resp.href.Some? && Listable(EntryItem(resp, q.apiPath), q)
  {
    && resp.href.Some? && resp.href.value.text != ""
    && RStrip(EntryPath(resp, q.apiPath)) != RStrip(q.path)
    && (q.filter.None? || EntryItem(resp, q.apiPath).itemType == q.filter.value)
  }

  /** The positions of the true flags, in increasing order. */
  function Positions(flags: seq<bool>): (idx: seq<nat>)
    ensures |idx| <= |flags|
    ensures forall k :: 0 <= k < |idx| ==> idx[k] < |flags| && flags[idx[k]]
    ensures forall k, l :: 0 <= k < l < |idx| ==> idx[k] < idx[l]
    ensures forall i :: 0 <= i < |flags| && flags[i] ==> i in idx
  {
    if flags == [] then
      []
    else
      var n := |flags| - 1;
      var prev := Positions(flags[..n]);
      if flags[n] then prev + [n] else prev
  }

  /** Which entries the listing loop keeps. */
  function KeptFlags(rs: seq<Resp>, q: Query): (flags: seq<bool>)
    ensures |flags| == |rs|
    ensures forall i :: 0 <= i < |rs| ==> flags[i] == Kept(rs[i], q)
  {
    seq(|rs|, i requires 0 <= i < |rs| => Kept(rs[i], q))
  }

  /**
   The positions of the entries the listing loop keeps: in increasing order,
   each one kept, and every kept entry among them.
   */
  function KeptIndices(rs: seq<Resp>, q: Query): (idx: seq<nat>)
    ensures |idx| <= |rs|
    ensures forall k :: 0 <= k < |idx| ==> idx[k] < |rs| && Kept(rs[idx[k]], q)
    ensures forall k, l :: 0 <= k < l < |idx| ==> idx[k] < idx[l]
    ensures forall i :: 0 <= i < |rs| && Kept(rs[i], q) ==> i in idx
  {
    Positions(KeptFlags(rs, q))
  }

  /**
   The loop of `list_child_items`: the kept entries' items, in the entries' order.
   Every listed item has the asked type, decodes to a normalised path, and is not
   the folder itself.
   */
  function Children(rs: seq<Resp>, q: Query): (items: seq<Item>)
    ensures |items| == |KeptIndices(rs, q)| <= |rs|
    ensures forall k :: 0 <= k < |items| ==>
      var i := KeptIndices(rs, q)[k];
      rs[i].href.Some? && items[k] == EntryItem(rs[i], q.apiPath)
    ensures forall k :: 0 <= k < |items| ==> Listable(items[k], q)
  {
    var idx := KeptIndices(rs, q);
    seq(|idx|, k requires 0 <= k < |idx| => EntryItem(rs[idx[k]], q.apiPath))
  }

  /** No entry without a non-empty href contributes an item. */
  lemma KeptIndicesHaveHrefs(rs: seq<Resp>, q: Query)
    ensures forall k :: 0 <= k < |KeptIndices(rs, q)| ==>
      var i := KeptIndices(rs, q)[k];
      rs[i].href.Some? && rs[i].href.value.text != ""
  {
  }

  /** Trailing slashes do not change which folder a normalised path names. */
  lemma TrailingSlashIgnored(m: string)
    requires m == "/" || Trimmed(m)
    ensures RStrip(m + "/") == RStrip(m)
  {
    if m == "/" {
      assert m + "/" == "//";
    } else {
      RStripExact(m, []);
      assert m + [] == m;
      RStripExact(m, "/");
    }
  }

  /** A leading slash does change it. */
  lemma LeadingSlashMatters(m: string)
    requires Trimmed(m)
    ensures RStrip("/" + m) != RStrip(m)
  {
    RStripExact(m, []);
    assert m + [] == m;
    RStripExact("/" + m, []);
    assert ("/" + m) + [] == "/" + m;
  }

  /**
   The folder's own entry is recognised whether the folder is asked for with or
   without trailing slashes; but item paths never start with a slash, so asked
   for with a leading slash it is not recognised and would be listed.
   */
  lemma SelfEntryRecognition(e: Resp, api: string, filter: Option<ItemType>)
    requires e.href.Some? && e.href.value.text != ""
    ensures !Kept(e, Query(api, EntryPath(e, api), filter))
    ensures !Kept(e, Query(api, EntryPath(e, api) + "/", filter))
    ensures EntryPath(e, api) != "/" ==> Kept(e, Query(api, "/" + EntryPath(e, api), None))
  {
    var m := EntryPath(e, api);
    TrailingSlashIgnored(m);
    if m != "/" {
      LeadingSlashMatters(m);
    }
  }
}
