/**
 The item-identifier codec: an identifier is `"{type}:{path}"`, and the empty
 identifier stands for the root folder.
 */
module ItemIds {
  import opened Wrappers
  import opened Strings
  import opened Storage

  /** Why an identifier does not decode (both are a ValueError in the source). */
  datatype IdError =
    | MissingSeparator               // the two-way unpack of the split fails
    | UnknownItemType(token: string)  // the enum lookup fails

  /** `_make_item_id`: the type's tag before the first colon, the path after it. */
  function MakeItemId(t: ItemType, path: string): (id: string)
    ensures id != ""
    ensures SplitOnce(id, ':') == Some((TypeValue(t), path))
  {
    TypeValueFacts();
    var id := TypeValue(t) + ":" + path;
    assert id == TypeValue(t) + [':'] + path;
    SplitOnceJoin(TypeValue(t), ':', path);
    id
  }

  /** `_parse_item_id`. */
  function ParseItemId(id: string): (r: Result<(ItemType, string), IdError>)
    ensures id == "" ==> r == Success((Folder, "/"))
    ensures id != "" && ':' !in id ==> r == Failure(MissingSeparator)
    ensures r.Success? && id != "" ==> MakeItemId(r.value.0, r.value.1) == id
  {
    if id == "" then
      Success((Folder, "/"))
    else
      match SplitOnce(id, ':')
      case None => Failure(MissingSeparator)
      case Some((token, path)) =>
        match ItemTypeOf(token)
        case None => Failure(UnknownItemType(token))
        case Some(t) => Success((t, path))
  }

  /** `_owncloud_root_id`. */
  function RootId(): (id: string)
    ensures id != "" && ParseItemId(id) == Success((Folder, "/"))
  {
    ParseMakeItemId(Folder, "/");
    MakeItemId(Folder, "/")
  }

  /** Decoding an encoded identifier gives back its type and path, for every path. */
  lemma ParseMakeItemId(t: ItemType, path: string)
    ensures ParseItemId(MakeItemId(t, path)) == Success((t, path))
  {
    TypeValueFacts();
  }

  /** Decoding fails exactly on the non-empty strings that are not the encoding of any pair. */
  lemma ParseItemIdFails(id: string)
    ensures ParseItemId(id).Failure? <==> id != "" && forall t, p :: MakeItemId(t, p) != id
  {
    if exists t, p :: MakeItemId(t, p) == id {
      var t, p :| MakeItemId(t, p) == id;
      ParseMakeItemId(t, p);
    }
  }

  /** The root identifier and the empty identifier name the same folder. */
  lemma RootIdIsRoot()
    ensures ParseItemId(RootId()) == ParseItemId("") == Success((Folder, "/"))
  {
  }

  /** A colon-free token that is no tag is reported as unknown, whatever path follows it. */
  lemma ParseItemIdUnknownType(token: string, path: string)
    requires ':' !in token && ItemTypeOf(token).None?
    ensures ParseItemId(token + ":" + path) == Failure(UnknownItemType(token))
  {
    assert token + ":" + path == token + [':'] + path;
    SplitOnceJoin(token, ':', path);
  }

  /** Only the first colon separates; no colon at all is a missing separator. */
  lemma ParseItemIdExamples()
    ensures ParseItemId(TypeValue(Folder) + ":a:b") == Success((Folder, "a:b"))
    ensures ParseItemId("bogus") == Failure(MissingSeparator)
  {
    ParseMakeItemId(Folder, "a:b");
    assert TypeValue(Folder) + ":a:b" == MakeItemId(Folder, "a:b");
    assert "bogus" != "" && ':' !in "bogus" by {
      assert forall i :: 0 <= i < |"bogus"| ==> "bogus"[i] != ':';
    }
  }

  /** An unknown tag, even the empty one, is reported with its text. */
  lemma UnknownTypeExamples()
    ensures ParseItemId("bogus:x") == Failure(UnknownItemType("bogus"))
    ensures ParseItemId(":") == Failure(UnknownItemType(""))
  {
    assert "bogus:x" == "bogus" + ":" + "x";
    ParseItemIdUnknownType("bogus", "x");
    assert ":" == "" + ":" + "";
    ParseItemIdUnknownType("", "");
  }
}
