/**
 The storage-addon vocabulary the adapter speaks: item types and item results.
 The enum itself lives in the addon toolkit; its two values are taken to be the
 member names, and every proof below relies only on the facts of `TypeValueFacts`.
 */
module Storage {
  import opened Wrappers

  /** `ItemType`: a storage item is a file or a folder. */
  datatype ItemType = File | Folder

  /** `item_type.value`, the tag written into item identifiers. */
  function TypeValue(t: ItemType): string {
    match t
    case File => "FILE"
    case Folder => "FOLDER"
  }

  /** `ItemType(v)`: the enum lookup by value, which raises (None) for any other string. */
  function ItemTypeOf(v: string): (r: Option<ItemType>)
    ensures r.Some? <==> exists t :: TypeValue(t) == v
    ensures r.Some? ==> TypeValue(r.value) == v
  {
    if v == TypeValue(File) then
      Some(File)
    else if v == TypeValue(Folder) then
      Some(Folder)
    else
      assert forall t :: TypeValue(t) != v;
      None
  }

  /** The two tags differ and neither contains the identifier separator. */
  lemma TypeValueFacts()
    ensures TypeValue(File) != TypeValue(Folder)
    ensures forall t :: ':' !in TypeValue(t)
  {
  }

  /** `ItemResult`: what the adapter reports about one item. */
  datatype Item = Item(id: string, name: string, itemType: ItemType)
}
