/**
 * `TrackedItem`: one entry of the production log, an item with a signed count
 * and the date it was recorded, and the tuple form it is saved in.
 */
module TrackedItems {
  import opened GameItems
  import opened Calendar

  /** The record `TrackedItem(Item Item, int Count, SDate Date)`. */
  datatype TrackedItem = TrackedItem(item: Item, count: int, date: SDate)

  /** The saved form `(QualifiedItemId, Count, Date)`. */
  type SavedItem = (string, int, SDate)

  /**
   * `new TrackedItem(qualifiedItemId, count, date)`: the item is made by the
   * game's item registry, which `create` stands for.
   */
  function FromId(qualifiedItemId: string, count: int, date: SDate, create: string -> Item): TrackedItem {
    TrackedItem(create(qualifiedItemId), count, date)
  }

  /** `new TrackedItem(info)`: the id constructor applied to the tuple's parts. */
  function FromTuple(info: SavedItem, create: string -> Item): TrackedItem {
    FromId(info.0, info.1, info.2, create)
  }

  /** `ToSerializeable()`. */
  function ToSerializeable(t: TrackedItem): SavedItem {
    (t.item.qualifiedItemId, t.count, t.date)
  }

  /**
   * Saving a record loaded from a tuple gives that tuple back, as long as the
   * registry makes items carrying the id they were made from.
   */
  lemma SaveAfterLoad(info: SavedItem, create: string -> Item)
    requires create(info.0).qualifiedItemId == info.0
    ensures ToSerializeable(FromTuple(info, create)) == info
  {
  }

  /** The same round trip over a whole saved log. */
  lemma SaveAfterLoadAll(infos: seq<SavedItem>, create: string -> Item)
    requires forall i :: 0 <= i < |infos| ==> create(infos[i].0).qualifiedItemId == infos[i].0
    ensures forall i :: 0 <= i < |infos| ==> ToSerializeable(FromTuple(infos[i], create)) == infos[i]
  {
  }
}
