/**
 * The game types the core works on, reduced to what the core reads from them:
 * an item (`StardewValley.Item`) and the stock entry (`ItemStock`) built from it.
 */
module GameItems {

  /** A C# `int`. */
  type int32 = x: int | -0x8000_0000 <= x < 0x8000_0000

  /** Unchecked 32-bit two's-complement arithmetic: the `int32` congruent to `x`. */
  function Wrap32(x: int): (r: int32)
    ensures (r - x) % 0x1_0000_0000 == 0
    ensures -0x8000_0000 <= x < 0x8000_0000 ==> r == x
  {
    (x + 0x8000_0000) % 0x1_0000_0000 - 0x8000_0000
  }

  /**
   * A game item. It is a reference object: two items are the same item only
   * when they are the same object (`==` on this class), which is the equality
   * `GroupBy` uses when no comparer is given. The properties the core reads are
   * kept as a snapshot, since the core never changes an item.
   */
  class Item {
    const qualifiedItemId: string
    const quality: int32
    const name: string
    const displayName: string
    const stack: int

    constructor (qualifiedItemId: string, quality: int32, name: string, displayName: string, stack: int)
      ensures this.qualifiedItemId == qualifiedItemId && this.quality == quality
      ensures this.name == name && this.displayName == displayName && this.stack == stack
    {
      this.qualifiedItemId := qualifiedItemId;
      this.quality := quality;
      this.name := name;
      this.displayName := displayName;
      this.stack := stack;
    }
  }

  /** An item with a count next to it; only `Item` and `Count` are used. */
  datatype ItemStock = ItemStock(item: Item, count: int)

  /** `new ItemStock(item)`: a stock of `item` whose count starts at zero. */
  function NewItemStock(item: Item): ItemStock {
    ItemStock(item, 0)
  }
}
