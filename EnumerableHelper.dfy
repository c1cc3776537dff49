/** `EnumerableHelper.ToItemStock`: turning `(Item, Count)` pairs into stock entries. */
module EnumerableHelper {
  import opened GameItems

  /** `new ItemStock(item.Item) { Count = item.Count }`. */
  function ToItemStock(pair: (Item, int)): ItemStock {
    ItemStock(pair.0, pair.1)
  }

  /** `values.Select(x => x.ToItemStock())`: element by element, in order. */
  function ToItemStocks(values: seq<(Item, int)>): (stocks: seq<ItemStock>)
    ensures |stocks| == |values|
    ensures forall i :: 0 <= i < |values| ==> stocks[i] == ToItemStock(values[i])
  {
    if values == [] then [] else [ToItemStock(values[0])] + ToItemStocks(values[1..])
  }
}
