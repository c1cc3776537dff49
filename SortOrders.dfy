/** `SortOrder`: the orders the menu can be sorted by, with their labels. */
module SortOrders {

  datatype SortOrder = DescendingByName | AscendingByName | AscendingByCount | DescendingByCount | None

  /** The `[Description]` attached to each order, as `GetDescription` reads it. */
  function Description(order: SortOrder): (text: string)
    ensures |text| > 0
  {
    match order
    case DescendingByName => "Name (desc)"
    case AscendingByName => "Name (asc)"
    case AscendingByCount => "Count (desc)"
    case DescendingByCount => "Count (asc)"
    case None => "None"
  }

  /** No two orders share a label, so a label names its order. */
  lemma DescriptionIdentifiesOrder(a: SortOrder, b: SortOrder)
    ensures Description(a) == Description(b) ==> a == b
  {
    if a != b {
      match a
      case DescendingByName => assert Description(a)[6] == 'd';
      case AscendingByName => assert Description(a)[6] == 'a';
      case AscendingByCount => assert Description(a)[7] == 'd';
      case DescendingByCount => assert Description(a)[7] == 'a';
      case None => assert |Description(a)| == 4;
    }
  }
}
