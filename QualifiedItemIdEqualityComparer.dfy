/**
 * `QualifiedItemIdEqualityComparer`: two items are alike when their qualified
 * item ids agree; quality is ignored.
 */
module QualifiedItemIdEqualityComparer {
  import opened GameItems
  import ItemEqualityComparer

  predicate Equals(x: Item, y: Item) {
    x.qualifiedItemId == y.qualifiedItemId
  }

  /** `obj.QualifiedItemId.GetHashCode()`. */
  function GetHashCode(obj: Item, stringHash: string -> int32): int32 {
    stringHash(obj.qualifiedItemId)
  }

  lemma EqualsIsEquivalence(x: Item, y: Item, z: Item)
    ensures Equals(x, x)
    ensures Equals(x, y) ==> Equals(y, x)
    ensures Equals(x, y) && Equals(y, z) ==> Equals(x, z)
  {
  }

  lemma HashAgreesWithEquals(x: Item, y: Item, stringHash: string -> int32)
    requires Equals(x, y)
    ensures GetHashCode(x, stringHash) == GetHashCode(y, stringHash)
  {
  }

  /** This comparer is coarser: whatever the id-and-quality comparer joins, it joins. */
  lemma CoarserThanItemEquality(x: Item, y: Item)
    requires ItemEqualityComparer.Equals(x, y)
    ensures Equals(x, y)
  {
  }

  /** Items that differ only in quality are alike here and not alike there. */
  lemma QualityIsIgnored(x: Item, y: Item)
    requires x.qualifiedItemId == y.qualifiedItemId && x.quality != y.quality
    ensures Equals(x, y) && !ItemEqualityComparer.Equals(x, y)
  {
  }
}
