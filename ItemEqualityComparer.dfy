/**
 * `ItemEqualityComparer`: two items are alike when both their qualified item
 * id and their quality agree. Both arguments are dereferenced, so neither may
 * be null (the parameters have the non-null type `Item`).
 */
module ItemEqualityComparer {
  import opened GameItems

  predicate Equals(x: Item, y: Item) {
    x.qualifiedItemId == y.qualifiedItemId && x.quality == y.quality
  }

  /**
   * `obj.QualifiedItemId.GetHashCode() + obj.Quality` in unchecked C#
   * arithmetic; `stringHash` stands for the runtime's string hash.
   */
  function GetHashCode(obj: Item, stringHash: string -> int32): (h: int32)
    ensures (h - (stringHash(obj.qualifiedItemId) + obj.quality)) % 0x1_0000_0000 == 0
  {
    Wrap32(stringHash(obj.qualifiedItemId) + obj.quality)
  }

  lemma EqualsIsEquivalence(x: Item, y: Item, z: Item)
    ensures Equals(x, x)
    ensures Equals(x, y) ==> Equals(y, x)
    ensures Equals(x, y) && Equals(y, z) ==> Equals(x, z)
  {
  }

  /** Alike items hash alike, whatever the string hash is. */
  lemma HashAgreesWithEquals(x: Item, y: Item, stringHash: string -> int32)
    requires Equals(x, y)
    ensures GetHashCode(x, stringHash) == GetHashCode(y, stringHash)
  {
  }
}
