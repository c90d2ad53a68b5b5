/**
  The counters of src/utils/helpers.ts: how many object images a category
  has, and how many shape-split icons a (shape, split, denominator)
  combination has. Both are `filter(...).length` over a store of keys.
*/
module Helpers {
  import opened Strings
  import opened Catalog
  import opened AssetStore

  const ObjectsRoot: string := "/src/assets/fraction_objects/"
  const ShapeSplitsRoot: string := "/src/assets/shapes_splits/"

  function ObjectPrefix(c: ObjectCategory): string
  {
    ObjectsRoot + CategoryName(c) + "/"
  }

  /** `getObjectCount(category)` over the store of `.png` keys. */
  function ObjectCount(store: Store, c: ObjectCategory): (n: nat)
    ensures n <= |store|
    ensures n == 0 <==> forall k :: k in store ==> !(StartsWith(k, ObjectPrefix(c)) && EndsWith(k, ".png"))
    ensures DistinctKeys(store) ==> n == |MatchingSet(store, ObjectPrefix(c), ".png")|
  {
    FilterLength(store, ObjectPrefix(c), ".png");
    |Filter(store, ObjectPrefix(c), ".png")|
  }

  /** No key is counted for two categories. */
  lemma CategoriesCountDisjointKeys(c1: ObjectCategory, c2: ObjectCategory, key: string)
    requires c1 != c2
    ensures !(StartsWith(key, ObjectPrefix(c1)) && StartsWith(key, ObjectPrefix(c2)))
  {
    if CategoryName(c1) == CategoryName(c2) { CategoryNameInjective(c1, c2); }
    DirectoriesDisjoint(ObjectsRoot, CategoryName(c1), CategoryName(c2), key);
  }

  function ShapeSplitPrefix(shape: Shape, totalParts: int, isEqualSplit: bool): string
  {
    ShapeSplitsRoot + ShapeName(shape) + "/" + SplitSegment(isEqualSplit) + "/1:" + IntToString(totalParts) + "/"
  }

  /** `getShapeCount(shape, totalParts, isEqualSplit)` over the store of
      `shapes_splits` keys. */
  function ShapeSplitCount(store: Store, shape: Shape, totalParts: int, isEqualSplit: bool): (n: nat)
    ensures n <= |store|
    ensures n == 0 <==> forall k :: k in store ==>
      !(StartsWith(k, ShapeSplitPrefix(shape, totalParts, isEqualSplit)) && EndsWith(k, ".svg"))
    ensures DistinctKeys(store) ==>
      n == |MatchingSet(store, ShapeSplitPrefix(shape, totalParts, isEqualSplit), ".svg")|
  {
    FilterLength(store, ShapeSplitPrefix(shape, totalParts, isEqualSplit), ".svg");
    |Filter(store, ShapeSplitPrefix(shape, totalParts, isEqualSplit), ".svg")|
  }
}
