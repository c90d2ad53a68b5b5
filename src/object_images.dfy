/**
  The object photographs both object renderers load: one PNG per object,
  named after its number, under a directory per category
  (src/components/ObjectSplit.tsx and src/components/ObjectParts.tsx).
*/
module ObjectImages {
  import opened Strings
  import opened Catalog
  import opened AssetStore
  import opened Helpers

  /** `/src/assets/fraction_objects/{category}/{objectNum}.png` */
  function ImagePath(c: ObjectCategory, objectNum: int): (p: string)
    ensures StartsWith(p, ObjectPrefix(c)) && EndsWith(p, ".png")
  {
    var p := ObjectPrefix(c) + IntToString(objectNum) + ".png";
    assert p[..|ObjectPrefix(c)|] == ObjectPrefix(c);
    assert p[|p| - 4..] == ".png";
    p
  }

  /** Distinct objects of a category have distinct images. */
  lemma ImagePathInjective(c: ObjectCategory, m: int, n: int)
    requires ImagePath(c, m) == ImagePath(c, n)
    ensures m == n
  {
    var d := ObjectPrefix(c);
    var a, b := IntToString(m), IntToString(n);
    assert a == (d + a + ".png")[|d|..|d| + |a|];
    assert b == (d + b + ".png")[|d|..|d| + |b|];
    ParseIntegerOfIntToString(m);
    ParseIntegerOfIntToString(n);
  }

  /** An object whose image exists is among those `getObjectCount` counts. */
  lemma ImageIsCounted(store: Store, c: ObjectCategory, objectNum: int)
    requires ImagePath(c, objectNum) in store
    ensures ObjectCount(store, c) >= 1
  {
  }

  /** Two images of a category count two, and a third object number has
      no image among them. */
  lemma TwoImagesMissOne(store: Store, c: ObjectCategory, m: int, n: int, k: int)
    requires store == [ImagePath(c, m), ImagePath(c, n)]
    requires k != m && k != n
    ensures ObjectCount(store, c) == 2
    ensures ImagePath(c, k) !in store
  {
    var a, b := ImagePath(c, m), ImagePath(c, n);
    assert Filter(store, ObjectPrefix(c), ".png") == store by {
      assert Matches(a, ObjectPrefix(c), ".png") && Matches(b, ObjectPrefix(c), ".png");
      FilterAllMatching(store, ObjectPrefix(c), ".png");
    }
    assert ImagePath(c, k) != a by {
      if ImagePath(c, k) == a { ImagePathInjective(c, k, m); }
    }
    assert ImagePath(c, k) != b by {
      if ImagePath(c, k) == b { ImagePathInjective(c, k, n); }
    }
  }

  /** Objects `0` and `2` make a count of two, yet object `1`, which the
      selectors offer, has no image. */
  lemma CountIsNotARange(store: Store, c: ObjectCategory)
    requires store == [ImagePath(c, 0), ImagePath(c, 2)]
    ensures ObjectCount(store, c) == 2
    ensures ImagePath(c, 0) in store && ImagePath(c, 1) !in store
  {
    TwoImagesMissOne(store, c, 0, 2, 1);
  }

  /** `Array.from({ length: count }, (_, i) => i)`: the object numbers an
      editor offers for a count, in increasing order. */
  function ObjectNumbers(count: nat): (nums: seq<int>)
    ensures |nums| == count
    ensures forall i, j :: 0 <= i < j < |nums| ==> nums[i] < nums[j]
    ensures forall n :: n in nums <==> 0 <= n < count
  {
    var nums := seq(count, i requires 0 <= i < count => i);
    assert forall i :: 0 <= i < count ==> nums[i] == i;
    forall n ensures n in nums <==> 0 <= n < count {
      if 0 <= n < count { assert nums[n] == n; }
    }
    nums
  }
}
