/**
  src/components/tabs/ObjectPartsTab.tsx: the editor that picks an object,
  a denominator and a shaded fraction for the pie-slice renderer.
*/
module ObjectPartsTab {
  import opened Strings
  import opened Catalog
  import opened ObjectImages

  /** The denominators the editor's buttons offer, and the type of its
      `totalParts` state. */
  type Denominator = p: int | 2 <= p <= 4 witness 2

  /** `getAvailableFractions()` for denominator `d`: 1/d, 2/d, ..., d/d. */
  function FractionAt(d: int, i: int): (int, int)
  {
    (i + 1, d)
  }

  function FractionsOf(d: int): (fs: seq<(int, int)>)
    ensures |fs| == if d >= 1 then d else 0
    ensures forall i :: 0 <= i < |fs| ==> fs[i].0 == i + 1
    ensures forall n, e :: (n, e) in fs <==> e == d && 1 <= n <= d
  {
    if d < 1 then []
    else
      var fs := seq(d, i requires 0 <= i < d => FractionAt(d, i));
      assert forall n :: 1 <= n <= d ==> fs[n - 1] == (n, d);
      fs
  }

  /** A fraction named by a word: a proper or whole fraction of halves,
      thirds or quarters. */
  predicate NamedFraction(n: int, d: int)
  {
    2 <= d <= 4 && 1 <= n <= d
  }

  /** The label under a fraction button. Only 2/2, 3/3 and 4/4 are called
      whole, 1/2 and 2/4 are both called half, and the other thirds and
      quarters have their own words; a fraction outside halves, thirds and
      quarters is written out. */
  function FractionLabel(n: int, d: int): (text: string)
    ensures text == "Whole" <==> n == d && 2 <= d <= 4
    ensures text == "Half" <==> (n == 1 && d == 2) || (n == 2 && d == 4)
    ensures text == "One Third" <==> n == 1 && d == 3
    ensures text == "Two Thirds" <==> n == 2 && d == 3
    ensures text == "One Quarter" <==> n == 1 && d == 4
    ensures text == "Three Quarters" <==> n == 3 && d == 4
    ensures !NamedFraction(n, d) ==> text == IntToString(n) + " out of " + IntToString(d)
  {
    if n == 1 && d == 2 then "Half"
    else if n == 2 && d == 2 then "Whole"
    else if n == 1 && d == 3 then "One Third"
    else if n == 2 && d == 3 then "Two Thirds"
    else if n == 3 && d == 3 then "Whole"
    else if n == 1 && d == 4 then "One Quarter"
    else if n == 2 && d == 4 then "Half"
    else if n == 3 && d == 4 then "Three Quarters"
    else if n == 4 && d == 4 then "Whole"
    else
      var written := IntToString(n) + " out of " + IntToString(d);
      assert written[0] == IntToString(n)[0] && (written[0] == '-' || IsDigit(written[0]));
      written
  }

  /** Every fraction the editor offers carries a word, never the written-out
      fallback. */
  lemma OfferedFractionsAreNamed(d: Denominator, i: int)
    requires 0 <= i < |FractionsOf(d)|
    ensures NamedFraction(FractionsOf(d)[i].0, FractionsOf(d)[i].1)
    ensures FractionLabel(FractionsOf(d)[i].0, FractionsOf(d)[i].1) in
      {"Half", "Whole", "One Third", "Two Thirds", "One Quarter", "Three Quarters"}
  {
    assert FractionsOf(d)[i] in FractionsOf(d);
  }

  /** The `useEffect` reset: an object number at or past the category's
      count goes back to 0. */
  function ResetObjectNum(objectNum: int, count: nat): int
  {
    if objectNum >= count then 0 else objectNum
  }

  /** The reset settles at once: running it again changes nothing, so the
      effect it re-triggers is a no-op. */
  lemma ResetSettles(objectNum: int, count: nat)
    ensures ResetObjectNum(ResetObjectNum(objectNum, count), count) == ResetObjectNum(objectNum, count)
  {
  }

  /** After the reset a category with objects shows one of its offered
      object numbers. */
  lemma ResetLandsOnOption(objectNum: int, count: nat)
    requires count > 0 && objectNum >= 0
    ensures ResetObjectNum(objectNum, count) in ObjectNumbers(count)
  {
  }

  /** The editor's state. */
  class Editor {
    var category: ObjectCategory
    var objectNum: int
    var partsShaded: int
    var totalParts: Denominator

    /** The shaded count is a proper part of the whole. */
    predicate Valid()
      reads this
    {
      1 <= partsShaded <= totalParts
    }

    constructor()
      ensures category == Pizza && objectNum == 0 && partsShaded == 1 && totalParts == 2
      ensures Valid()
    {
      category, objectNum, partsShaded, totalParts := Pizza, 0, 1, 2;
    }

    /** A category button; the object number is left to the reset effect. */
    method ChooseCategory(c: ObjectCategory)
      modifies this
      ensures category == c
      ensures objectNum == old(objectNum) && partsShaded == old(partsShaded) && totalParts == old(totalParts)
    {
      category := c;
    }

    /** An object-number button. */
    method ChooseObject(n: int)
      modifies this
      ensures objectNum == n
      ensures category == old(category) && partsShaded == old(partsShaded) && totalParts == old(totalParts)
    {
      objectNum := n;
    }

    /** The reset effect, with the count of the current category. */
    method Reset(count: nat)
      modifies this
      ensures objectNum == ResetObjectNum(old(objectNum), count)
      ensures category == old(category) && partsShaded == old(partsShaded) && totalParts == old(totalParts)
    {
      if objectNum >= count {
        objectNum := 0;
      }
    }

    /** A denominator button: the shaded count is lowered to the new
        denominator when it exceeds it. */
    method ChooseDenominator(p: Denominator)
      modifies this
      ensures totalParts == p
      ensures old(partsShaded) <= p ==> partsShaded == old(partsShaded)
      ensures old(partsShaded) > p ==> partsShaded == p
      ensures old(Valid()) ==> Valid()
      ensures category == old(category) && objectNum == old(objectNum)
    {
      totalParts := p;
      if partsShaded > p {
        partsShaded := p;
      }
    }

    /** `handleFractionChange`: a fraction button sets both halves. */
    method ChooseFraction(n: int, d: Denominator)
      modifies this
      ensures partsShaded == n && totalParts == d
      ensures (n, d) in FractionsOf(old(totalParts)) ==> Valid() && totalParts == old(totalParts)
      ensures category == old(category) && objectNum == old(objectNum)
    {
      partsShaded := n;
      totalParts := d;
    }

    /** `getAvailableFractions()`, built by its push loop. */
    method AvailableFractions() returns (fractions: seq<(int, int)>)
      ensures fractions == FractionsOf(totalParts)
    {
      fractions := [];
      var i := 1;
      while i <= totalParts
        invariant 1 <= i <= totalParts + 1
        invariant fractions == FractionsOf(totalParts)[..i - 1]
      {
        assert (i, totalParts) == FractionsOf(totalParts)[i - 1];
        assert FractionsOf(totalParts)[..i] == FractionsOf(totalParts)[..i - 1] + [FractionsOf(totalParts)[i - 1]];
        fractions := fractions + [(i, totalParts)];
        i := i + 1;
      }
      assert FractionsOf(totalParts)[..totalParts] == FractionsOf(totalParts);
    }
  }
}
