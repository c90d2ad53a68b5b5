/**
  src/components/tabs/ObjectSplitsTab.tsx: the editor that picks an object
  and a denominator for the split-overlay renderer.
*/
module ObjectSplitsTab {
  import opened Catalog
  import opened ObjectImages
  import opened ObjectSplit

  /** The values of the denominator select. */
  const SplitDenominators: seq<int> := [2, 3, 4]

  /** Every denominator the editor offers has an overlay to draw. */
  lemma OfferedDenominatorsDrawLines(i: int)
    requires 0 <= i < |SplitDenominators|
    ensures Overlay(SplitDenominators[i]) != []
  {
  }

  /** The editor's state. */
  class Editor {
    var category: ObjectCategory
    var objectNum: int
    var totalParts: int

    constructor()
      ensures category == Pizza && objectNum == 0 && totalParts == 2
    {
      category, objectNum, totalParts := Pizza, 0, 2;
    }

    /** `handleObjectCategoryChange`: a new category starts at object 0,
        which any category with objects offers. */
    method ChangeCategory(c: ObjectCategory)
      modifies this
      ensures category == c && objectNum == 0 && totalParts == old(totalParts)
    {
      category := c;
      objectNum := 0;
    }

    /** The object select: `setObjectNum(Number(value))`. */
    method ChooseObject(n: int)
      modifies this
      ensures objectNum == n && category == old(category) && totalParts == old(totalParts)
    {
      objectNum := n;
    }

    /** The denominator select; the object stays where it is. */
    method ChooseTotalParts(p: int)
      modifies this
      ensures totalParts == p && category == old(category) && objectNum == old(objectNum)
    {
      totalParts := p;
    }
  }
}
