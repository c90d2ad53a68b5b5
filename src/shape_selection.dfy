/**
  The shape-icon editor of src/App.tsx and of
  src/components/tabs/ShapeVisualsTab.tsx. Both hold the same selection
  (shape, denominator, shape number, split, colour) and update it with the
  same handlers; they differ only in the counter that decides how many
  shape numbers to offer.
*/
module ShapeSelection {
  import opened Wrappers
  import opened Strings
  import opened Catalog
  import opened AssetStore
  import opened Helpers
  import opened ShapeIcon

  /** `getAvailableParts()`: the denominators a shape offers. The first one
      is always 2, and only the rhombus offers fifths. */
  function AvailableParts(shape: IconShape): (parts: seq<int>)
    ensures |parts| >= 1 && parts[0] == 2
    ensures forall p :: p in parts ==> 2 <= p <= 5
    ensures 5 in parts <==> shape == Rhombus
    ensures |parts| == 1 <==> shape == Hexagon
  {
    match shape
    case Rhombus => [2, 5]
    case Hexagon => [2]
    case _ => [2, 3, 4]
  }

  /** The word of a denominator option; every value other than 2, 3 and 4
      is called fifths. */
  function DenominatorWord(parts: int): (w: string)
    ensures w == "Fifths" <==> parts !in {2, 3, 4}
  {
    if parts == 2 then "Halves" else if parts == 3 then "Thirds" else if parts == 4 then "Quarters" else "Fifths"
  }

  /** Different denominators offered for one shape have different words. */
  lemma DenominatorWordsDistinct(shape: IconShape, i: int, j: int)
    requires 0 <= i < j < |AvailableParts(shape)|
    ensures DenominatorWord(AvailableParts(shape)[i]) != DenominatorWord(AvailableParts(shape)[j])
  {
  }

  /** The editor's state. */
  class Selection {
    var shapeName: IconShape
    var totalParts: int
    var shapeNum: int
    var isEqualSplit: bool
    var color: string

    /** The denominator is one the shape offers. */
    predicate Valid()
      reads this
    {
      totalParts in AvailableParts(shapeName)
    }

    constructor()
      ensures shapeName == Rectangle && totalParts == 2 && shapeNum == 1
      ensures isEqualSplit && color == DefaultColor
      ensures Valid()
    {
      shapeName, totalParts, shapeNum := Rectangle, 2, 1;
      isEqualSplit, color := true, DefaultColor;
    }

    /** `handleShapeChange`: keep the denominator when the new shape offers
        it, otherwise take the shape's first one; back to shape number 1. */
    method ChangeShape(newShape: IconShape)
      modifies this
      ensures Valid()
      ensures shapeName == newShape && shapeNum == 1
      ensures old(totalParts) in AvailableParts(newShape) ==> totalParts == old(totalParts)
      ensures old(totalParts) !in AvailableParts(newShape) ==> totalParts == 2
      ensures isEqualSplit == old(isEqualSplit) && color == old(color)
    {
      shapeName := newShape;
      var availableParts := AvailableParts(newShape);
      if totalParts !in availableParts {
        totalParts := availableParts[0];
      }
      shapeNum := 1;
    }

    /** `handleTotalPartsChange`: any number is taken as it comes; the select
        only offers the shape's own denominators, which keep the state
        valid. */
    method ChangeTotalParts(newParts: int)
      modifies this
      ensures totalParts == newParts && shapeNum == 1
      ensures shapeName == old(shapeName) && isEqualSplit == old(isEqualSplit) && color == old(color)
      ensures newParts in AvailableParts(shapeName) ==> Valid()
    {
      totalParts := newParts;
      shapeNum := 1;
    }

    /** `handleSplitChange` */
    method ChangeSplit(newSplit: bool)
      modifies this
      ensures isEqualSplit == newSplit && shapeNum == 1
      ensures shapeName == old(shapeName) && totalParts == old(totalParts) && color == old(color)
      ensures old(Valid()) ==> Valid()
    {
      isEqualSplit := newSplit;
      shapeNum := 1;
    }

    /** The shape-number select: `setShapeNum(Number(value))`. */
    method ChooseShapeNum(n: int)
      modifies this
      ensures shapeNum == n
      ensures shapeName == old(shapeName) && totalParts == old(totalParts)
      ensures isEqualSplit == old(isEqualSplit) && color == old(color)
    {
      shapeNum := n;
    }

    /** The colour picker. */
    method ChooseColor(c: string)
      modifies this
      ensures color == c
      ensures shapeName == old(shapeName) && totalParts == old(totalParts)
      ensures shapeNum == old(shapeNum) && isEqualSplit == old(isEqualSplit)
    {
      color := c;
    }
  }

  /** The count the App editor offers: `getShapeCount` of ShapeIcon.tsx,
      over the same `shapes` directory the icon resolves from. */
  function AppCount(store: Store, sel: Selection): nat
    reads sel
  {
    ShapeCount(store, sel.shapeName, sel.totalParts, sel.isEqualSplit)
  }

  /** The count the shape-visuals tab offers: `getShapeCount` of helpers.ts,
      over the `shapes_splits` directory. */
  function TabCount(store: Store, sel: Selection): nat
    reads sel
  {
    ShapeSplitCount(store, sel.shapeName, sel.totalParts, sel.isEqualSplit)
  }

  /** The shape-number select: disabled with one placeholder option of
      value 1 when there is nothing to pick, otherwise `Shape 1` to
      `Shape count`. */
  datatype NumberSelect = NumberSelect(disabled: bool, options: seq<(int, string)>)

  function NumberOption(n: int): (int, string)
  {
    (n, "Shape " + IntToString(n))
  }

  function ShapeNumberSelect(count: nat): (sel: NumberSelect)
    ensures sel.disabled <==> count == 0
    ensures count == 0 ==> sel.options == [(1, "No shapes available")]
    ensures count > 0 ==> |sel.options| == count
    ensures count > 0 ==> forall i :: 0 <= i < count ==> sel.options[i] == NumberOption(i + 1)
  {
    if count == 0 then NumberSelect(true, [(1, "No shapes available")])
    else NumberSelect(false, seq(count, i requires 0 <= i < count => NumberOption(i + 1)))
  }

  /** The values an enabled select offers are exactly 1..count. */
  lemma OfferedNumbers(count: nat, v: int)
    requires count > 0
    ensures (exists i :: 0 <= i < |ShapeNumberSelect(count).options| && ShapeNumberSelect(count).options[i].0 == v)
            <==> 1 <= v <= count
  {
    var options := ShapeNumberSelect(count).options;
    if 1 <= v <= count {
      assert options[v - 1].0 == v;
    }
  }

  /** What the preview pane shows: the icon, or a message when the count is
      zero. */
  datatype PreviewPane =
    | Icon(shape: IconShape, totalParts: int, shapeNum: int, isEqualSplit: bool, color: string)
    | NoShapes(message: string)

  function Preview(sel: Selection, count: nat): (p: PreviewPane)
    reads sel
    ensures p.Icon? <==> count > 0
    ensures p.Icon? ==> p == Icon(sel.shapeName, sel.totalParts, sel.shapeNum, sel.isEqualSplit, sel.color)
    ensures p.NoShapes? ==> p.message == "No shapes available for this combination"
  {
    if count > 0 then Icon(sel.shapeName, sel.totalParts, sel.shapeNum, sel.isEqualSplit, sel.color)
    else NoShapes("No shapes available for this combination")
  }

  /** In the App editor every number the select offers resolves: the icon
      it previews finds its file. */
  lemma AppOfferedNumbersResolve(store: Store, shape: IconShape, totalParts: int, isEqualSplit: bool, i: int)
    requires ShapeCount(store, shape, totalParts, isEqualSplit) > 0
    requires 0 <= i < |ShapeNumberSelect(ShapeCount(store, shape, totalParts, isEqualSplit)).options|
    ensures GetImagePath(store, shape, totalParts, isEqualSplit,
                         ShapeNumberSelect(ShapeCount(store, shape, totalParts, isEqualSplit)).options[i].0).Some?
  {
  }

  /** No key of the `shapes_splits` directory lies under the `shapes`
      directory: the two roots part at their 19th character. */
  lemma SplitsKeyNotUnderShapes(key: string, prefix: string)
    requires StartsWith(key, ShapeSplitsRoot) && StartsWith(prefix, ShapesRoot)
    ensures !StartsWith(key, prefix)
  {
    assert key[18] == ShapeSplitsRoot[18] == '_';
    assert prefix[18] == ShapesRoot[18] == '/';
  }

  /** A store of one key counted by the tab but outside the icon's
      directory. */
  lemma OneSplitsKey(store: Store, key: string, shape: IconShape, totalParts: int, isEqualSplit: bool)
    requires store == [key]
    requires Matches(key, ShapeSplitPrefix(shape, totalParts, isEqualSplit), ".svg")
    requires !Matches(key, IconPrefix(shape, totalParts, isEqualSplit), ".svg")
    ensures ShapeSplitCount(store, shape, totalParts, isEqualSplit) == 1
    ensures GetImagePath(store, shape, totalParts, isEqualSplit, 1).None?
  {
    FilterAllMatching(store, ShapeSplitPrefix(shape, totalParts, isEqualSplit), ".svg");
  }

  lemma SplitPrefixRooted(shape: IconShape, totalParts: int, isEqualSplit: bool)
    ensures StartsWith(ShapeSplitPrefix(shape, totalParts, isEqualSplit), ShapeSplitsRoot)
  {
    var p := ShapeSplitPrefix(shape, totalParts, isEqualSplit);
    assert p[..|ShapeSplitsRoot|] == ShapeSplitsRoot;
  }

  lemma IconPrefixRooted(shape: IconShape, totalParts: int, isEqualSplit: bool)
    ensures StartsWith(IconPrefix(shape, totalParts, isEqualSplit), ShapesRoot)
  {
    var p := IconPrefix(shape, totalParts, isEqualSplit);
    assert p[..|ShapesRoot|] == ShapesRoot;
  }

  /** The first file of a directory: under the directory, and an SVG. */
  lemma FirstFileMatches(dir: string, root: string)
    requires StartsWith(dir, root)
    ensures Matches(dir + "1.svg", dir, ".svg") && StartsWith(dir + "1.svg", root)
  {
    var key := dir + "1.svg";
    assert key[..|dir|] == dir;
    assert key[..|root|] == dir[..|root|];
    assert key[|key| - 4..] == "1.svg"[1..];
  }

  /** The directory the tab counts is not the one the icon resolves from: a
      `shapes_splits` file makes the tab offer shape 1 and preview an icon
      that does not find a file. */
  lemma TabCountsAnotherDirectory(shape: IconShape, totalParts: int, isEqualSplit: bool)
    ensures var store := [ShapeSplitPrefix(shape, totalParts, isEqualSplit) + "1.svg"];
            ShapeSplitCount(store, shape, totalParts, isEqualSplit) == 1 &&
            GetImagePath(store, shape, totalParts, isEqualSplit, 1).None?
  {
    var splitPrefix := ShapeSplitPrefix(shape, totalParts, isEqualSplit);
    var key := splitPrefix + "1.svg";
    var prefix := IconPrefix(shape, totalParts, isEqualSplit);
    SplitPrefixRooted(shape, totalParts, isEqualSplit);
    IconPrefixRooted(shape, totalParts, isEqualSplit);
    FirstFileMatches(splitPrefix, ShapeSplitsRoot);
    SplitsKeyNotUnderShapes(key, prefix);
    OneSplitsKey([key], key, shape, totalParts, isEqualSplit);
  }
}
