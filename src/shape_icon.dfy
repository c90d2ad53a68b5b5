/**
  src/components/ShapeIcon.tsx: the shape-icon renderer. It picks the
  `shapeNum`-th SVG (1-based, in string order) of a shape/split/denominator
  directory, recolours every `fill` value and shows the markup.
*/
module ShapeIcon {
  import opened Wrappers
  import opened Strings
  import opened Catalog
  import opened AssetStore
  import opened FillRecolor
  import opened RenderState

  const ShapesRoot: string := "/src/assets/shapes/"

  /** The directory of the candidates; its numerator segment is always 1. */
  function IconPrefix(shape: IconShape, totalParts: int, isEqualSplit: bool): string
  {
    ShapesRoot + ShapeName(shape) + "/" + SplitSegment(isEqualSplit) + "/1:" + IntToString(totalParts) + "/"
  }

  /** The candidates of `getImagePath`, sorted. */
  function Candidates(store: Store, shape: IconShape, totalParts: int, isEqualSplit: bool): seq<string>
  {
    SortedMatches(store, IconPrefix(shape, totalParts, isEqualSplit), ".svg")
  }

  /** `getShapeCount` of ShapeIcon.tsx, over the `shapes` root. */
  function ShapeCount(store: Store, shape: IconShape, totalParts: int, isEqualSplit: bool): (n: nat)
    ensures n <= |store|
    ensures n == 0 <==> forall k :: k in store ==> !Matches(k, IconPrefix(shape, totalParts, isEqualSplit), ".svg")
    ensures DistinctKeys(store) ==> n == |MatchingSet(store, IconPrefix(shape, totalParts, isEqualSplit), ".svg")|
  {
    FilterLength(store, IconPrefix(shape, totalParts, isEqualSplit), ".svg");
    |Filter(store, IconPrefix(shape, totalParts, isEqualSplit), ".svg")|
  }

  /** `getImagePath()`: the `shapeNum`-th candidate in string order, or null. */
  function GetImagePath(store: Store, shape: IconShape, totalParts: int, isEqualSplit: bool, shapeNum: int): (r: Option<string>)
    ensures r.Some? <==> 1 <= shapeNum <= ShapeCount(store, shape, totalParts, isEqualSplit)
    ensures r.Some? ==> r.value in store
    ensures r.Some? ==> StartsWith(r.value, IconPrefix(shape, totalParts, isEqualSplit)) && EndsWith(r.value, ".svg")
    ensures r.Some? ==> r.value == Candidates(store, shape, totalParts, isEqualSplit)[shapeNum - 1]
  {
    var c := Candidates(store, shape, totalParts, isEqualSplit);
    if 0 < shapeNum <= |c| then
      assert c[shapeNum - 1] in c;
      Some(c[shapeNum - 1])
    else None
  }

  /** A larger index never resolves to an earlier path in string order. */
  lemma PathsFollowStringOrder(store: Store, shape: IconShape, totalParts: int, isEqualSplit: bool, m: int, n: int)
    requires 1 <= m < n <= ShapeCount(store, shape, totalParts, isEqualSplit)
    ensures LexLe(GetImagePath(store, shape, totalParts, isEqualSplit, m).value,
                  GetImagePath(store, shape, totalParts, isEqualSplit, n).value)
  {
  }

  /** The resolved path depends on which keys the store holds, not on the
      order the bundler lists them in. */
  lemma PathIndependentOfKeyOrder(s1: Store, s2: Store, shape: IconShape, totalParts: int, isEqualSplit: bool, shapeNum: int)
    requires multiset(s1) == multiset(s2)
    ensures GetImagePath(s1, shape, totalParts, isEqualSplit, shapeNum) == GetImagePath(s2, shape, totalParts, isEqualSplit, shapeNum)
  {
    SortedMatchesIndependentOfKeyOrder(s1, s2, IconPrefix(shape, totalParts, isEqualSplit), ".svg");
  }

  /** With two candidate files whose names are out of string order, shape
      number 1 is the one whose name sorts first. */
  lemma TwoCandidatesInStringOrder(store: Store, shape: IconShape, totalParts: int, isEqualSplit: bool, a: string, b: string)
    requires EndsWith(a, ".svg") && EndsWith(b, ".svg") && !LexLe(a, b)
    requires store == [IconPrefix(shape, totalParts, isEqualSplit) + a, IconPrefix(shape, totalParts, isEqualSplit) + b]
    ensures GetImagePath(store, shape, totalParts, isEqualSplit, 1) == Some(IconPrefix(shape, totalParts, isEqualSplit) + b)
    ensures GetImagePath(store, shape, totalParts, isEqualSplit, 2) == Some(IconPrefix(shape, totalParts, isEqualSplit) + a)
  {
    var p := IconPrefix(shape, totalParts, isEqualSplit);
    var x, y := p + a, p + b;
    assert Candidates(store, shape, totalParts, isEqualSplit) == [y, x] by {
      assert EndsWith(x, ".svg") by { assert x[|x| - 4..] == a[|a| - 4..]; }
      assert EndsWith(y, ".svg") by { assert y[|y| - 4..] == b[|b| - 4..]; }
      assert StartsWith(x, p) && StartsWith(y, p);
      assert LexLe(y, x) by {
        LexLeTotal(a, b);
        LexLeCommonPrefix(p, b, a);
      }
      SortedMatchesOfTwo(x, y, p, ".svg");
    }
  }

  /** String order is not numeric order: `10.svg` sorts before `2.svg`. */
  lemma TenSortsBeforeTwo()
    ensures !LexLe("2.svg", "10.svg")
  {
  }

  // ---------------------------------------------------------------------
  // The loading effect and what the component renders.

  datatype IconView = Text(message: string) | Blank | Markup(html: string)

  /** The component's render: loading, then error, then empty content. */
  function View(s: LoadState): (v: IconView)
    reads s
  {
    if s.loading then Text("Loading...")
    else if s.error then Text("Image not found")
    else if !Present(s.content) then Blank
    else Markup(s.content.value)
  }

  /** The synchronous part of the effect, up to the `await`: the returned
      path is the one whose loader is called; with no path no loader is
      called and the error is shown. */
  method StartLoad(s: LoadState, store: Store, shape: IconShape, totalParts: int, isEqualSplit: bool, shapeNum: int)
    returns (request: Option<string>)
    modifies s
    ensures request == GetImagePath(store, shape, totalParts, isEqualSplit, shapeNum)
    ensures s.content == old(s.content)
    ensures request.None? ==> !s.loading && s.error && View(s) == Text("Image not found")
    ensures request.Some? ==> s.loading && !s.error && View(s) == Text("Loading...")
  {
    s.Begin();
    request := GetImagePath(store, shape, totalParts, isEqualSplit, shapeNum);
    if request.None? {
      s.Missing();
    }
  }

  /** The rest of the effect once the loader settles: the text is stored
      with every fill value replaced by `color`. */
  method FinishLoad(s: LoadState, outcome: LoadOutcome, color: string)
    modifies s
    ensures !s.loading
    ensures outcome.Loaded? ==> s.content == Some(RecolorFills(outcome.text, color)) && s.error == old(s.error)
    ensures outcome.Loaded? && !old(s.error) && RecolorFills(outcome.text, color) != "" ==>
      View(s) == Markup(RecolorFills(outcome.text, color))
    ensures outcome.LoadFailed? ==> s.error && s.content == old(s.content) && View(s) == Text("Image not found")
  {
    match outcome
    case Loaded(text) => s.Settle(Some(RecolorFills(text, color)));
    case LoadFailed => s.Settle(None);
  }
}
