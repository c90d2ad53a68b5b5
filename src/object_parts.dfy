/**
  src/components/ObjectParts.tsx: an object photograph cut into equal pie
  slices, of which the first `partsShaded` show the photograph.
  Angles are in degrees, clockwise from twelve o'clock; a slice is kept as
  its two angles and its SVG large-arc flag (the cosine/sine arithmetic
  that turns them into path text is not modelled).
*/
module ObjectParts {
  import opened Wrappers
  import opened Strings
  import opened Catalog
  import opened AssetStore
  import opened RenderState
  import opened ObjectImages

  /** The path `M cx cy L start A r r rotation largeArc sweep end Z` of one
      slice, with the arc's end points kept as angles. */
  datatype Slice = Slice(centerX: real, centerY: real, radius: real, startAngle: real, endAngle: real,
                         xRotation: int, largeArcFlag: string, sweepFlag: int)

  /** The centre and radius every slice and spoke uses, in a 104 by 104
      view box. */
  const Center: real := 52.0
  const Radius: real := 48.0

  /** `describePieSlice`: the arc takes the short way unless it spans more
      than half the circle, and always sweeps clockwise. */
  function DescribeSlice(x: real, y: real, radius: real, startAngle: real, endAngle: real): (s: Slice)
    ensures s.centerX == x && s.centerY == y && s.radius == radius
    ensures s.startAngle == startAngle && s.endAngle == endAngle
    ensures s.largeArcFlag == "0" <==> endAngle - startAngle <= 180.0
    ensures s.largeArcFlag in {"0", "1"} && s.xRotation == 0 && s.sweepFlag == 1
  {
    Slice(x, y, radius, startAngle, endAngle, 0, if endAngle - startAngle <= 180.0 then "0" else "1", 1)
  }

  function AnglePerSlice(totalParts: int): real
    requires totalParts > 0
  {
    360.0 / (totalParts as real)
  }

  /** The `i`-th slice of `totalParts`. */
  function SliceAt(totalParts: int, i: int): Slice
    requires 0 <= i < totalParts
  {
    DescribeSlice(Center, Center, Radius, (i as real) * AnglePerSlice(totalParts), ((i + 1) as real) * AnglePerSlice(totalParts))
  }

  /** What `generateFractionPaths(totalParts)` returns: slice `i` runs
      from `i` to `i + 1` times `360 / totalParts` degrees. */
  function Slices(totalParts: int): (slices: seq<Slice>)
    ensures |slices| == if totalParts > 0 then totalParts else 0
    ensures forall i :: 0 <= i < |slices| ==>
      slices[i].startAngle == (i as real) * (360.0 / (totalParts as real)) &&
      slices[i].endAngle == ((i + 1) as real) * (360.0 / (totalParts as real))
  {
    if totalParts <= 0 then [] else seq(totalParts, i requires 0 <= i < totalParts => SliceAt(totalParts, i))
  }

  /** `generateFractionPaths`: one slice per part, pushed in order. */
  method GenerateFractionPaths(totalParts: int) returns (paths: seq<Slice>)
    ensures paths == Slices(totalParts)
  {
    paths := [];
    var i := 0;
    while i < totalParts
      invariant 0 <= i <= |Slices(totalParts)|
      invariant paths == Slices(totalParts)[..i]
    {
      var anglePerSlice := 360.0 / (totalParts as real);
      var startAngle := (i as real) * anglePerSlice;
      var endAngle := ((i + 1) as real) * anglePerSlice;
      assert DescribeSlice(52.0, 52.0, 48.0, startAngle, endAngle) == Slices(totalParts)[i];
      assert Slices(totalParts)[..i + 1] == Slices(totalParts)[..i] + [Slices(totalParts)[i]];
      paths := paths + [DescribeSlice(52.0, 52.0, 48.0, startAngle, endAngle)];
      i := i + 1;
    }
  }

  /** Every slice is a sector of the same circle. */
  lemma SlicesShareCircle(totalParts: int)
    ensures forall i :: 0 <= i < |Slices(totalParts)| ==>
      Slices(totalParts)[i].centerX == Center && Slices(totalParts)[i].centerY == Center &&
      Slices(totalParts)[i].radius == Radius && Slices(totalParts)[i].sweepFlag == 1
  {
  }

  lemma AnglePerSliceTimesParts(totalParts: int)
    requires totalParts > 0
    ensures (totalParts as real) * AnglePerSlice(totalParts) == 360.0
  {
  }

  /** The slices tile the circle: the first starts at 0, each starts where
      the previous one ends, the last ends at 360, and each spans the same
      angle. */
  lemma SlicesTileCircle(totalParts: int)
    requires totalParts > 0
    ensures |Slices(totalParts)| == totalParts
    ensures Slices(totalParts)[0].startAngle == 0.0
    ensures Slices(totalParts)[totalParts - 1].endAngle == 360.0
    ensures forall i :: 0 <= i < totalParts - 1 ==> Slices(totalParts)[i].endAngle == Slices(totalParts)[i + 1].startAngle
    ensures forall i :: 0 <= i < totalParts ==>
      Slices(totalParts)[i].endAngle - Slices(totalParts)[i].startAngle == AnglePerSlice(totalParts)
  {
    AnglePerSliceTimesParts(totalParts);
    var a := AnglePerSlice(totalParts);
    forall i | 0 <= i < totalParts
      ensures Slices(totalParts)[i].endAngle - Slices(totalParts)[i].startAngle == a
    {
      assert ((i + 1) as real) * a == (i as real) * a + a;
    }
  }

  /** Two or more parts give slices of at most half the circle, all drawn
      with the short arc; a single part is the whole circle, drawn with the
      long arc. */
  lemma ArcFlags(totalParts: int)
    requires totalParts > 0
    ensures totalParts >= 2 ==> forall i :: 0 <= i < totalParts ==> Slices(totalParts)[i].largeArcFlag == "0"
    ensures totalParts == 1 ==> Slices(totalParts)[0].largeArcFlag == "1"
  {
    SlicesTileCircle(totalParts);
    var a := AnglePerSlice(totalParts);
    AnglePerSliceTimesParts(totalParts);
    if totalParts >= 2 {
      assert (totalParts as real) * a >= 2.0 * a;
      assert a <= 180.0;
    }
  }

  /** `paths.slice(0, partsShaded)`, with JavaScript's reading of a
      negative end as counted from the back. */
  function ShadedSlices(paths: seq<Slice>, partsShaded: int): (r: seq<Slice>)
    ensures |r| <= |paths| && r == paths[..|r|]
    ensures 0 <= partsShaded ==> |r| == if partsShaded <= |paths| then partsShaded else |paths|
    ensures partsShaded < 0 ==> |r| == if |paths| + partsShaded >= 0 then |paths| + partsShaded else 0
  {
    var end := if partsShaded < 0 then (if |paths| + partsShaded >= 0 then |paths| + partsShaded else 0)
               else if partsShaded <= |paths| then partsShaded else |paths|;
    paths[..end]
  }

  /** Shading `k` of `n` parts shows the sector from 0 to `k/n` of the
      full turn. */
  lemma ShadedSector(totalParts: int, k: int)
    requires 1 <= k <= totalParts
    ensures |ShadedSlices(Slices(totalParts), k)| == k
    ensures ShadedSlices(Slices(totalParts), k)[0].startAngle == 0.0
    ensures ShadedSlices(Slices(totalParts), k)[k - 1].endAngle == (k as real) * AnglePerSlice(totalParts)
  {
    SlicesTileCircle(totalParts);
  }

  /** A shaded count past the denominator shades the whole object, a zero
      count nothing, and a negative count leaves that many slices unshaded
      at the end. */
  lemma ShadingOutOfRange(totalParts: int, k: int)
    requires totalParts > 0
    ensures k >= totalParts ==> ShadedSlices(Slices(totalParts), k) == Slices(totalParts)
    ensures k == 0 ==> ShadedSlices(Slices(totalParts), k) == []
    ensures -totalParts <= k < 0 ==> ShadedSlices(Slices(totalParts), k) == Slices(totalParts)[..totalParts + k]
  {
  }

  function SpokeAngle(totalParts: int, i: int): real
    requires 0 <= i < totalParts
  {
    (i as real) * AnglePerSlice(totalParts)
  }

  /** The angles `renderDivisionLines` draws its spokes at: spoke `i` at
      `i` times `360 / totalParts` degrees. */
  function DivisionAngles(totalParts: int): (angles: seq<real>)
    ensures |angles| == if totalParts > 0 then totalParts else 0
    ensures forall i :: 0 <= i < |angles| ==> angles[i] == (i as real) * (360.0 / (totalParts as real))
  {
    if totalParts <= 0 then [] else seq(totalParts, i requires 0 <= i < totalParts => SpokeAngle(totalParts, i))
  }

  /** `renderDivisionLines`: one spoke per part, in order. */
  method DivisionLines(totalParts: int) returns (angles: seq<real>)
    ensures angles == DivisionAngles(totalParts)
  {
    angles := [];
    var i := 0;
    while i < totalParts
      invariant 0 <= i <= |DivisionAngles(totalParts)|
      invariant angles == DivisionAngles(totalParts)[..i]
    {
      var anglePerSlice := 360.0 / (totalParts as real);
      assert (i as real) * anglePerSlice == DivisionAngles(totalParts)[i];
      assert DivisionAngles(totalParts)[..i + 1] == DivisionAngles(totalParts)[..i] + [DivisionAngles(totalParts)[i]];
      angles := angles + [(i as real) * anglePerSlice];
      i := i + 1;
    }
  }

  /** Every spoke lies on a slice boundary: spoke `i` is where slice `i`
      starts and slice `i - 1` ends. */
  lemma SpokesOnBoundaries(totalParts: int)
    ensures |DivisionAngles(totalParts)| == |Slices(totalParts)|
    ensures forall i :: 0 <= i < |Slices(totalParts)| ==> DivisionAngles(totalParts)[i] == Slices(totalParts)[i].startAngle
    ensures forall i :: 0 < i < |Slices(totalParts)| ==> DivisionAngles(totalParts)[i] == Slices(totalParts)[i - 1].endAngle
  {
  }

  /** The background circle matches the page: near-black in dark mode,
      white otherwise. */
  function BackgroundColor(isDarkMode: bool): (c: string)
    ensures isDarkMode ==> c == "#1a1a1a"
    ensures !isDarkMode ==> c == "#ffffff"
  {
    if isDarkMode then "#1a1a1a" else "#ffffff"
  }

  /** The colour of the spokes and of the outer border: white in dark
      mode, black otherwise. */
  function LineColor(isDarkMode: bool): (c: string)
    ensures isDarkMode ==> c == "#ffffff"
    ensures !isDarkMode ==> c == "#000000"
  {
    if isDarkMode then "#ffffff" else "#000000"
  }

  function MessageColor(isDarkMode: bool): string
  {
    if isDarkMode then "#999" else "#666"
  }

  /** In both modes the lines stand out from the background circle. */
  lemma LinesContrastWithBackground(isDarkMode: bool)
    ensures LineColor(isDarkMode) != BackgroundColor(isDarkMode)
  {
  }

  datatype PartsView =
    | Message(lines: seq<string>, textColor: string)
    | Picture(url: string, clip: seq<Slice>, background: string, spokes: seq<real>, stroke: string)

  /** The component's render: the loading text, the not-found text naming
      the object, or the sliced photograph. */
  function View(s: LoadState, c: ObjectCategory, objectNum: int, totalParts: int, partsShaded: int, isDarkMode: bool): (v: PartsView)
    reads s
    ensures v.Picture? <==> !s.loading && !s.error && Present(s.content)
    ensures s.loading ==> v == Message(["Loading object..."], MessageColor(isDarkMode))
    ensures !s.loading && (s.error || !Present(s.content)) ==>
      v.Message? && |v.lines| == 2 && v.lines[0] == "Object not found:" &&
      v.lines[1] == CategoryName(c) + " - Object " + IntToString(objectNum)
    ensures v.Picture? ==> v.url == s.content.value && v.clip == ShadedSlices(Slices(totalParts), partsShaded)
    ensures v.Picture? ==> v.background == BackgroundColor(isDarkMode) && v.stroke == LineColor(isDarkMode)
    ensures v.Picture? ==> v.spokes == DivisionAngles(totalParts) && |v.spokes| == |Slices(totalParts)|
    ensures v.Picture? ==> v.stroke != v.background
  {
    if s.loading then Message(["Loading object..."], MessageColor(isDarkMode))
    else if s.error || !Present(s.content) then
      Message(["Object not found:", CategoryName(c) + " - Object " + IntToString(objectNum)], MessageColor(isDarkMode))
    else
      SpokesOnBoundaries(totalParts);
      Picture(s.content.value, ShadedSlices(Slices(totalParts), partsShaded), BackgroundColor(isDarkMode),
              DivisionAngles(totalParts), LineColor(isDarkMode))
  }

  /** The synchronous part of the effect: the image path is looked up
      exactly; a missing image raises the error without calling a loader. */
  method StartLoad(s: LoadState, store: Store, c: ObjectCategory, objectNum: int)
    returns (request: Option<string>)
    modifies s
    ensures request.Some? <==> ImagePath(c, objectNum) in store
    ensures request.Some? ==> request.value == ImagePath(c, objectNum)
    ensures s.content == old(s.content)
    ensures request.None? ==> !s.loading && s.error
    ensures request.Some? ==> s.loading && !s.error
  {
    s.Begin();
    if ImagePath(c, objectNum) in store {
      request := Some(ImagePath(c, objectNum));
    } else {
      request := None;
      s.Missing();
    }
  }

  /** The rest of the effect: the URL is stored, or the error raised. */
  method FinishLoad(s: LoadState, outcome: LoadOutcome)
    modifies s
    ensures !s.loading
    ensures outcome.Loaded? ==> s.content == Some(outcome.text) && s.error == old(s.error)
    ensures outcome.LoadFailed? ==> s.error && s.content == old(s.content)
  {
    match outcome
    case Loaded(url) => s.Settle(Some(url));
    case LoadFailed => s.Settle(None);
  }
}
