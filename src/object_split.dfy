/**
  src/components/ObjectSplit.tsx: an object photograph with straight split
  lines drawn over it in a 100 by 100 view box.
*/
module ObjectSplit {
  import opened Wrappers
  import opened Strings
  import opened Catalog
  import opened AssetStore
  import opened RenderState
  import opened ObjectImages

  /** A `<line>` of the overlay, in view-box coordinates. */
  datatype Line = Line(x1: real, y1: real, x2: real, y2: real)

  predicate InViewBox(l: Line)
  {
    0.0 <= l.x1 <= 100.0 && 0.0 <= l.y1 <= 100.0 && 0.0 <= l.x2 <= 100.0 && 0.0 <= l.y2 <= 100.0
  }

  /** `renderSplitOverlay()`'s lines: a vertical line for halves, three
      spokes from the centre for thirds, a cross for quarters, nothing for
      any other denominator. */
  function Overlay(totalParts: int): (lines: seq<Line>)
    ensures totalParts !in {2, 3, 4} <==> lines == []
    ensures forall i :: 0 <= i < |lines| ==> InViewBox(lines[i])
  {
    if totalParts == 2 then [Line(50.0, 0.0, 50.0, 100.0)]
    else if totalParts == 3 then [Line(50.0, 50.0, 50.0, 0.0), Line(50.0, 50.0, 93.3, 75.0), Line(50.0, 50.0, 6.7, 75.0)]
    else if totalParts == 4 then [Line(50.0, 0.0, 50.0, 100.0), Line(0.0, 50.0, 100.0, 50.0)]
    else []
  }

  /** Halves use one line, thirds three, quarters two. */
  lemma OverlayLineCounts()
    ensures |Overlay(2)| == 1 && |Overlay(3)| == 3 && |Overlay(4)| == 2
  {
  }

  /** The three spokes of thirds all start at the centre, one points
      straight up and the other two mirror each other about the vertical
      axis. */
  lemma ThirdsAreSpokes()
    ensures forall i :: 0 <= i < 3 ==> Overlay(3)[i].x1 == 50.0 && Overlay(3)[i].y1 == 50.0
    ensures Overlay(3)[0].x2 == 50.0 && Overlay(3)[0].y2 == 0.0
    ensures Overlay(3)[1].x2 - 50.0 == 50.0 - Overlay(3)[2].x2 && Overlay(3)[1].y2 == Overlay(3)[2].y2
  {
  }

  /** Quarters draw the halves line plus a horizontal line through the
      centre. */
  lemma QuartersExtendHalves()
    ensures Overlay(4)[0] == Overlay(2)[0]
    ensures Overlay(4)[1].y1 == Overlay(4)[1].y2 == 50.0
  {
  }

  const StrokeWidth: int := 4

  /** Black lines in dark mode, white otherwise: the opposite of the
      division lines of ObjectParts.tsx. */
  function StrokeColor(isDarkMode: bool): (c: string)
    ensures isDarkMode ==> c == "#000000"
    ensures !isDarkMode ==> c == "#FFFFFF"
  {
    if isDarkMode then "#000000" else "#FFFFFF"
  }

  datatype SplitView =
    | Text(message: string)
    | Blank
    | Picture(url: string, alt: string, lines: seq<Line>, stroke: string, strokeWidth: int)

  /** The component's render. */
  function View(s: LoadState, c: ObjectCategory, objectNum: int, totalParts: int, isDarkMode: bool): (v: SplitView)
    reads s
    ensures v == Text("Loading...") <==> s.loading
    ensures v == Text("Image not found") <==> !s.loading && s.error
    ensures v.Picture? <==> !s.loading && !s.error && Present(s.content)
    ensures v == Blank <==> !s.loading && !s.error && !Present(s.content)
    ensures v.Picture? ==> v.url == s.content.value && v.lines == Overlay(totalParts)
    ensures v.Picture? ==> v.stroke == StrokeColor(isDarkMode) && v.strokeWidth == 4
    ensures v.Picture? ==> v.alt == CategoryName(c) + " " + IntToString(objectNum)
  {
    if s.loading then Text("Loading...")
    else if s.error then Text("Image not found")
    else if !Present(s.content) then Blank
    else Picture(s.content.value, CategoryName(c) + " " + IntToString(objectNum), Overlay(totalParts),
                 StrokeColor(isDarkMode), StrokeWidth)
  }

  /** The synchronous part of the effect: the image path is looked up
      exactly; a missing image raises the error without calling a loader. */
  method StartLoad(s: LoadState, store: Store, c: ObjectCategory, objectNum: int)
    returns (request: Option<string>)
    modifies s
    ensures request.Some? <==> ImagePath(c, objectNum) in store
    ensures request.Some? ==> request.value == ImagePath(c, objectNum)
    ensures s.content == old(s.content)
    ensures request.None? ==> !s.loading && s.error
    ensures request.Some? ==> s.loading && !s.error
  {
    s.Begin();
    if ImagePath(c, objectNum) in store {
      request := Some(ImagePath(c, objectNum));
    } else {
      request := None;
      s.Missing();
    }
  }

  /** The rest of the effect: the URL is stored, or the error raised. */
  method FinishLoad(s: LoadState, outcome: LoadOutcome)
    modifies s
    ensures !s.loading
    ensures outcome.Loaded? ==> s.content == Some(outcome.text) && s.error == old(s.error)
    ensures outcome.LoadFailed? ==> s.error && s.content == old(s.content)
  {
    match outcome
    case Loaded(url) => s.Settle(Some(url));
    case LoadFailed => s.Settle(None);
  }
}
