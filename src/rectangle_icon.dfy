/**
  src/components/RectangleIcon.tsx: the rectangle renderer. Unlike the
  shape-icon renderer it looks up the file named by `shapeNum` itself, so a
  number resolves exactly when that file exists.
*/
module RectangleIcon {
  import opened Wrappers
  import opened Strings
  import opened Catalog
  import opened AssetStore
  import opened FillRecolor
  import opened RenderState

  const RectangleRoot: string := "/src/assets/rectangle/"

  /** The directory of one split and denominator. */
  function RectangleDir(totalParts: int, isEqualSplit: bool): string
  {
    RectangleRoot + SplitSegment(isEqualSplit) + "/1:" + IntToString(totalParts) + "/"
  }

  /** `svgPath`: the file named after the shape number. */
  function SvgPath(totalParts: int, isEqualSplit: bool, shapeNum: int): (p: string)
    ensures StartsWith(p, RectangleDir(totalParts, isEqualSplit)) && EndsWith(p, ".svg")
  {
    var p := RectangleDir(totalParts, isEqualSplit) + IntToString(shapeNum) + ".svg";
    assert p[..|RectangleDir(totalParts, isEqualSplit)|] == RectangleDir(totalParts, isEqualSplit);
    assert p[|p| - 4..] == ".svg";
    p
  }

  /** Distinct shape numbers name distinct files. */
  lemma SvgPathInjective(totalParts: int, isEqualSplit: bool, m: int, n: int)
    requires SvgPath(totalParts, isEqualSplit, m) == SvgPath(totalParts, isEqualSplit, n)
    ensures m == n
  {
    var d := RectangleDir(totalParts, isEqualSplit);
    var a, b := IntToString(m), IntToString(n);
    assert d + a + ".svg" == d + b + ".svg";
    assert a == (d + a + ".svg")[|d|..|d| + |a|];
    assert b == (d + b + ".svg")[|d|..|d| + |b|];
    assert a == b;
    ParseIntegerOfIntToString(m);
    ParseIntegerOfIntToString(n);
  }

  /** `svgModules[svgPath]`: the path when the store has a loader for it. */
  function Resolve(store: Store, totalParts: int, isEqualSplit: bool, shapeNum: int): (r: Option<string>)
    ensures r.Some? <==> SvgPath(totalParts, isEqualSplit, shapeNum) in store
    ensures r.Some? ==> r.value == SvgPath(totalParts, isEqualSplit, shapeNum)
  {
    var p := SvgPath(totalParts, isEqualSplit, shapeNum);
    if p in store then Some(p) else None
  }

  /** A number resolves whatever other files the directory holds: adding
      or removing other keys never changes what it resolves to. */
  lemma ResolveIgnoresOtherFiles(s1: Store, s2: Store, totalParts: int, isEqualSplit: bool, shapeNum: int)
    requires SvgPath(totalParts, isEqualSplit, shapeNum) in s1 <==> SvgPath(totalParts, isEqualSplit, shapeNum) in s2
    ensures Resolve(s1, totalParts, isEqualSplit, shapeNum) == Resolve(s2, totalParts, isEqualSplit, shapeNum)
  {
  }

  /** A resolvable number is counted in its directory. */
  lemma ResolvableIsCounted(store: Store, totalParts: int, isEqualSplit: bool, shapeNum: int)
    requires Resolve(store, totalParts, isEqualSplit, shapeNum).Some?
    ensures |Filter(store, RectangleDir(totalParts, isEqualSplit), ".svg")| >= 1
  {
    var p := SvgPath(totalParts, isEqualSplit, shapeNum);
    assert p in Filter(store, RectangleDir(totalParts, isEqualSplit), ".svg");
  }

  /** A directory with files `1.svg` and `3.svg` holds two files, yet shape
      number 2 does not resolve: the count is not a range of numbers. */
  lemma CountIsNotARange(store: Store, totalParts: int, isEqualSplit: bool)
    requires store == [SvgPath(totalParts, isEqualSplit, 1), SvgPath(totalParts, isEqualSplit, 3)]
    ensures |Filter(store, RectangleDir(totalParts, isEqualSplit), ".svg")| == 2
    ensures Resolve(store, totalParts, isEqualSplit, 1).Some?
    ensures Resolve(store, totalParts, isEqualSplit, 2).None?
  {
    FilterAllMatching(store, RectangleDir(totalParts, isEqualSplit), ".svg");
    if SvgPath(totalParts, isEqualSplit, 2) == SvgPath(totalParts, isEqualSplit, 1) {
      SvgPathInjective(totalParts, isEqualSplit, 2, 1);
    }
    if SvgPath(totalParts, isEqualSplit, 2) == SvgPath(totalParts, isEqualSplit, 3) {
      SvgPathInjective(totalParts, isEqualSplit, 2, 3);
    }
  }

  datatype IconView = Text(message: string) | Blank | Markup(html: string)

  /** The component's render. */
  function View(s: LoadState): (v: IconView)
    reads s
  {
    if s.loading then Text("Loading...")
    else if s.error then Text("SVG not found")
    else if !Present(s.content) then Blank
    else Markup(s.content.value)
  }

  /** The synchronous part of the effect: a missing file raises the error
      without calling a loader. */
  method StartLoad(s: LoadState, store: Store, totalParts: int, isEqualSplit: bool, shapeNum: int)
    returns (request: Option<string>)
    modifies s
    ensures request == Resolve(store, totalParts, isEqualSplit, shapeNum)
    ensures s.content == old(s.content)
    ensures request.None? ==> !s.loading && s.error && View(s) == Text("SVG not found")
    ensures request.Some? ==> s.loading && !s.error && View(s) == Text("Loading...")
  {
    s.Begin();
    request := Resolve(store, totalParts, isEqualSplit, shapeNum);
    if request.None? {
      s.Missing();
    }
  }

  /** The rest of the effect: the text is stored with every fill value
      replaced by `color`. */
  method FinishLoad(s: LoadState, outcome: LoadOutcome, color: string)
    modifies s
    ensures !s.loading
    ensures outcome.Loaded? ==> s.content == Some(RecolorFills(outcome.text, color)) && s.error == old(s.error)
    ensures outcome.Loaded? && !old(s.error) && RecolorFills(outcome.text, color) != "" ==>
      View(s) == Markup(RecolorFills(outcome.text, color))
    ensures outcome.LoadFailed? ==> s.error && s.content == old(s.content) && View(s) == Text("SVG not found")
  {
    match outcome
    case Loaded(text) => s.Settle(Some(RecolorFills(text, color)));
    case LoadFailed => s.Settle(None);
  }

  /** One render: the effect runs only when the path or the colour changed
      since its last run (its dependency list is `[svgPath, color]`). */
  method Render(gate: EffectGate, s: LoadState, store: Store, totalParts: int, isEqualSplit: bool, shapeNum: int, color: string)
    returns (ran: bool, request: Option<string>)
    modifies gate, s
    ensures ran <==> old(gate.deps) != Some([SvgPath(totalParts, isEqualSplit, shapeNum), color])
    ensures gate.deps == Some([SvgPath(totalParts, isEqualSplit, shapeNum), color])
    ensures !ran ==> request.None? && s.loading == old(s.loading) && s.error == old(s.error) && s.content == old(s.content)
    ensures ran ==> request == Resolve(store, totalParts, isEqualSplit, shapeNum) && s.content == old(s.content)
  {
    ran := gate.Changed([SvgPath(totalParts, isEqualSplit, shapeNum), color]);
    request := None;
    if ran {
      request := StartLoad(s, store, totalParts, isEqualSplit, shapeNum);
    }
  }
}
