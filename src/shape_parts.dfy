/**
  src/components/ShapeParts.tsx: shows every part file of one fraction of a
  shape as its own tile, each processed for accessibility and colour and
  each guarded by its own error boundary.
*/
module ShapeParts {
  import opened Wrappers
  import opened Strings
  import opened Catalog
  import opened DynamicSvg
  import opened SvgProcessing

  /** The component's props; an absent colour or dark mode takes the
      default. */
  datatype ShapePartsProps = ShapePartsProps(shapeName: Shape, totalParts: int, partsShaded: int,
                                             color: Option<string>, isDarkMode: Option<bool>)

  function ColorOf(props: ShapePartsProps): string
  {
    if props.color.Some? then props.color.value else DefaultColor
  }

  function DarkModeOf(props: ShapePartsProps): bool
  {
    props.isDarkMode.Some? && props.isDarkMode.value
  }

  /** The fraction as the component writes it, `{partsShaded}/{totalParts}`. */
  function FractionText(props: ShapePartsProps): string
  {
    IntToString(props.partsShaded) + "/" + IntToString(props.totalParts)
  }

  /** `Part {index + 1} of {partsShaded}/{totalParts} {shapeName}` */
  function TileTitle(props: ShapePartsProps, index: nat): string
  {
    "Part " + NatToString(index + 1) + TitleTail(props)
  }

  function TitleTail(props: ShapePartsProps): string
  {
    " of " + FractionText(props) + " " + ShapeName(props.shapeName)
  }

  function TileDescription(props: ShapePartsProps): string
  {
    "Visual representation of fraction " + FractionText(props) + " using a " + ShapeName(props.shapeName) + " shape"
  }

  /** One tile: the `SvgPart` props, or the boundary's fallback once that
      tile has failed to render. */
  datatype Tile =
    | Part(rawSvg: string, color: string, darkMode: bool, title: string, description: string, index: nat)
    | DisplayError

  datatype PartsView =
    | LoadingMessage(textColor: string)
    | Unavailable(heading: string, detail: string, errorText: Option<string>, textColor: string)
    | Tiles(tiles: seq<Tile>)

  function MessageColor(isDarkMode: bool): string
  {
    if isDarkMode then "#999" else "#666"
  }

  function TileAt(props: ShapePartsProps, contents: seq<string>, faults: set<nat>, i: nat): Tile
    requires i < |contents|
  {
    if i in faults then DisplayError
    else Part(contents[i], ColorOf(props), DarkModeOf(props), TileTitle(props, i), TileDescription(props), i)
  }

  /** The component's render from the hook's state; `faults` are the tiles
      whose rendering throws. */
  function View(hook: HookState, props: ShapePartsProps, faults: set<nat>): (v: PartsView)
    reads hook
    ensures hook.isLoading <==> v.LoadingMessage?
    ensures v.Unavailable? <==> !hook.isLoading && (hook.error.Some? || hook.svgContents == [])
    ensures v.Unavailable? ==>
      (v.heading == "No shape parts available for:" &&
       v.detail == ShapeName(props.shapeName) + " - " + FractionText(props) && v.errorText == hook.error)
    ensures v.Tiles? ==> |v.tiles| == |hook.svgContents| >= 1
    ensures v.Tiles? ==> forall i :: 0 <= i < |v.tiles| ==> (v.tiles[i].DisplayError? <==> i in faults)
    ensures v.Tiles? ==> forall i :: 0 <= i < |v.tiles| && i !in faults ==>
      v.tiles[i] == Part(hook.svgContents[i], ColorOf(props), DarkModeOf(props), TileTitle(props, i), TileDescription(props), i)
  {
    if hook.isLoading then LoadingMessage(MessageColor(DarkModeOf(props)))
    else if hook.error.Some? || |hook.svgContents| == 0 then
      Unavailable("No shape parts available for:", ShapeName(props.shapeName) + " - " + FractionText(props),
                  hook.error, MessageColor(DarkModeOf(props)))
    else
      var contents := hook.svgContents;
      Tiles(seq(|contents|, i requires 0 <= i < |contents| => TileAt(props, contents, faults, i)))
  }

  /** A tile that fails takes down only itself: every other tile is the
      same whether or not tile `k` fails. */
  lemma FaultIsolation(hook: HookState, props: ShapePartsProps, faults: set<nat>, k: nat)
    requires View(hook, props, faults).Tiles?
    ensures View(hook, props, faults + {k}).Tiles?
    ensures forall i :: 0 <= i < |View(hook, props, faults).tiles| && i != k ==>
      View(hook, props, faults + {k}).tiles[i] == View(hook, props, faults).tiles[i]
  {
  }

  /** Tiles have distinct titles, since each names its own part number. */
  lemma TileTitlesDistinct(props: ShapePartsProps, i: nat, j: nat)
    requires TileTitle(props, i) == TileTitle(props, j)
    ensures i == j
  {
    SameSurroundings("Part ", NatToString(i + 1), NatToString(j + 1), TitleTail(props));
    DigitsValueOfNatToString(i + 1);
    DigitsValueOfNatToString(j + 1);
  }

  // ---------------------------------------------------------------------
  // What a tile renders (src/components/SvgPart.tsx)

  /** The options `SvgPart` hands to `processSvg`: the tile colour as
      `userColor`, the tile's dark mode, title and description. */
  function TileOptions(t: Tile): SvgOptions
    requires t.Part?
  {
    SvgOptions(map["userColor" := t.color], t.darkMode, Some(t.title), Some(t.description))
  }

  /** An empty text renders nothing; anything else is processed. */
  function RenderTile(t: Tile, parsed: Element, titleId: string): (r: Option<Output>)
    requires t.Part?
    ensures r.None? <==> t.rawSvg == ""
  {
    if t.rawSvg == "" then None else Some(ProcessedOutput(t.rawSvg, parsed, TileOptions(t), titleId))
  }

  /** A tile whose file parses is announced by its own title: the first
      child of the processed document is a `title` holding "Part i+1 of
      n/d shape", and the document's `aria-labelledby` names it. */
  lemma TileIsLabelled(hook: HookState, props: ShapePartsProps, faults: set<nat>, i: nat, parsed: Element, titleId: string)
    requires View(hook, props, faults).Tiles? && i < |hook.svgContents| && i !in faults
    requires hook.svgContents[i] != "" && parsed.tag != "parsererror"
    ensures var t := View(hook, props, faults).tiles[i];
            var out := RenderTile(t, parsed, titleId);
            out.Some? && out.value.Serialized? &&
            out.value.root.children[0] == TitleElement(TileTitle(props, i), titleId) &&
            out.value.root.attrs["aria-labelledby"] == titleId
  {
    var t := View(hook, props, faults).tiles[i];
    assert TileTitle(props, i) != "" by { assert TileTitle(props, i)[0] == 'P'; }
    TitleFirstAndLabelled(parsed, TileOptions(t), titleId);
  }
}
