# fraction-visuals in Dafny

A model of the fraction-visuals React application. The app draws fractions in three ways:

- shape icons: one SVG per shape, split style and denominator, recoloured to a chosen colour;
- object photographs: a pizza, fruit, donut or pie, either overlaid with split lines or clipped to pie slices for a shaded fraction;
- multi-part shapes: every part file of a fraction, each processed for accessibility, dark mode and colour.

The model covers:

- how every renderer turns its props into asset keys;
- how it resolves those keys against the bundler's key list (filter, string sort, pick);
- the loading state each renderer keeps and the view it derives from that state;
- the SVG post-processing pipeline;
- the all-or-nothing multi-part loader with its cancellation flag;
- the selection state of the App editor and of the four tab editors.

Modules, one per source file or shared concept:

| module | models |
|---|---|
| `Strings` | prefix/suffix tests, the default `sort()` order, number-to-text, `Number()`, `split`, `toLowerCase` |
| `AssetStore` | the key list of an `import.meta.glob` map, `filter`, `sort`, counts |
| `Catalog` | shape and category names, split segment, default colour |
| `Helpers` | `src/utils/helpers.ts` |
| `FillRecolor` | the `fill="[^"]*"` global replacement of the two icon renderers |
| `RenderState` | the `loading`/`error`/content state of the single-asset renderers and React's dependency check |
| `ShapeIcon`, `RectangleIcon`, `ObjectImages`, `ObjectSplit`, `ObjectParts` | the single-asset renderers |
| `SvgProcessing` | `src/utils/svgProcessing.ts`, with the document as a class |
| `FractionKeys` | the `"{n}:{d}"` fraction key |
| `DynamicSvg` | `src/hooks/useDynamicSVG.ts` |
| `ShapeParts` | `src/components/ShapeParts.tsx` and `SvgPart.tsx` |
| `ShapeSelection` | the editor of `src/App.tsx` and `ShapeVisualsTab.tsx` |
| `ObjectPartsTab`, `ShapePartsTab`, `ObjectSplitsTab` | the other tab editors |

The state the source keeps with `useState` is modelled as classes:

- `RenderState.LoadState` and `RenderState.EffectGate`;
- `DynamicSvg.HookState` and `DynamicSvg.Run`;
- `SvgProcessing.SvgDocument`;
- `ShapeSelection.Selection`;
- the `Editor` class of each tab.

Their handlers are methods with `modifies` clauses. Loops in the source are methods with loop invariants, proved equal to a specification function:

- `ObjectParts.GenerateFractionPaths`;
- `ObjectParts.DivisionLines`;
- `ObjectPartsTab.Editor.AvailableFractions`;
- `SvgDocument.Repaint`.

The asset store is a parameter. It is the list of keys the bundler would list, and loader outcomes are parameters as well.

Where the code and its documentation differ, the model follows the code:

- `ObjectParts` clips `paths.slice(0, partsShaded)`. A negative `partsShaded` therefore counts from the end and does not mean "none".
- `processSvg` removes only the first existing `title` and `desc`, because it uses `querySelector`.
- Only `useDynamicSVG` has a cancellation flag. The single-asset renderers commit the outcome of whichever loader settles last, even when it belongs to a run whose props have since changed.
- The object-parts editor names 2/2, 3/3 and 4/4 "Whole", but writes 5/5 out. The shape-parts editor calls every n/n whole.
- The App editor counts shape numbers in the `shapes` directory its icon resolves from. The shape-visuals tab counts in `shapes_splits`.

## Model

| member | source | states |
|---|---|---|
| AssetStore.Filter | src/utils/helpers.ts:19-21 | the filtered keys are exactly the store's keys with the prefix and suffix, each kept as often as it occurs, never more than the store holds |
| AssetStore.FilterRespectsKeyMultiset | src/utils/helpers.ts:19-21 | which keys survive the filter depends only on which keys the store holds, not on their order |
| AssetStore.Sort | src/components/ShapeIcon.tsx:50 | `sort()` returns a permutation of its input in string order |
| AssetStore.SortedArrangementUnique | src/components/ShapeIcon.tsx:50 | two sorted permutations of the same keys are equal, so the sorted order is unique |
| AssetStore.SortedMatches | src/hooks/useDynamicSVG.ts:37-39 | filter-then-sort is sorted, a permutation of the filtered keys, and holds exactly the matching keys |
| AssetStore.SortedMatchesIndependentOfKeyOrder | src/hooks/useDynamicSVG.ts:37-39 | the sorted candidates do not depend on the order the bundler lists keys in |
| AssetStore.SortedMatchesOfTwo | src/components/ShapeIcon.tsx:45-50 | two matching keys come out in string order whatever their order in the store |
| AssetStore.FilterLength | src/utils/helpers.ts:19-23 | `filter(...).length` is at most the store's size, zero exactly when nothing matches, and the number of distinct matching keys |
| AssetStore.DirectoriesDisjoint | src/utils/helpers.ts:17 | directories named by different slash-free names share no key, even when one name is a prefix of the other |
| Strings.LexLe | src/components/ShapeIcon.tsx:50 | the order of `sort()`: a prefix sorts no later than the text it starts, and a string sorts no later than another only if its first code unit is no greater |
| Strings.LexLeTransitive | src/components/ShapeIcon.tsx:50 | the sort order is transitive |
| Strings.LexLeTotal | src/components/ShapeIcon.tsx:50 | any two keys are comparable |
| Strings.LexLeAntisymmetric | src/components/ShapeIcon.tsx:50 | keys that sort no later than each other are equal |
| Strings.LexLeCommonPrefix | src/components/ShapeIcon.tsx:42-50 | a shared directory prefix does not change the order of two file names |
| Strings.ParseIntegerOfIntToString | src/components/tabs/ShapePartsTab.tsx:50-52 | `Number` of the text of an integer gives the integer back |
| Strings.SplitJoined | src/components/tabs/ShapePartsTab.tsx:52 | splitting `a + ":" + b` at `:` gives `[a, b]` when neither half holds a colon |
| Strings.ToLower | src/utils/svgProcessing.ts:58 | `toLowerCase` keeps the length and lowers each ASCII capital |
| Catalog.ShapeName | src/components/ShapeParts.tsx:7-14 | shape names are non-empty and hold no `/` or `:`, so each is one directory segment |
| Catalog.CategoryName | src/components/ObjectSplit.tsx:3 | category names are non-empty and hold no `/` |
| Catalog.ShapeNameInjective | src/components/ShapeParts.tsx:7-14 | different shapes have different directory names |
| Catalog.CategoryNameInjective | src/components/ObjectSplit.tsx:3 | different categories have different directory names |
| Helpers.ObjectCount | src/utils/helpers.ts:16-24 | `getObjectCount` is at most the store's size, zero exactly when no `.png` key lies in the category's directory, and the number of such distinct keys |
| Helpers.CategoriesCountDisjointKeys | src/utils/helpers.ts:17-21 | no key is counted for two categories, `pi` and `pizza` included |
| Helpers.ShapeSplitCount | src/utils/helpers.ts:27-41 | `getShapeCount` is zero exactly when no `.svg` key lies under `shapes_splits/{shape}/{split}/1:{d}/`, and otherwise the number of such keys |
| FillRecolor.RecolorFills | src/components/ShapeIcon.tsx:83 | the global `fill="[^"]*"` replacement; text without a quote comes back unchanged, and the lemmas below state the rest |
| FillRecolor.NoFillAttributeUnchanged | src/components/ShapeIcon.tsx:83 | text without `fill="` is returned unchanged |
| FillRecolor.OneQuoteUnchanged | src/components/ShapeIcon.tsx:83 | text with at most one double quote holds no match and is unchanged |
| FillRecolor.ShortUnchanged | src/components/ShapeIcon.tsx:83 | text shorter than `fill=""` is unchanged |
| FillRecolor.HeadKept | src/components/ShapeIcon.tsx:83 | the first six characters are never rewritten |
| FillRecolor.ReplacesLeadingValue | src/components/RectangleIcon.tsx:49 | a `fill="v"` attribute becomes `fill="color"` and scanning resumes after it |
| FillRecolor.LastColourWins | src/components/RectangleIcon.tsx:49 | recolouring with `c` and then `d` equals recolouring with `d`, so recolouring is idempotent for a quote-free colour |
| RenderState.LoadState.constructor | src/components/ShapeIcon.tsx:33-35 | a renderer starts loading, without error or content |
| RenderState.LoadState.Begin | src/components/ShapeIcon.tsx:62-63 | a run starts loading and clears the error, keeping the old content |
| RenderState.LoadState.Missing | src/components/ShapeIcon.tsx:67-74 | a missing path raises the error and ends loading |
| RenderState.LoadState.Settle | src/components/ShapeIcon.tsx:76-90 | a delivered value is stored, a rejection raises the error, and loading ends either way |
| RenderState.EffectGate.constructor | src/components/RectangleIcon.tsx:33-60 | before the first render no dependencies are recorded, so the effect runs |
| RenderState.EffectGate.Changed | src/components/RectangleIcon.tsx:60 | the effect runs exactly when the dependency list differs from the last run's |
| RenderState.StaleSettlesLast | src/components/ShapeIcon.tsx:60-90 | with no cancellation flag, two overlapping runs commit in settling order, so a superseded run that settles last leaves its own outcome |
| ShapeIcon.ShapeCount | src/components/ShapeIcon.tsx:106-120 | the count is zero exactly when no `.svg` key lies under `shapes/{shape}/{split}/1:{d}/` |
| ShapeIcon.GetImagePath | src/components/ShapeIcon.tsx:41-58 | a path is returned exactly for `1 <= shapeNum <= count`; it is the `shapeNum`-th candidate in sorted order, a store key in the right directory ending in `.svg` |
| ShapeIcon.PathsFollowStringOrder | src/components/ShapeIcon.tsx:50-54 | a larger shape number never resolves to an earlier path in string order |
| ShapeIcon.PathIndependentOfKeyOrder | src/components/ShapeIcon.tsx:45-54 | the resolved path depends on which keys exist, not on their listing order |
| ShapeIcon.TwoCandidatesInStringOrder | src/components/ShapeIcon.tsx:50-54 | with two candidates, shape 1 is the one whose file name sorts first |
| ShapeIcon.TenSortsBeforeTwo | src/components/ShapeIcon.tsx:50 | string order is not numeric order: `10.svg` sorts before `2.svg` |
| ShapeIcon.StartLoad | src/components/ShapeIcon.tsx:60-75 | the requested path is `getImagePath()`; without one the view is "Image not found", with one it is "Loading..." |
| ShapeIcon.FinishLoad | src/components/ShapeIcon.tsx:76-98 | the loaded text is stored recoloured and shown as markup; a rejection shows "Image not found" |
| RectangleIcon.SvgPath | src/components/RectangleIcon.tsx:29-31 | the path lies in the rectangle directory and ends in `.svg` |
| RectangleIcon.SvgPathInjective | src/components/RectangleIcon.tsx:31 | different shape numbers give different paths |
| RectangleIcon.Resolve | src/components/RectangleIcon.tsx:38-45 | the lookup succeeds exactly when the built path is a store key |
| RectangleIcon.ResolveIgnoresOtherFiles | src/components/RectangleIcon.tsx:38 | other files in the store do not affect the lookup |
| RectangleIcon.ResolvableIsCounted | src/components/RectangleIcon.tsx:31-38 | a resolvable icon lies among the directory's `.svg` files |
| RectangleIcon.CountIsNotARange | src/components/RectangleIcon.tsx:31-38 | files 1 and 3 make two files, yet shape number 2 does not resolve |
| RectangleIcon.StartLoad | src/components/RectangleIcon.tsx:33-45 | without a loader the view is "SVG not found", with one it is "Loading..." |
| RectangleIcon.FinishLoad | src/components/RectangleIcon.tsx:47-64 | the loaded text is stored recoloured and shown; a rejection shows "SVG not found" |
| RectangleIcon.Render | src/components/RectangleIcon.tsx:33-60 | the effect runs only when the path or colour changed, and then requests exactly the built path |
| ObjectImages.ImagePath | src/components/ObjectSplit.tsx:29-31 | the image lies in the category's directory and ends in `.png` |
| ObjectImages.ImagePathInjective | src/components/ObjectParts.tsx:75 | different object numbers give different images |
| ObjectImages.ImageIsCounted | src/components/ObjectSplit.tsx:208-216 | an object whose image exists is counted by `getObjectCount` |
| ObjectImages.CountIsNotARange | src/components/ObjectSplit.tsx:208-216 | objects 0 and 2 make a count of two, yet object 1 has no image |
| ObjectImages.ObjectNumbers | src/components/tabs/ObjectPartsTab.tsx:107 | the offered object numbers are exactly `0..count-1`, in increasing order |
| ObjectSplit.Overlay | src/components/ObjectSplit.tsx:67-180 | lines are drawn exactly for 2, 3 and 4 parts, all inside the 100x100 view box |
| ObjectSplit.OverlayLineCounts | src/components/ObjectSplit.tsx:71-175 | halves draw one line, thirds three, quarters two |
| ObjectSplit.ThirdsAreSpokes | src/components/ObjectSplit.tsx:99-140 | the thirds are three spokes from the centre, one straight up and two mirror images |
| ObjectSplit.QuartersExtendHalves | src/components/ObjectSplit.tsx:142-175 | the quarters' cross is the halves' vertical line plus a horizontal one |
| ObjectSplit.StrokeColor | src/components/ObjectSplit.tsx:68 | the overlay lines are `#000000` in dark mode and `#FFFFFF` otherwise |
| ObjectSplit.View | src/components/ObjectSplit.tsx:62-204 | "Loading..." exactly while loading, "Image not found" exactly on error, nothing exactly when there is no URL, and otherwise the picture with alt text "{category} {n}" and the overlay of `totalParts` in the theme stroke colour at width 4 |
| ObjectSplit.StartLoad | src/components/ObjectSplit.tsx:33-46 | the exact image key is requested when the store has it; otherwise the error is raised |
| ObjectSplit.FinishLoad | src/components/ObjectSplit.tsx:48-56 | the URL is stored, or the error is raised, and loading ends |
| ObjectParts.DescribeSlice | src/components/ObjectParts.tsx:22-36 | the large-arc flag is "0" exactly when the slice spans at most 180 degrees |
| ObjectParts.Slices | src/components/ObjectParts.tsx:39-50 | one slice per part; slice `i` runs from `i` to `i + 1` times `360 / n` degrees |
| ObjectParts.GenerateFractionPaths | src/components/ObjectParts.tsx:39-50 | the loop builds exactly the slice list of the specification |
| ObjectParts.SlicesShareCircle | src/components/ObjectParts.tsx:46 | every slice is drawn on the circle of centre (52, 52) and radius 48 |
| ObjectParts.AnglePerSliceTimesParts | src/components/ObjectParts.tsx:41 | the slice angle times the number of parts is 360 |
| ObjectParts.SlicesTileCircle | src/components/ObjectParts.tsx:41-47 | the slices start at 0, end at 360, are contiguous, and all span the same angle |
| ObjectParts.ArcFlags | src/components/ObjectParts.tsx:26 | with two or more parts no slice needs the large arc; a single part does |
| ObjectParts.ShadedSlices | src/components/ObjectParts.tsx:182 | `slice(0, k)` is a prefix of the paths of length `min(k, n)`, or `n + k` for negative `k` |
| ObjectParts.ShadedSector | src/components/ObjectParts.tsx:181-185 | shading `k` of `n` parts clips the sector from 0 to `k * 360 / n` degrees |
| ObjectParts.ShadingOutOfRange | src/components/ObjectParts.tsx:182 | shading more than `n` clips the whole circle, 0 clips nothing, and negative values count from the end |
| ObjectParts.DivisionAngles | src/components/ObjectParts.tsx:139-161 | one spoke per part; spoke `i` is at `i` times `360 / n` degrees |
| ObjectParts.DivisionLines | src/components/ObjectParts.tsx:139-161 | the loop builds exactly the spoke angles of the specification |
| ObjectParts.SpokesOnBoundaries | src/components/ObjectParts.tsx:139-161 | every division line lies on a slice boundary, one per slice |
| ObjectParts.BackgroundColor | src/components/ObjectParts.tsx:136 | the background circle is `#1a1a1a` in dark mode and `#ffffff` otherwise |
| ObjectParts.LineColor | src/components/ObjectParts.tsx:217 | the spokes and the border are `#ffffff` in dark mode and `#000000` otherwise |
| ObjectParts.LinesContrastWithBackground | src/components/ObjectParts.tsx:136-153 | lines and background differ in either mode |
| ObjectParts.View | src/components/ObjectParts.tsx:99-223 | "Loading object..." while loading; "Object not found:" and "{category} - Object {n}" when there is no URL; otherwise the picture clipped to the shaded slices, on the theme background, with spokes at `DivisionAngles(totalParts)` in the theme line colour |
| ObjectParts.StartLoad | src/components/ObjectParts.tsx:70-83 | the exact image key is requested when the store has it; otherwise the error is raised |
| ObjectParts.FinishLoad | src/components/ObjectParts.tsx:85-93 | the URL is stored, or the error is raised, and loading ends |
| SvgProcessing.IsHexColor | src/utils/svgProcessing.ts:103-105 | `isHexColor` holds exactly for `#` followed by three or six hex digits, in either case |
| SvgProcessing.IsBlack | src/utils/svgProcessing.ts:56-58 | `blackVariants.includes(v.toLowerCase())`; only values of the variants' lengths (4, 5, 7, 10 or 13) can be black |
| SvgProcessing.HexColorShape | src/utils/svgProcessing.ts:103-105 | the pattern `^#([0-9a-f]{3}){1,2}$` with the `i` flag accepts exactly `#` followed by three or six hex digits |
| SvgProcessing.PaintAttrs | src/utils/svgProcessing.ts:49-77 | painting keeps the attribute names and changes no attribute besides `fill` and `stroke` |
| SvgProcessing.PaintTouchesOnlyFillAndStroke | src/utils/svgProcessing.ts:47-64 | elements without fill or stroke are untouched, and a stroke only turns from black to white in dark mode |
| SvgProcessing.FillOutcome | src/utils/svgProcessing.ts:50-76 | the final fill: inverted if black in dark mode, then the user colour for hex values, else the mapped colour, else unchanged |
| SvgProcessing.WhiteIsNotBlackOrHex | src/utils/svgProcessing.ts:56-59 | the inverted `white` is neither black nor hex |
| SvgProcessing.DarkBlackFillEndsWhite | src/utils/svgProcessing.ts:58-76 | in dark mode a black fill ends up `white`, not the user colour |
| SvgProcessing.NearBlackHexNotInverted | src/utils/svgProcessing.ts:56-58 | `#010101` is not inverted; it is a hex colour |
| SvgProcessing.SpacedRgbNotInverted | src/utils/svgProcessing.ts:56-58 | `rgb(0, 0, 0)` with spaces is not inverted |
| SvgProcessing.NotBlackByLength | src/utils/svgProcessing.ts:56-58 | only values of the five variants' lengths can be black |
| SvgProcessing.NotBlackBySeventhChar | src/utils/svgProcessing.ts:56-58 | a seven-character value is black only as `#000000` |
| SvgProcessing.PaintIdempotent | src/utils/svgProcessing.ts:49-77 | with a tile's `{ userColor: c }` map, painting twice equals painting once unless `c` is itself black in dark mode |
| SvgProcessing.PaintForest | src/utils/svgProcessing.ts:47-49 | every child subtree is painted on its own, in order |
| SvgProcessing.RemoveFirst | src/utils/svgProcessing.ts:24-25 | an element is removed exactly when one with the tag exists; it has the tag, and the tags left plus the removed subtree's account for all of them |
| SvgProcessing.OnlyFirstRemoved | src/utils/svgProcessing.ts:24-25 | of two titles only the first is removed |
| SvgProcessing.Sized | src/utils/svgProcessing.ts:79-98 | width and height are dropped, the style is set, `preserveAspectRatio` defaults, `viewBox` is kept or built from width and height, and nothing else changes |
| SvgProcessing.TitleFirstAndLabelled | src/utils/svgProcessing.ts:22-35 | with a title, the new `title` is the first child and `aria-labelledby` names its id |
| SvgProcessing.DescriptionLast | src/utils/svgProcessing.ts:37-44 | with a description, the new `desc` is the last child |
| SvgProcessing.NothingInjectedWithoutText | src/utils/svgProcessing.ts:22-44 | without title or description the children are only repainted and no label is added |
| SvgProcessing.RootPaintUntouched | src/utils/svgProcessing.ts:47 | the root's own attributes, fill and stroke included, are not painted |
| SvgProcessing.SvgDocument.constructor | src/utils/svgProcessing.ts:11-13 | the document holds the parsed root element |
| SvgProcessing.SvgDocument.InjectTitle | src/utils/svgProcessing.ts:22-35 | the first old title is removed, the new one prepended, and the label set |
| SvgProcessing.SvgDocument.InjectDescription | src/utils/svgProcessing.ts:37-44 | the first old description is removed and the new one appended |
| SvgProcessing.SvgDocument.Repaint | src/utils/svgProcessing.ts:46-77 | after the loop every child subtree is its painted version |
| SvgProcessing.SvgDocument.NormaliseSizing | src/utils/svgProcessing.ts:79-98 | the root's attributes become their sized version |
| SvgProcessing.ProcessTree | src/utils/svgProcessing.ts:8-101 | the processed root keeps its tag and text, loses `width` and `height`, gets the responsive style, and is labelled by the title's id exactly when a title is given (an existing label is kept otherwise) |
| SvgProcessing.ProcessSvg | src/utils/svgProcessing.ts:8-101 | the in-place steps produce the specified output |
| SvgProcessing.ParseErrorReturnsInput | src/utils/svgProcessing.ts:16-19 | a parse error returns the input text |
| FractionKeys.Encode | src/hooks/useDynamicSVG.ts:33 | the key never contains a slash, so it stays one directory segment |
| FractionKeys.Decode | src/components/tabs/ShapePartsTab.tsx:52 | `split(':').map(Number)`: a value without a colon decodes to nothing; DecodeEncode gives the round trip |
| FractionKeys.DecodeEncode | src/components/tabs/ShapePartsTab.tsx:50-55 | decoding an encoded fraction gives it back |
| FractionKeys.EncodeInjective | src/components/tabs/ShapePartsTab.tsx:50-59 | different fractions have different keys, so exactly one option matches the select's value |
| DynamicSvg.PartPaths | src/hooks/useDynamicSVG.ts:33-39 | the candidates are sorted and are exactly the `.svg` keys under the fraction's directory |
| DynamicSvg.FractionsDisjoint | src/hooks/useDynamicSVG.ts:33-34 | different fractions of a shape share no candidate |
| DynamicSvg.LoadAll | src/hooks/useDynamicSVG.ts:46-68 | the load succeeds exactly when every loader gives text, with the texts in path order; otherwise the error names a failing path |
| DynamicSvg.LoadFraction | src/hooks/useDynamicSVG.ts:41-68 | no candidates is an error naming the fraction; success gives one text per candidate |
| DynamicSvg.OneFailureFailsAll | src/hooks/useDynamicSVG.ts:46-68 | one failing part fails the whole fraction |
| DynamicSvg.HookState.constructor | src/hooks/useDynamicSVG.ts:21-23 | the hook starts loading, without error or contents |
| DynamicSvg.HookState.BeginRun | src/hooks/useDynamicSVG.ts:30-31 | a run starts loading with no error |
| DynamicSvg.HookState.FinishRun | src/hooks/useDynamicSVG.ts:70-83 | a cancelled run changes nothing; otherwise the texts or the error are committed and loading ends |
| DynamicSvg.Run.constructor | src/hooks/useDynamicSVG.ts:26 | a run starts not cancelled |
| DynamicSvg.Run.Cleanup | src/hooks/useDynamicSVG.ts:88-90 | the cleanup cancels the run |
| DynamicSvg.Supersede | src/hooks/useDynamicSVG.ts:25-91 | when the dependencies change mid-load, the state ends up with the new run's result alone, in either settling order |
| DynamicSvg.LoadSvgs | src/hooks/useDynamicSVG.ts:28-83 | one run of `loadSVGs`: unless cancelled it ends loading with no texts and "No SVG files found" when nothing matches, with one text per candidate in path order and no error when every part loads, and with no texts and the message of a failing path otherwise; a cancelled run leaves the contents as they were |
| ShapeParts.View | src/components/ShapeParts.tsx:37-134 | loading exactly while the hook loads; the unavailable message exactly on error or no parts; otherwise one tile per part, each labelled "Part i+1 of n/d shape" or the fallback when it fails |
| ShapeParts.FaultIsolation | src/components/ShapeParts.tsx:96-129 | a failing tile changes no other tile |
| ShapeParts.TileTitlesDistinct | src/components/ShapeParts.tsx:125 | tiles have distinct titles |
| ShapeParts.RenderTile | src/components/SvgPart.tsx:21-34 | an empty text renders nothing, anything else is processed |
| ShapeParts.TileIsLabelled | src/components/SvgPart.tsx:24-29 | a parsed tile's first child is its title, and the document is labelled by it |
| ShapeSelection.AvailableParts | src/App.tsx:14-23 | every shape offers halves first, only the rhombus offers fifths, and only the hexagon offers a single denominator |
| ShapeSelection.DenominatorWord | src/App.tsx:95-99 | 2, 3 and 4 have their own words and everything else is "Fifths" |
| ShapeSelection.DenominatorWordsDistinct | src/App.tsx:95-99 | one shape's offered denominators have different words |
| ShapeSelection.Selection.constructor | src/App.tsx:7-11 | starts at rectangle, halves, shape 1, equal split, `#5FAC4B` |
| ShapeSelection.Selection.ChangeShape | src/App.tsx:31-48 | after a shape change the denominator is one the shape offers: kept if allowed, else halves; shape number back to 1 |
| ShapeSelection.Selection.ChangeTotalParts | src/components/tabs/ShapeVisualsTab.tsx:58-61 | the denominator is set and the shape number goes back to 1, nothing else changes |
| ShapeSelection.Selection.ChangeSplit | src/components/tabs/ShapeVisualsTab.tsx:63-66 | the split is set and the shape number goes back to 1, nothing else changes |
| ShapeSelection.Selection.ChooseShapeNum | src/App.tsx:123 | the chosen number is taken as it is |
| ShapeSelection.Selection.ChooseColor | src/App.tsx:143-151 | the colour is set and nothing else changes |
| ShapeSelection.ShapeNumberSelect | src/App.tsx:119-134 | disabled with one placeholder of value 1 exactly when the count is 0, otherwise `Shape 1` to `Shape count` |
| ShapeSelection.OfferedNumbers | src/components/tabs/ShapeVisualsTab.tsx:132-138 | an enabled select offers exactly the values `1..count` |
| ShapeSelection.Preview | src/App.tsx:201-213 | the icon is previewed exactly when the count is positive |
| ShapeSelection.AppOfferedNumbersResolve | src/App.tsx:119-134 | in the App editor every offered shape number resolves to a file |
| ShapeSelection.TabCountsAnotherDirectory | src/components/tabs/ShapeVisualsTab.tsx:34-36 | a `shapes_splits` file makes the tab offer shape 1 while the previewed icon finds no file |
| ObjectPartsTab.FractionsOf | src/components/tabs/ObjectPartsTab.tsx:31-37 | the fractions for `d` are `1/d` to `d/d` in order, and no others |
| ObjectPartsTab.Editor.AvailableFractions | src/components/tabs/ObjectPartsTab.tsx:31-37 | the push loop builds exactly those fractions |
| ObjectPartsTab.FractionLabel | src/components/tabs/ObjectPartsTab.tsx:204-213 | "Whole" exactly for 2/2, 3/3, 4/4; "Half" exactly for 1/2 and 2/4; "One Third", "Two Thirds", "One Quarter" and "Three Quarters" exactly for 1/3, 2/3, 1/4 and 3/4; only fractions outside halves, thirds and quarters are written out |
| ObjectPartsTab.OfferedFractionsAreNamed | src/components/tabs/ObjectPartsTab.tsx:202-213 | every offered fraction is a half, third or quarter and its label is one of the six words, never the written-out fallback |
| ObjectPartsTab.Editor.constructor | src/components/tabs/ObjectPartsTab.tsx:11-14 | starts at pizza, object 0, 1 of 2 shaded |
| ObjectPartsTab.Editor.ChooseCategory | src/components/tabs/ObjectPartsTab.tsx:64 | a category button sets only the category; the object number is left to the reset |
| ObjectPartsTab.Editor.ChooseObject | src/components/tabs/ObjectPartsTab.tsx:112 | an object button sets only the object number |
| ObjectPartsTab.Editor.ChooseDenominator | src/components/tabs/ObjectPartsTab.tsx:156-161 | the denominator is set and the shaded count lowered to it if larger, so the shaded count never exceeds the denominator |
| ObjectPartsTab.Editor.ChooseFraction | src/components/tabs/ObjectPartsTab.tsx:39-42 | both halves are set; an offered fraction keeps the shaded count within the whole |
| ObjectPartsTab.Editor.Reset | src/components/tabs/ObjectPartsTab.tsx:24-28 | an object number at or past the count returns to 0 |
| ObjectPartsTab.ResetSettles | src/components/tabs/ObjectPartsTab.tsx:24-28 | a second reset changes nothing |
| ObjectPartsTab.ResetLandsOnOption | src/components/tabs/ObjectPartsTab.tsx:24-28 | after the reset a category with objects shows an offered object number |
| ShapePartsTab.OptionLabel | src/components/tabs/ShapePartsTab.tsx:61-68 | " Whole" exactly for n/n, " Half" exactly for 1/2 and 2/4, other unnamed fractions written out |
| ShapePartsTab.LabelsAgreeWithObjectEditor | src/components/tabs/ShapePartsTab.tsx:61-68 | on halves, thirds and quarters both editors use the same words |
| ShapePartsTab.Editor.constructor | src/components/tabs/ShapePartsTab.tsx:12-15 | starts at circle, 1 of 2, `#5FAC4B` |
| ShapePartsTab.Editor.ChooseShape | src/components/tabs/ShapePartsTab.tsx:32 | a shape change keeps the fraction and colour |
| ShapePartsTab.Editor.ChooseOption | src/components/tabs/ShapePartsTab.tsx:50-55 | choosing an option sets exactly its fraction, and the select then shows that option |
| ShapePartsTab.Editor.ChooseColor | src/components/tabs/ShapePartsTab.tsx:80-88 | the colour is set and nothing else changes |
| ShapePartsTab.Editor.Props | src/components/tabs/ShapePartsTab.tsx:122-127 | the props carry the editor's shape, fraction and colour, and never dark mode |
| ObjectSplitsTab.OfferedDenominatorsDrawLines | src/components/tabs/ObjectSplitsTab.tsx:74-76 | every offered denominator has an overlay |
| ObjectSplitsTab.Editor.constructor | src/components/tabs/ObjectSplitsTab.tsx:11-13 | starts at pizza, object 0, halves |
| ObjectSplitsTab.Editor.ChangeCategory | src/components/tabs/ObjectSplitsTab.tsx:24-27 | a category change resets the object number to 0 |
| ObjectSplitsTab.Editor.ChooseObject | src/components/tabs/ObjectSplitsTab.tsx:54-56 | the object number is set and nothing else changes |
| ObjectSplitsTab.Editor.ChooseTotalParts | src/components/tabs/ObjectSplitsTab.tsx:69-76 | a denominator change keeps the object |

## Left out

- Parsing and serialising: `DOMParser` and `XMLSerializer` are not modelled. The parsed document is a parameter, and the output is the processed element tree.
- Title ids: the `Math.random` title id is a parameter.
- Slice coordinates: `polarToCartesian` and the coordinates of slice end points and spoke tips need `cos` and `sin`. The model keeps the angles, centres and radii, in exact `real` arithmetic.
- Assets and timing:
  - the bundler's glob maps are replaced by their key lists;
  - loaders are replaced by their outcomes;
  - `Promise.all`'s timing is not modelled: when several parts fail, the reported path is the first failing one in path order rather than the first to reject.
- Presentation: JSX layout, inline styles, hover handlers, emoji, the `<style>` block and `console.error` logging.
- Error boundaries: `SvgErrorBoundary`'s lifecycle is not modelled; the tiles that throw are a parameter.
- Unreachable branches: `useDynamicSVG`'s "SVG loader not found" branch cannot be reached, because every candidate path comes from the loader map's own keys.
- FillRecolor.RecolorFills: a colour containing `$` patterns is treated literally, whereas `String.replace` would expand them.
- Strings.LexLe: compares whole characters, while JavaScript's default sort compares UTF-16 code units. They differ only outside the Basic Multilingual Plane.
- Strings.ToLower: lowers ASCII capitals only.
- Strings.ParseInteger: reads optional-sign decimal integers and the empty text. `Number()` on fractions, exponents, whitespace or other text (`NaN`) is not modelled.
- ShapePartsTab.Editor.ChooseOption: takes the fraction of an offered option rather than arbitrary select text.
- The fraction list of the shape-parts editor is not modelled. `getAvailableFractions` is imported from `src/utils/helpers.ts` but not defined there.
- SvgProcessing.PaintAttrs: `colorMap` lookups of inherited object keys such as `constructor` are not modelled.
- ObjectParts.View: the clip-path id text is not modelled.
- ShapeIcon.View and RectangleIcon.View are helpers without contracts. Their outcomes are stated by `StartLoad` and `FinishLoad`.
