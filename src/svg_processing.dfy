/**
  src/utils/svgProcessing.ts: `processSvg` rewrites a parsed SVG document in
  place before it is shown as one tile of a multi-part shape. It replaces
  the accessible title and description, inverts black paint in dark mode,
  recolours fills and makes the root scale with its container.

  The parser and the serialiser are outside the model: the document comes
  in already parsed (a root whose tag is `parsererror` stands for a parse
  failure) and goes out as a tree.
*/
module SvgProcessing {
  import opened Wrappers
  import opened Strings

  /** An element: tag name, attributes, text content and child elements. */
  datatype Element = Element(tag: string, attrs: map<string, string>, text: string, children: seq<Element>)

  /** `SvgProcessingOptions` with its defaults applied: an absent colour map
      is empty, an absent dark mode is off. */
  datatype SvgOptions = SvgOptions(colorMap: map<string, string>, darkMode: bool,
                                   title: Option<string>, description: Option<string>)

  /** JavaScript truthiness of an optional string. */
  predicate Truthy(s: Option<string>)
  {
    s.Some? && s.value != ""
  }

  /** `el.getAttribute(name)`: the value, or null. */
  function GetAttr(attrs: map<string, string>, name: string): Option<string>
  {
    if name in attrs then Some(attrs[name]) else None
  }

  // ---------------------------------------------------------------------
  // Colour tests

  const BlackVariants: seq<string> := ["black", "#000", "#000000", "rgb(0,0,0)", "rgba(0,0,0,1)"]

  /** `blackVariants.includes(value.toLowerCase())` */
  predicate IsBlack(value: string): (black: bool)
    ensures black ==> |value| in {4, 5, 7, 10, 13}
  {
    ToLower(value) in BlackVariants
  }

  predicate IsHexDigit(c: char)
  {
    '0' <= c <= '9' || 'a' <= c <= 'f' || 'A' <= c <= 'F'
  }

  /** One `[0-9a-f]{3}` group of the pattern, case-insensitively. */
  predicate HexTriple(s: string)
  {
    |s| == 3 && IsHexDigit(s[0]) && IsHexDigit(s[1]) && IsHexDigit(s[2])
  }

  /** The pattern `^#([0-9a-f]{3}){1,2}$` with the `i` flag, read group by
      group. */
  predicate HexPattern(color: string)
  {
    |color| >= 1 && color[0] == '#' &&
    (HexTriple(color[1..]) || (|color| == 7 && HexTriple(color[1..4]) && HexTriple(color[4..])))
  }

  /** The pattern accepts exactly a `#` followed by three or six hex digits
      of either case. */
  lemma HexColorShape(color: string)
    ensures HexPattern(color) <==>
      (|color| == 4 || |color| == 7) && color[0] == '#' && forall i :: 1 <= i < |color| ==> IsHexDigit(color[i])
  {
    if (|color| == 4 || |color| == 7) && color[0] == '#' && forall i :: 1 <= i < |color| ==> IsHexDigit(color[i]) {
      if |color| == 4 {
        assert HexTriple(color[1..]) by { assert IsHexDigit(color[1]) && IsHexDigit(color[2]) && IsHexDigit(color[3]); }
      } else {
        assert HexTriple(color[1..4]) by { assert IsHexDigit(color[1]) && IsHexDigit(color[2]) && IsHexDigit(color[3]); }
        assert HexTriple(color[4..]) by { assert IsHexDigit(color[4]) && IsHexDigit(color[5]) && IsHexDigit(color[6]); }
      }
    }
    if HexPattern(color) {
      if HexTriple(color[1..]) {
        forall i | 1 <= i < |color| ensures IsHexDigit(color[i]) { assert color[i] == color[1..][i - 1]; }
      } else {
        forall i | 1 <= i < |color| ensures IsHexDigit(color[i]) {
          if i < 4 { assert color[i] == color[1..4][i - 1]; } else { assert color[i] == color[4..][i - 4]; }
        }
      }
    }
  }

  /** `isHexColor`: a `#` followed by three or six hex digits of either
      case. */
  predicate IsHexColor(color: string): (hex: bool)
    ensures hex <==>
      (|color| == 4 || |color| == 7) && color[0] == '#' && forall i :: 1 <= i < |color| ==> IsHexDigit(color[i])
  {
    HexColorShape(color);
    HexPattern(color)
  }

  // ---------------------------------------------------------------------
  // The per-element paint rewrite of the `forEach` loop

  /** `*[fill], *[stroke]`: the elements the loop visits. */
  predicate Selected(attrs: map<string, string>)
  {
    "fill" in attrs || "stroke" in attrs
  }

  /** Step 1, dark mode: a truthy black `name` attribute becomes `white`. */
  function Invert(attrs: map<string, string>, name: string, darkMode: bool): map<string, string>
  {
    if darkMode && name in attrs && attrs[name] != "" && IsBlack(attrs[name]) then attrs[name := "white"] else attrs
  }

  /** Step 2 on the re-read fill: a hex fill takes `colorMap.userColor` when
      that is truthy, and otherwise a fill that is a key with a truthy value
      takes the mapped value. */
  function Recolor(attrs: map<string, string>, colorMap: map<string, string>): map<string, string>
  {
    if "fill" in attrs && attrs["fill"] != "" && IsHexColor(attrs["fill"]) then
      attrs["fill" := if Truthy(GetAttr(colorMap, "userColor")) then colorMap["userColor"] else attrs["fill"]]
    else if "fill" in attrs && attrs["fill"] != "" && Truthy(GetAttr(colorMap, attrs["fill"])) then
      attrs["fill" := colorMap[attrs["fill"]]]
    else attrs
  }

  /** The body of the loop for one visited element. */
  function PaintAttrs(attrs: map<string, string>, colorMap: map<string, string>, darkMode: bool): (r: map<string, string>)
    ensures r.Keys == attrs.Keys
    ensures forall k :: k in attrs && k != "fill" && k != "stroke" ==> r[k] == attrs[k]
  {
    Recolor(Invert(Invert(attrs, "fill", darkMode), "stroke", darkMode), colorMap)
  }

  /** Elements with neither attribute are left alone, and the stroke is
      only ever inverted: it becomes `white` exactly when dark mode is on
      and it is a non-empty black literal, and is otherwise kept. */
  lemma PaintTouchesOnlyFillAndStroke(attrs: map<string, string>, colorMap: map<string, string>, darkMode: bool)
    ensures !Selected(attrs) ==> PaintAttrs(attrs, colorMap, darkMode) == attrs
    ensures "stroke" in attrs ==>
      PaintAttrs(attrs, colorMap, darkMode)["stroke"] ==
        if darkMode && attrs["stroke"] != "" && IsBlack(attrs["stroke"]) then "white" else attrs["stroke"]
  {
  }

  /** The fill outcome, case by case: inversion first, then the user colour
      for hex values, then the named-colour map, else unchanged. */
  lemma FillOutcome(attrs: map<string, string>, colorMap: map<string, string>, darkMode: bool)
    requires "fill" in attrs
    ensures var f := attrs["fill"];
            var g := if darkMode && f != "" && IsBlack(f) then "white" else f;
            PaintAttrs(attrs, colorMap, darkMode)["fill"] ==
              if g != "" && IsHexColor(g) then (if Truthy(GetAttr(colorMap, "userColor")) then colorMap["userColor"] else g)
              else if g != "" && Truthy(GetAttr(colorMap, g)) then colorMap[g]
              else g
  {
  }

  lemma WhiteIsNotBlackOrHex()
    ensures !IsBlack("white") && !IsHexColor("white")
  {
    assert ToLower("white") == "white";
  }

  /** In dark mode a black fill such as `#000` ends up `white`, not the user
      colour, unless the map names `white` itself. */
  lemma DarkBlackFillEndsWhite(attrs: map<string, string>, colorMap: map<string, string>)
    requires "fill" in attrs && attrs["fill"] != "" && IsBlack(attrs["fill"])
    requires "white" !in colorMap
    ensures PaintAttrs(attrs, colorMap, true)["fill"] == "white"
  {
    WhiteIsNotBlackOrHex();
  }

  /** Near-black values are not inverted: `#010101` is a hex colour (and
      so takes the user colour), and `rgb(0, 0, 0)` with spaces is not in
      the list. */
  lemma NearBlackHexNotInverted()
    ensures !IsBlack("#010101") && IsHexColor("#010101")
  {
    NotBlackBySeventhChar("#010101");
    HexColorShape("#010101");
  }

  lemma SpacedRgbNotInverted()
    ensures !IsBlack("rgb(0, 0, 0)")
  {
    NotBlackByLength("rgb(0, 0, 0)");
  }

  /** Only values of the lengths of the five variants can be black. */
  lemma NotBlackByLength(v: string)
    requires |v| !in {4, 5, 7, 10, 13}
    ensures !IsBlack(v)
  {
  }

  /** The only seven-character variant is `#000000`. */
  lemma NotBlackBySeventhChar(v: string)
    requires |v| == 7 && LowerChar(v[2]) != '0'
    ensures !IsBlack(v)
  {
    assert ToLower(v)[2] != '0';
    assert ToLower(v) != "#000000" by { assert "#000000"[2] == '0'; }
  }

  /** With the colour map a tile passes, `{ userColor: c }`, painting twice
      gives the same attributes as painting once, unless the user colour is
      itself a black literal that dark mode would invert. */
  lemma PaintIdempotent(attrs: map<string, string>, c: string, darkMode: bool)
    requires !(darkMode && c != "" && IsBlack(c))
    ensures var once := PaintAttrs(attrs, map["userColor" := c], darkMode);
            PaintAttrs(once, map["userColor" := c], darkMode) == once
  {
    WhiteIsNotBlackOrHex();
    var cm := map["userColor" := c];
    var once := PaintAttrs(attrs, cm, darkMode);
    if "fill" in attrs {
      FillOutcome(attrs, cm, darkMode);
      FillOutcome(once, cm, darkMode);
    }
    if "stroke" in attrs {
      PaintTouchesOnlyFillAndStroke(attrs, cm, darkMode);
      PaintTouchesOnlyFillAndStroke(once, cm, darkMode);
    }
    assert PaintAttrs(once, cm, darkMode).Keys == once.Keys;
  }

  /** The loop over `querySelectorAll('*[fill], *[stroke]')` applied to one
      subtree: every selected element is painted, nothing else changes. */
  function PaintTree(e: Element, colorMap: map<string, string>, darkMode: bool): (r: Element)
    ensures r.tag == e.tag && r.text == e.text && |r.children| == |e.children|
    decreases e, 1
  {
    Element(e.tag, if Selected(e.attrs) then PaintAttrs(e.attrs, colorMap, darkMode) else e.attrs, e.text,
            PaintForest(e.children, colorMap, darkMode))
  }

  function PaintForest(nodes: seq<Element>, colorMap: map<string, string>, darkMode: bool): (r: seq<Element>)
    ensures |r| == |nodes|
    ensures forall i :: 0 <= i < |nodes| ==> r[i] == PaintTree(nodes[i], colorMap, darkMode)
    decreases nodes, 0
  {
    if nodes == [] then []
    else [PaintTree(nodes[0], colorMap, darkMode)] + PaintForest(nodes[1..], colorMap, darkMode)
  }

  // ---------------------------------------------------------------------
  // `querySelector(tag)` followed by `remove()`

  /** The number of elements with this tag in a forest. */
  function CountTag(nodes: seq<Element>, tag: string): nat
    decreases nodes
  {
    if nodes == [] then 0
    else (if nodes[0].tag == tag then 1 else 0) + CountTag(nodes[0].children, tag) + CountTag(nodes[1..], tag)
  }

  /** An element that neither has the tag nor contains it stays in front. */
  lemma RemoveFirstKeepsHead(x: Element, rest: seq<Element>, tag: string)
    requires x.tag != tag && CountTag(x.children, tag) == 0
    ensures RemoveFirst([x] + rest, tag).0 == [x] + RemoveFirst(rest, tag).0
  {
    assert ([x] + rest)[0] == x && ([x] + rest)[1..] == rest;
  }

  /** Removes the first element with this tag in document order (depth
      first, parents before children), together with its subtree, and
      returns it. */
  function RemoveFirst(nodes: seq<Element>, tag: string): (r: (seq<Element>, Option<Element>))
    ensures r.1.Some? <==> CountTag(nodes, tag) > 0
    ensures r.1.None? ==> r.0 == nodes
    ensures r.1.Some? ==>
      (r.1.value.tag == tag && CountTag(r.0, tag) + 1 + CountTag(r.1.value.children, tag) == CountTag(nodes, tag))
    decreases nodes
  {
    if nodes == [] then (nodes, None)
    else if nodes[0].tag == tag then
      assert nodes == [nodes[0]] + nodes[1..];
      (nodes[1..], Some(nodes[0]))
    else
      var inner := RemoveFirst(nodes[0].children, tag);
      if inner.1.Some? then
        var rest := [nodes[0].(children := inner.0)] + nodes[1..];
        assert rest[1..] == nodes[1..];
        (rest, inner.1)
      else
        var after := RemoveFirst(nodes[1..], tag);
        var rest := [nodes[0]] + after.0;
        assert rest[1..] == after.0;
        (rest, after.1)
  }

  /** Only the first match is removed: a document with two `title`
      elements still has one of them afterwards. */
  lemma OnlyFirstRemoved(t1: Element, t2: Element)
    requires t1.tag == "title" && t2.tag == "title" && t1.children == [] && t2.children == []
    ensures RemoveFirst([t1, t2], "title") == ([t2], Some(t1))
    ensures CountTag(RemoveFirst([t1, t2], "title").0, "title") == 1
  {
    assert [t1, t2][1..] == [t2];
    assert [t2][1..] == [];
  }

  // ---------------------------------------------------------------------
  // The root's sizing attributes

  const ResponsiveStyle: string := "width: 100%; height: 100%; display: block;"
  const DefaultAspect: string := "xMidYMid meet"

  /** The sizing normalisation of the root's attributes. */
  function Sized(attrs: map<string, string>): (r: map<string, string>)
    ensures "width" !in r && "height" !in r
    ensures "style" in r && r["style"] == ResponsiveStyle
    ensures "preserveAspectRatio" in r &&
      r["preserveAspectRatio"] == if "preserveAspectRatio" in attrs then attrs["preserveAspectRatio"] else DefaultAspect
    ensures "viewBox" in r <==>
      "viewBox" in attrs || (Truthy(GetAttr(attrs, "width")) && Truthy(GetAttr(attrs, "height")))
    ensures "viewBox" in attrs ==> r["viewBox"] == attrs["viewBox"]
    ensures "viewBox" !in attrs && "viewBox" in r ==> r["viewBox"] == "0 0 " + attrs["width"] + " " + attrs["height"]
    ensures forall k :: k !in {"width", "height", "style", "preserveAspectRatio", "viewBox"} ==>
      (k in r <==> k in attrs) && (k in r ==> r[k] == attrs[k])
  {
    var withBox :=
      if "viewBox" !in attrs && Truthy(GetAttr(attrs, "width")) && Truthy(GetAttr(attrs, "height"))
      then attrs["viewBox" := "0 0 " + attrs["width"] + " " + attrs["height"]]
      else attrs;
    var unsized := withBox - {"width", "height"};
    var withAspect := if "preserveAspectRatio" !in unsized then unsized["preserveAspectRatio" := DefaultAspect] else unsized;
    withAspect["style" := ResponsiveStyle]
  }

  // ---------------------------------------------------------------------
  // The whole transform

  function TitleElement(title: string, titleId: string): Element
  {
    Element("title", map["id" := titleId], title, [])
  }

  function DescElement(description: string): Element
  {
    Element("desc", map[], description, [])
  }

  /** The root after the four in-place steps, in order: title, description,
      paint, sizing. */
  function ProcessTree(root: Element, opts: SvgOptions, titleId: string): (r: Element)
    ensures r.tag == root.tag && r.text == root.text
    ensures "width" !in r.attrs && "height" !in r.attrs && "style" in r.attrs && r.attrs["style"] == ResponsiveStyle
    ensures Truthy(opts.title) ==> "aria-labelledby" in r.attrs && r.attrs["aria-labelledby"] == titleId
    ensures !Truthy(opts.title) ==>
      ("aria-labelledby" in r.attrs <==> "aria-labelledby" in root.attrs) &&
      ("aria-labelledby" in root.attrs ==> r.attrs["aria-labelledby"] == root.attrs["aria-labelledby"])
  {
    var titled := if Truthy(opts.title) then [TitleElement(opts.title.value, titleId)] + RemoveFirst(root.children, "title").0
                  else root.children;
    var labelled := if Truthy(opts.title) then root.attrs["aria-labelledby" := titleId] else root.attrs;
    SizedKeepsLabel(labelled);
    var described := if Truthy(opts.description) then RemoveFirst(titled, "desc").0 + [DescElement(opts.description.value)]
                     else titled;
    Element(root.tag, Sized(labelled), root.text, PaintForest(described, opts.colorMap, opts.darkMode))
  }

  datatype Output = RawText(text: string) | Serialized(root: Element)

  /** What `processSvg` returns: the input text on a parse error, the
      rewritten document otherwise. */
  function ProcessedOutput(raw: string, parsed: Element, opts: SvgOptions, titleId: string): Output
  {
    if parsed.tag == "parsererror" then RawText(raw) else Serialized(ProcessTree(parsed, opts, titleId))
  }

  /** With a title, the new `title` element is the first child, holds the
      text and carries the id the root's `aria-labelledby` names. */
  lemma TitleFirstAndLabelled(root: Element, opts: SvgOptions, titleId: string)
    requires Truthy(opts.title)
    ensures var r := ProcessTree(root, opts, titleId);
            |r.children| >= 1 && r.children[0] == TitleElement(opts.title.value, titleId) &&
            r.attrs["aria-labelledby"] == titleId && r.children[0].attrs["id"] == titleId
  {
    var t := TitleElement(opts.title.value, titleId);
    var titled := [t] + RemoveFirst(root.children, "title").0;
    var described := if Truthy(opts.description) then RemoveFirst(titled, "desc").0 + [DescElement(opts.description.value)]
                     else titled;
    assert described[0] == t by {
      if Truthy(opts.description) {
        RemoveFirstKeepsHead(t, RemoveFirst(root.children, "title").0, "desc");
      }
    }
    assert PaintTree(t, opts.colorMap, opts.darkMode) == t by {
      assert !Selected(t.attrs);
    }
  }

  /** Sizing leaves `aria-labelledby` alone. */
  lemma SizedKeepsLabel(attrs: map<string, string>)
    ensures "aria-labelledby" in Sized(attrs) <==> "aria-labelledby" in attrs
    ensures "aria-labelledby" in attrs ==> Sized(attrs)["aria-labelledby"] == attrs["aria-labelledby"]
  {
    var k := "aria-labelledby";
    assert k !in {"width", "height", "style", "preserveAspectRatio", "viewBox"} by {
      assert k[0] == 'a';
      assert k != "preserveAspectRatio" by { assert |k| != |"preserveAspectRatio"|; }
    }
  }

  /** With a description, the new `desc` element is the last child. */
  lemma DescriptionLast(root: Element, opts: SvgOptions, titleId: string)
    requires Truthy(opts.description)
    ensures var r := ProcessTree(root, opts, titleId);
            |r.children| >= 1 && r.children[|r.children| - 1] == DescElement(opts.description.value)
  {
    var d := DescElement(opts.description.value);
    assert PaintTree(d, opts.colorMap, opts.darkMode) == d;
  }

  /** Without a title or description no element is added or removed: the
      children are the input's children, painted. */
  lemma NothingInjectedWithoutText(root: Element, opts: SvgOptions, titleId: string)
    requires !Truthy(opts.title) && !Truthy(opts.description)
    ensures ProcessTree(root, opts, titleId).children == PaintForest(root.children, opts.colorMap, opts.darkMode)
    ensures "aria-labelledby" in ProcessTree(root, opts, titleId).attrs <==> "aria-labelledby" in root.attrs
  {
  }

  /** The root itself is never painted: its `fill` and `stroke`, like every
      attribute but the sizing ones and the label, are carried over. */
  lemma RootPaintUntouched(root: Element, opts: SvgOptions, titleId: string, k: string)
    requires k !in {"width", "height", "style", "preserveAspectRatio", "viewBox", "aria-labelledby"}
    ensures k in ProcessTree(root, opts, titleId).attrs <==> k in root.attrs
    ensures k in root.attrs ==> ProcessTree(root, opts, titleId).attrs[k] == root.attrs[k]
  {
  }

  // ---------------------------------------------------------------------
  // The document edited in place

  class SvgDocument {
    const tag: string
    var attrs: map<string, string>
    const text: string
    var children: seq<Element>

    /** The document `DOMParser` produced, with `root` as its element. */
    constructor(root: Element)
      ensures tag == root.tag && attrs == root.attrs && text == root.text && children == root.children
    {
      tag, attrs, text, children := root.tag, root.attrs, root.text, root.children;
    }

    function Root(): Element
      reads this
    {
      Element(tag, attrs, text, children)
    }

    /** Removes the first existing `title`, prepends a new one with the
        given id and points `aria-labelledby` at it. */
    method InjectTitle(title: string, titleId: string)
      modifies this
      ensures children == [TitleElement(title, titleId)] + RemoveFirst(old(children), "title").0
      ensures attrs == old(attrs)["aria-labelledby" := titleId]
    {
      var removed := RemoveFirst(children, "title");
      children := [TitleElement(title, titleId)] + removed.0;
      attrs := attrs["aria-labelledby" := titleId];
    }

    /** Removes the first existing `desc` and appends a new one. */
    method InjectDescription(description: string)
      modifies this
      ensures children == RemoveFirst(old(children), "desc").0 + [DescElement(description)]
      ensures attrs == old(attrs)
    {
      var removed := RemoveFirst(children, "desc");
      children := removed.0 + [DescElement(description)];
    }

    /** The `forEach` over every element carrying `fill` or `stroke`, one
        top-level subtree at a time. */
    method Repaint(colorMap: map<string, string>, darkMode: bool)
      modifies this
      ensures children == PaintForest(old(children), colorMap, darkMode)
      ensures attrs == old(attrs)
    {
      var original := children;
      var i := 0;
      while i < |children|
        invariant |children| == |original| && 0 <= i <= |children|
        invariant forall j :: 0 <= j < i ==> children[j] == PaintTree(original[j], colorMap, darkMode)
        invariant forall j :: i <= j < |children| ==> children[j] == original[j]
        invariant attrs == old(attrs)
      {
        children := children[i := PaintTree(children[i], colorMap, darkMode)];
        i := i + 1;
      }
    }

    /** Adds `viewBox` from the size when it is missing, drops the fixed
        size, defaults `preserveAspectRatio` and sets the responsive style. */
    method NormaliseSizing()
      modifies this
      ensures attrs == Sized(old(attrs))
      ensures children == old(children)
    {
      if "viewBox" !in attrs {
        var width := GetAttr(attrs, "width");
        var height := GetAttr(attrs, "height");
        if Truthy(width) && Truthy(height) {
          attrs := attrs["viewBox" := "0 0 " + width.value + " " + height.value];
        }
      }
      attrs := attrs - {"width", "height"};
      if "preserveAspectRatio" !in attrs {
        attrs := attrs["preserveAspectRatio" := DefaultAspect];
      }
      attrs := attrs["style" := ResponsiveStyle];
    }
  }

  /** `processSvg(rawSvg, options)`, with the parsed document and the title
      id given. */
  method ProcessSvg(raw: string, parsed: Element, opts: SvgOptions, titleId: string) returns (out: Output)
    ensures out == ProcessedOutput(raw, parsed, opts, titleId)
  {
    if parsed.tag == "parsererror" {
      return RawText(raw);
    }
    var doc := new SvgDocument(parsed);
    if opts.title.Some? && opts.title.value != "" {
      doc.InjectTitle(opts.title.value, titleId);
    }
    if opts.description.Some? && opts.description.value != "" {
      doc.InjectDescription(opts.description.value);
    }
    doc.Repaint(opts.colorMap, opts.darkMode);
    doc.NormaliseSizing();
    out := Serialized(doc.Root());
  }

  /** A parse error hands back the input text untouched. */
  lemma ParseErrorReturnsInput(raw: string, parsed: Element, opts: SvgOptions, titleId: string)
    requires parsed.tag == "parsererror"
    ensures ProcessedOutput(raw, parsed, opts, titleId) == RawText(raw)
  {
  }
}
