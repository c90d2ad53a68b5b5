/**
  src/components/tabs/ShapePartsTab.tsx: the editor that picks a shape, a
  fraction and a colour for the multi-part renderer. The fraction select's
  value is the fraction's `"{shaded}:{total}"` key.
*/
module ShapePartsTab {
  import opened Wrappers
  import opened Strings
  import opened Catalog
  import opened FractionKeys
  import opened ShapeParts
  import ObjectPartsTab

  /** The label of a fraction option (after its `n/d - `). The named pairs
      come first, so 2/4 is a half; then any n/n is whole. */
  function OptionLabel(n: int, d: int): (text: string)
    ensures text == " Whole" <==> n == d
    ensures text == " Half" <==> (n == 1 && d == 2) || (n == 2 && d == 4)
    ensures !ObjectPartsTab.NamedFraction(n, d) && n != d ==>
      text == " " + IntToString(n) + " out of " + IntToString(d)
  {
    if n == 1 && d == 2 then " Half"
    else if n == 1 && d == 3 then " One Third"
    else if n == 2 && d == 3 then " Two Thirds"
    else if n == 1 && d == 4 then " One Quarter"
    else if n == 2 && d == 4 then " Half"
    else if n == 3 && d == 4 then " Three Quarters"
    else if n == d then " Whole"
    else " " + IntToString(n) + " out of " + IntToString(d)
  }

  /** On the halves, thirds and quarters this editor and the object-parts
      editor use the same words. */
  lemma LabelsAgreeWithObjectEditor(n: int, d: int)
    requires ObjectPartsTab.NamedFraction(n, d)
    ensures OptionLabel(n, d) == " " + ObjectPartsTab.FractionLabel(n, d)
  {
    if d == 2 { HalvesAgree(n); }
    else if d == 3 { ThirdsAgree(n); }
    else { QuartersAgree(n); }
  }

  lemma HalvesAgree(n: int)
    requires 1 <= n <= 2
    ensures OptionLabel(n, 2) == " " + ObjectPartsTab.FractionLabel(n, 2)
  {
    if n == 1 { LabelPair(1, 2, "Half"); } else { LabelPair(2, 2, "Whole"); }
  }

  lemma ThirdsAgree(n: int)
    requires 1 <= n <= 3
    ensures OptionLabel(n, 3) == " " + ObjectPartsTab.FractionLabel(n, 3)
  {
    if n == 1 { LabelPair(1, 3, "One Third"); }
    else if n == 2 { LabelPair(2, 3, "Two Thirds"); }
    else { LabelPair(3, 3, "Whole"); }
  }

  lemma QuartersAgree(n: int)
    requires 1 <= n <= 4
    ensures OptionLabel(n, 4) == " " + ObjectPartsTab.FractionLabel(n, 4)
  {
    if n == 1 { LabelPair(1, 4, "One Quarter"); }
    else if n == 2 { LabelPair(2, 4, "Half"); }
    else if n == 3 { LabelPair(3, 4, "Three Quarters"); }
    else { LabelPair(4, 4, "Whole"); }
  }

  /** Both editors' labels of one fraction, given its word. */
  lemma LabelPair(n: int, d: int, word: string)
    requires ObjectPartsTab.FractionLabel(n, d) == word && OptionLabel(n, d) == " " + word
    ensures OptionLabel(n, d) == " " + ObjectPartsTab.FractionLabel(n, d)
  {
  }

  /** The editor's state. */
  class Editor {
    var shapeName: Shape
    var total: int
    var shaded: int
    var color: string

    constructor()
      ensures shapeName == Circle && total == 2 && shaded == 1 && color == DefaultColor
    {
      shapeName, total, shaded, color := Circle, 2, 1, DefaultColor;
    }

    /** The fraction select's value. */
    function SelectValue(): string
      reads this
    {
      Encode(shaded, total)
    }

    /** The shape select: the fraction is kept as it is. */
    method ChooseShape(s: Shape)
      modifies this
      ensures shapeName == s
      ensures total == old(total) && shaded == old(shaded) && color == old(color)
    {
      shapeName := s;
    }

    /** The fraction select's `onChange` for the option of `n/d`: its value
        is split at `:` and both halves are read back as numbers. */
    method ChooseOption(n: int, d: int)
      modifies this
      ensures shaded == n && total == d && SelectValue() == Encode(n, d)
      ensures shapeName == old(shapeName) && color == old(color)
    {
      var value := Encode(n, d);
      DecodeEncode(n, d);
      var pair := Decode(value).value;
      shaded := pair.0;
      total := pair.1;
    }

    /** The colour picker. */
    method ChooseColor(c: string)
      modifies this
      ensures color == c
      ensures shapeName == old(shapeName) && total == old(total) && shaded == old(shaded)
    {
      color := c;
    }

    /** The props handed to `ShapeParts`: dark mode is not passed on, so
        the parts are always drawn for a light page. */
    function Props(): (p: ShapePartsProps)
      reads this
      ensures p.shapeName == shapeName && p.totalParts == total && p.partsShaded == shaded
      ensures ColorOf(p) == color && !DarkModeOf(p)
    {
      ShapePartsProps(shapeName, total, shaded, Some(color), None)
    }
  }
}
