/**
  The closed vocabularies the selections draw from: shape kinds, object
  categories and the split style, with the directory names they appear
  under in the asset paths.
*/
module Catalog {

  /** Every shape a selector offers. `Diamond` is offered only by the
      shape-parts selector; the shape-icon selectors offer the other six. */
  datatype Shape = Circle | Diamond | Hexagon | Rectangle | Rhombus | Square | Triangle

  /** The shapes the shape-icon renderer and its two selectors accept. */
  type IconShape = s: Shape | s != Diamond witness Rectangle

  function ShapeName(s: Shape): (name: string)
    ensures name != [] && '/' !in name && ':' !in name
  {
    match s
    case Circle => "circle"
    case Diamond => "diamond"
    case Hexagon => "hexagon"
    case Rectangle => "rectangle"
    case Rhombus => "rhombus"
    case Square => "square"
    case Triangle => "triangle"
  }

  lemma ShapeNameInjective(a: Shape, b: Shape)
    requires ShapeName(a) == ShapeName(b)
    ensures a == b
  {
  }

  datatype ObjectCategory = Pizza | Fruit | Donut | Pie

  function CategoryName(c: ObjectCategory): (name: string)
    ensures name != [] && '/' !in name
  {
    match c
    case Pizza => "pizza"
    case Fruit => "fruit"
    case Donut => "donut"
    case Pie => "pie"
  }

  lemma CategoryNameInjective(a: ObjectCategory, b: ObjectCategory)
    requires CategoryName(a) == CategoryName(b)
    ensures a == b
  {
  }

  /** The directory segment for the split style. */
  function SplitSegment(isEqualSplit: bool): string
  {
    if isEqualSplit then "equal" else "not_equal"
  }

  const DefaultColor: string := "#5FAC4B"
}
