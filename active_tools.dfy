/** The editor's tools and the tools that only make sense with a selection. */
module ActiveTools {

  /** One constructor per member of the `ActiveTool` string union, in declaration order. */
  datatype ActiveTool =
    | Select
    | Shapes
    | Text
    | Images
    | Draw
    | Fill
    | StrokeColor
    | StrokeWidth
    | Font
    | Opacity
    | Filter
    | Settings
    | Ai
    | RemoveBg
    | Templates

  /** The tools whose sidebar edits the selected objects, in the source's order. */
  const SelectionDependentTools: seq<ActiveTool> :=
    [Fill, Filter, Font, Opacity, RemoveBg, StrokeColor, StrokeWidth]

  /** `SELECTION_DEPENDENT_TOOLS.includes(tool)`. */
  predicate IsSelectionDependent(tool: ActiveTool) {
    tool in SelectionDependentTools
  }

  /** Exactly eight tools survive losing the selection; among them are `Select` and `Draw`. */
  lemma SelectionIndependentTools(tool: ActiveTool)
    ensures !IsSelectionDependent(tool) <==>
      tool in {Select, Shapes, Text, Images, Draw, Settings, Ai, Templates}
  {
  }
}
