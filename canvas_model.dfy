/** The part of the canvas graphics library that the history hook relies on. */
module CanvasModel {
  import opened Wrappers

  /** A string-encoded serialization of the whole canvas. */
  type Snapshot = string

  /** A drawable object on the canvas: its name (empty when it has none) and its size. Every
      other attribute is left to the library and appears only through its serialization. */
  datatype CanvasObject = CanvasObject(name: string, width: int, height: int)

  /** The reserved name of the object whose size is the project's size. */
  const WorkspaceName: string := "clip"

  /** The library's two conversions, seen from outside: `serialize` is `toJSON` with the
      persisted keys followed by `JSON.stringify`, `load` is `JSON.parse` followed by
      `loadFromJSON`, giving the objects the canvas then holds. */
  datatype Library = Library(serialize: seq<CanvasObject> -> Snapshot, load: Snapshot -> seq<CanvasObject>)

  /** The one fact assumed of the library: a loaded snapshot serializes back to itself. */
  ghost predicate LoadThenSerialize(lib: Library) {
    forall s: Snapshot :: lib.serialize(lib.load(s)) == s
  }

  /** `objects[i]` is the first object named `name`. */
  predicate IsFirstNamed(objects: seq<CanvasObject>, i: int, name: string) {
    0 <= i < |objects| && objects[i].name == name &&
    forall j :: 0 <= j < i ==> objects[j].name != name
  }

  /** `objects.find(o => o.name === name)`, as a position: the first object with that name. */
  function FindByName(objects: seq<CanvasObject>, name: string): (r: Option<nat>)
    ensures r.Some? ==> IsFirstNamed(objects, r.value, name)
    ensures r.None? ==> forall j :: 0 <= j < |objects| ==> objects[j].name != name
  {
    if objects == [] then None
    else if objects[0].name == name then Some(0)
    else match FindByName(objects[1..], name)
      case None => None
      case Some(i) => Some(i + 1)
  }
}
