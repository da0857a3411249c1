/** The `useHistory` hook as an object whose methods update its state in place. */
module HistoryHook {
  import opened Wrappers
  import opened CanvasModel
  import UndoHistory

  class HistoryManager {
    /** The canvas library the hook calls into. */
    const lib: Library
    /** `canvasHistory.current`. */
    var history: seq<Snapshot>
    /** `historyIndex`. */
    var index: nat
    /** `skipSave.current`. */
    var skip: bool
    /** The `loadFromJSON` calls whose completion callbacks are outstanding. */
    var pending: seq<UndoHistory.PendingLoad>
    /** The canvas the hook was given, as its objects; `None` for `null`. */
    var canvas: Option<seq<CanvasObject>>

    function State(): UndoHistory.HistoryState
      reads this
    {
      UndoHistory.HistoryState(history, index, skip, pending, canvas)
    }

    ghost predicate Valid()
      reads this
    {
      UndoHistory.Valid(State())
    }

    constructor (lib: Library, canvas: Option<seq<CanvasObject>>)
      ensures this.lib == lib && State() == UndoHistory.Init(canvas) && Valid()
    {
      this.lib := lib;
      history := [];
      index := 0;
      skip := false;
      pending := [];
      this.canvas := canvas;
    }

    /** `saveHistory(skipArg)`; `sent` is what the save callback receives. */
    method SaveHistory(skipArg: bool) returns (sent: Option<UndoHistory.SavePayload>)
      requires Valid()
      modifies this
      ensures Valid()
      ensures UndoHistory.SaveOutcome(State(), sent) == UndoHistory.Save(lib, old(State()), skipArg)
    {
      if canvas.None? {
        return None;
      }
      var objects := canvas.value;
      var json := lib.serialize(objects);
      if !skipArg && !skip {
        history := history + [json];
        index := |history| - 1;
      }
      var workspace := FindByName(objects, WorkspaceName);
      var height := if workspace.Some? then objects[workspace.value].height else 0;
      var width := if workspace.Some? then objects[workspace.value].width else 0;
      sent := Some(UndoHistory.SavePayload(json, width, height));
    }

    /** The canvas changing under the hook: the user's edits made through the library, or the
        canvas being created (the `canvas` prop going from `null` to a canvas). */
    method SetCanvas(c: Option<seq<CanvasObject>>)
      requires Valid()
      modifies this
      ensures Valid() && State() == old(State()).(canvas := c)
      ensures State() == UndoHistory.Step(lib, old(State()), UndoHistory.CanvasChanged(c))
    {
      canvas := c;
    }

    /** The part of `undo()` that runs before the load completes. */
    method BeginUndo()
      requires Valid()
      modifies this
      ensures Valid() && State() == UndoHistory.BeginUndo(old(State()))
    {
      if UndoHistory.CanUndo(State()) && canvas.Some? {
        skip := true;
        canvas := Some([]);
        var previousIndex := index - 1;
        var previousState := history[previousIndex];
        pending := pending + [UndoHistory.PendingLoad(previousIndex, previousState)];
      }
    }

    /** The part of `redo()` that runs before the load completes. */
    method BeginRedo()
      requires Valid()
      modifies this
      ensures Valid() && State() == UndoHistory.BeginRedo(old(State()))
    {
      if UndoHistory.CanRedo(State()) && canvas.Some? {
        skip := true;
        canvas := Some([]);
        var nextIndex := index + 1;
        var nextState := history[nextIndex];
        pending := pending + [UndoHistory.PendingLoad(nextIndex, nextState)];
      }
    }

    /** The completion callback passed to `loadFromJSON` by `undo()` or `redo()`, for the
        `k`-th load in flight. */
    method CompleteLoad(k: nat)
      requires Valid() && k < |pending|
      modifies this
      ensures Valid() && State() == UndoHistory.CompleteLoad(lib, old(State()), k)
    {
      var load := pending[k];
      canvas := Some(lib.load(load.json));
      index := load.target;
      skip := false;
      pending := pending[..k] + pending[k + 1..];
    }
  }
}
