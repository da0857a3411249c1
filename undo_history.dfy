/** The history of canvas snapshots kept by the `useHistory` hook, as values: the state of one
    editor session and one function per operation. */
module UndoHistory {
  import opened Wrappers
  import opened CanvasModel

  /** A `loadFromJSON` call whose completion callback has not run yet: the cursor position it
      will commit and the snapshot it loads. */
  datatype PendingLoad = PendingLoad(target: nat, json: Snapshot)

  /** `canvasHistory`, `historyIndex`, `skipSave`, the loads in flight, and the canvas the hook
      was given (`None` for `null`), seen as its objects. */
  datatype HistoryState = HistoryState(
    history: seq<Snapshot>,
    index: nat,
    skip: bool,
    pending: seq<PendingLoad>,
    canvas: Option<seq<CanvasObject>>)

  /** What `saveHistory` hands to the save callback. */
  datatype SavePayload = SavePayload(json: Snapshot, width: int, height: int)

  /** The state after `saveHistory` and the payload it sent (`None`: the callback was not called). */
  datatype SaveOutcome = SaveOutcome(state: HistoryState, sent: Option<SavePayload>)

  /** A session starts with no snapshots, the cursor at 0 and saving not suppressed. */
  function Init(canvas: Option<seq<CanvasObject>>): HistoryState {
    HistoryState([], 0, false, [], canvas)
  }

  /** The cursor lies in `[0, max(0, |history| - 1)]`; every load in flight will load the
      snapshot stored at its target; saving is suppressed only while some load is in flight. */
  ghost predicate Valid(s: HistoryState) {
    && (s.index == 0 || s.index < |s.history|)
    && (forall i :: 0 <= i < |s.pending| ==>
          s.pending[i].target < |s.history| && s.history[s.pending[i].target] == s.pending[i].json)
    && (s.skip ==> s.pending != [])
  }

  /** `canUndo()`. */
  predicate CanUndo(s: HistoryState) {
    s.index > 0
  }

  /** `canRedo()`; with an empty history `|history| - 1` is `-1`. */
  predicate CanRedo(s: HistoryState) {
    s.index < |s.history| - 1
  }

  /** The payload for a canvas holding `objects`: its serialization and the size of the first
      object named `WorkspaceName`, or 0 by 0 when there is none. */
  function Payload(lib: Library, objects: seq<CanvasObject>): (p: SavePayload)
    ensures p.json == lib.serialize(objects)
    ensures forall i :: IsFirstNamed(objects, i, WorkspaceName) ==>
      p.width == objects[i].width && p.height == objects[i].height
    ensures (forall i :: 0 <= i < |objects| ==> objects[i].name != WorkspaceName) ==>
      p.width == 0 && p.height == 0
  {
    var workspace := FindByName(objects, WorkspaceName);
    SavePayload(
      lib.serialize(objects),
      if workspace.Some? then objects[workspace.value].width else 0,
      if workspace.Some? then objects[workspace.value].height else 0)
  }

  /** `saveHistory(skip)`. */
  function Save(lib: Library, s: HistoryState, skip: bool): (r: SaveOutcome)
    ensures Valid(s) ==> Valid(r.state)
    ensures r.sent.Some? <==> s.canvas.Some?
    ensures s.history <= r.state.history && |r.state.history| <= |s.history| + 1
    ensures r.state.skip == s.skip && r.state.pending == s.pending && r.state.canvas == s.canvas
  {
    match s.canvas
    case None => SaveOutcome(s, None)
    case Some(objects) =>
      var json := lib.serialize(objects);
      var next := if !skip && !s.skip then s.(history := s.history + [json], index := |s.history|) else s;
      SaveOutcome(next, Some(Payload(lib, objects)))
  }

  /** The first phase of `undo()`: suppress saving, clear the canvas and start loading the
      previous snapshot. The cursor does not move yet. */
  function BeginUndo(s: HistoryState): (r: HistoryState)
    requires Valid(s)
    ensures Valid(r)
    ensures r.history == s.history && r.index == s.index
    ensures s.pending <= r.pending && |r.pending| <= |s.pending| + 1
  {
    if CanUndo(s) && s.canvas.Some? then
      var previousIndex := s.index - 1;
      s.(skip := true, canvas := Some([]),
         pending := s.pending + [PendingLoad(previousIndex, s.history[previousIndex])])
    else s
  }

  /** The first phase of `redo()`: as `BeginUndo`, towards the next snapshot. */
  function BeginRedo(s: HistoryState): (r: HistoryState)
    requires Valid(s)
    ensures Valid(r)
    ensures r.history == s.history && r.index == s.index
    ensures s.pending <= r.pending && |r.pending| <= |s.pending| + 1
  {
    if CanRedo(s) && s.canvas.Some? then
      var nextIndex := s.index + 1;
      s.(skip := true, canvas := Some([]),
         pending := s.pending + [PendingLoad(nextIndex, s.history[nextIndex])])
    else s
  }

  /** The completion callback of the `k`-th load in flight: the canvas now holds the loaded
      snapshot, the cursor moves to the load's target and saving is no longer suppressed. */
  function CompleteLoad(lib: Library, s: HistoryState, k: nat): (r: HistoryState)
    requires Valid(s) && k < |s.pending|
    ensures Valid(r)
    ensures r.history == s.history && !r.skip
    ensures r.index == s.pending[k].target && r.canvas.Some?
    ensures LoadThenSerialize(lib) ==> lib.serialize(r.canvas.value) == s.history[r.index]
    ensures |r.pending| == |s.pending| - 1
    ensures multiset(r.pending) == multiset(s.pending) - multiset{s.pending[k]}
  {
    var load := s.pending[k];
    var rest := s.pending[..k] + s.pending[k + 1..];
    assert s.pending == s.pending[..k] + [load] + s.pending[k + 1..];
    s.(canvas := Some(lib.load(load.json)), index := load.target, skip := false, pending := rest)
  }

  /** What can happen to a session: a save (the editor calls `saveHistory` on every canvas
      change), an undo or redo request, the completion of the `k`-th load in flight, or the
      canvas changing under the hook (the user's edits, or the canvas being created). */
  datatype HistoryEvent =
    | Saved(skip: bool)
    | Undone
    | Redone
    | Loaded(k: nat)
    | CanvasChanged(canvas: Option<seq<CanvasObject>>)

  function Step(lib: Library, s: HistoryState, e: HistoryEvent): (r: HistoryState)
    requires Valid(s)
    ensures Valid(r)
  {
    match e
    case Saved(skip) => Save(lib, s, skip).state
    case Undone => BeginUndo(s)
    case Redone => BeginRedo(s)
    case Loaded(k) => if k < |s.pending| then CompleteLoad(lib, s, k) else s
    case CanvasChanged(c) => s.(canvas := c)
  }

  /** The state after `events`, in order. */
  function Run(lib: Library, s: HistoryState, events: seq<HistoryEvent>): (r: HistoryState)
    requires Valid(s)
    ensures Valid(r)
    decreases |events|
  {
    if events == [] then s else Run(lib, Step(lib, s, events[0]), events[1..])
  }
}
