# Canvas editor: undo/redo history and active-tool state, in Dafny

This project models two small state machines of a browser-based canvas design editor and
proves their properties.

- **The undo/redo history** of the `useHistory` hook. It keeps a growing list of serialized
  canvas snapshots, a cursor into that list, and a flag that suppresses recording. `saveHistory`
  appends the canvas's current serialization and moves the cursor to it, unless the call is
  skipped or recording is suppressed. Either way it hands `{json, width, height}` to the save
  callback. The width and height come from the first canvas object named `clip`, or are 0.
  `undo` and `redo` work in two phases. The first phase sets suppression, clears the canvas
  and starts loading the neighbouring snapshot. The library's completion callback then moves
  the cursor and lifts the suppression.
- **The active-tool state** of the editor component. Choosing a tool makes it active, and
  choosing the active tool again falls back to `select`. Choosing `draw` turns drawing mode on,
  and any choice made while `draw` is active turns it off. Losing the selection drops a
  selection-dependent tool back to `select`.

Layout:

- `wrappers.dfy`: module `Wrappers`, the `Option` type.
- `active_tools.dfy`: module `ActiveTools`, the `ActiveTool` union and the selection-dependent
  tools.
- `tool_switching.dfy`: module `ToolSwitching`. It holds the tool transitions as functions over a
  `ToolStatus` value, lemmas about them and about any sequence of events, and class `Editor`
  with fields `activeTool` and `drawingMode`. The class's methods are proved equal to the
  functions.
- `canvas_model.dfy`: module `CanvasModel`. Canvas objects are `(name, width, height)`, and
  the workspace name is `"clip"`. The library is a `Library` value holding two functions,
  `serialize` and `load`. `FindByName` models `objects.find(...)`.
- `undo_history.dfy`: module `UndoHistory`. The hook's state is a `HistoryState` value, and
  `Valid` is its invariant. There is one function per operation phase (`Save`, `BeginUndo`,
  `BeginRedo`, `CompleteLoad`), plus `Step`/`Run` over a sequence of events.
- `history_hook.dfy`: module `HistoryHook`, class `HistoryManager`. It has fields `history`,
  `index`, `skip`, `pending` and `canvas`, and each method is proved equal to its function in
  `UndoHistory`.
- `history_properties.dfy`: module `HistoryProperties`, the lemmas about the history.

The canvas library cannot be seen from this code. It enters the model only through
`Library.serialize`, `Library.load`, and `clear()`, which leaves no objects on the canvas.
The fact that loading a snapshot makes the canvas serialize back to that snapshot is the
predicate `CanvasModel.LoadThenSerialize`. Contracts that speak about what the canvas shows
take it as a hypothesis: the left side of an implication in an `ensures`, or a `requires` of
the scenario lemma. It is not assumed anywhere else.

Three behaviours of the code differ from a textbook linear undo stack, and the model keeps them:

- A recording save never truncates entries after the cursor. It always appends, so redo entries
  survive a new edit made after an undo (`HistoryProperties.SaveAppendsCurrentSnapshot`).
- The cursor moves only inside the load's completion callback, so while a load runs it still
  points at the entry that was current before.
  `UndoHistory.BeginUndo` leaves `index` alone and `UndoHistory.CompleteLoad` sets it.
- A second `undo`/`redo` is not refused while a load is in flight. The model therefore keeps
  a sequence of pending loads, and any one of them may complete next. The first completion
  lifts suppression even if another load is still in flight. `OverlappingLoadsLetSaveAppend`
  exhibits a save that appends in that window.

## Model

| member | source | states |
|---|---|---|
| `ActiveTools.SelectionIndependentTools` | src/features/editor/constants.ts:11-19 | a tool is not selection-dependent iff it is one of select, shapes, text, images, draw, settings, ai, templates (so `draw` and `select` survive a clear) |
| `ToolSwitching.ChangeActiveToolEffect` | src/features/editor/components/editor.tsx:83-100 | re-choosing the active tool gives `select`; choosing another tool makes it active; choosing `draw` from another tool turns drawing on; any choice made while `draw` is active turns it off; otherwise drawing mode is unchanged |
| `ToolSwitching.RechoosingDrawLeavesIt` | src/features/editor/components/editor.tsx:85-95 | choosing `draw` while `draw` is active ends with tool `select` and drawing off |
| `ToolSwitching.ClearSelectionEffect` | src/features/editor/components/editor.tsx:50-54 | clearing the selection changes the tool iff it is selection-dependent, and then only to `select`; drawing mode is untouched |
| `ToolSwitching.ApplyKeepsDrawingMatchesTool` | src/features/editor/components/editor.tsx:83-100 | a tool change or a selection clear preserves "drawing mode on iff tool is draw" |
| `ToolSwitching.ReplayKeepsDrawingMatchesTool` | src/features/editor/components/editor.tsx:83-100 | every sequence of tool changes and selection clears preserves "drawing mode on iff tool is draw" |
| `ToolSwitching.DrawingOnExactlyWhileDrawActive` | src/features/editor/components/editor.tsx:37 | starting from the initial `select` with drawing off, after any sequence of events drawing mode is on iff the active tool is `draw` |
| `ToolSwitching.Editor.constructor` | src/features/editor/components/editor.tsx:37 | the editor starts on `select` with drawing mode off |
| `ToolSwitching.Editor.OnChangeActiveTool` | src/features/editor/components/editor.tsx:83-100 | the new tool and drawing mode are `ChangeActiveTool` of the old ones, and the drawing/tool invariant is kept |
| `ToolSwitching.Editor.OnClearSelection` | src/features/editor/components/editor.tsx:50-54 | the new tool is `ClearSelection` of the old one, and the drawing/tool invariant is kept |
| `CanvasModel.FindByName` | src/features/editor/hooks/useHistory.ts:36-38 | the result is the position of the first object with the given name, or none when no object has that name |
| `UndoHistory.Payload` | src/features/editor/hooks/useHistory.ts:36-42 | the payload's json is the canvas serialization; width and height are those of the first object named `clip`, or 0 when there is none |
| `UndoHistory.Save` | src/features/editor/hooks/useHistory.ts:24-45 | keeps the invariant; the callback is called iff there is a canvas; the old history is a prefix of the new one and grows by at most one; suppression, pending loads and canvas are unchanged |
| `UndoHistory.BeginUndo` | src/features/editor/hooks/useHistory.ts:47-52 | keeps the invariant; moves neither the history nor the cursor; adds at most one pending load |
| `UndoHistory.BeginRedo` | src/features/editor/hooks/useHistory.ts:61-66 | keeps the invariant; moves neither the history nor the cursor; adds at most one pending load |
| `UndoHistory.CompleteLoad` | src/features/editor/hooks/useHistory.ts:53-57 | keeps the invariant; history unchanged; suppression off; cursor at the load's target; given load-then-serialize, the canvas serializes to the snapshot at the new cursor; exactly that load leaves the pending set |
| `UndoHistory.Step` | src/features/editor/hooks/useHistory.ts:11-84 | every operation of the hook, and a change of canvas, preserves `0 <= index <= max(0, length of history - 1)` and the pending-load invariant |
| `UndoHistory.Run` | src/features/editor/hooks/useHistory.ts:11-84 | any sequence of operations preserves the invariant |
| `HistoryHook.HistoryManager.constructor` | src/features/editor/hooks/useHistory.ts:12-14 | a session starts with empty history, cursor 0, suppression off and no load in flight |
| `HistoryHook.HistoryManager.SaveHistory` | src/features/editor/hooks/useHistory.ts:24-45 | new state and the payload sent are exactly `UndoHistory.Save` of the old state |
| `HistoryHook.HistoryManager.SetCanvas` | src/features/editor/hooks/useHistory.ts:7 | only the canvas changes, to the given one; the invariant is kept |
| `HistoryHook.HistoryManager.BeginUndo` | src/features/editor/hooks/useHistory.ts:47-59 | new state is `UndoHistory.BeginUndo` of the old state |
| `HistoryHook.HistoryManager.BeginRedo` | src/features/editor/hooks/useHistory.ts:61-73 | new state is `UndoHistory.BeginRedo` of the old state |
| `HistoryHook.HistoryManager.CompleteLoad` | src/features/editor/hooks/useHistory.ts:53-57 | new state is `UndoHistory.CompleteLoad` of the old state |
| `HistoryProperties.UndoRedoAvailability` | src/features/editor/hooks/useHistory.ts:16-22 | `canUndo` is false iff the cursor is 0; `canRedo` is false iff the history is empty or the cursor is on the last entry; both are false iff there is at most one snapshot; when true, the neighbouring entry exists |
| `HistoryProperties.SaveAppendsCurrentSnapshot` | src/features/editor/hooks/useHistory.ts:28-34 | a save that is neither skipped nor suppressed appends exactly the current serialization, keeps every older entry (no truncation) and puts the cursor on the new last entry |
| `HistoryProperties.SuppressedSaveOnlyReports` | src/features/editor/hooks/useHistory.ts:31-42 | a skipped or suppressed save leaves the whole state unchanged but still sends one payload carrying the current serialization |
| `HistoryProperties.SaveWithoutCanvas` | src/features/editor/hooks/useHistory.ts:26 | with no canvas, `saveHistory` changes nothing and calls no callback |
| `HistoryProperties.UndoLoadsPrevious` | src/features/editor/hooks/useHistory.ts:47-59 | an available undo first suppresses saving, clears the canvas and starts loading `history[index-1]` with the cursor still in place; on completion the cursor is `index-1`, suppression is off, the history is unchanged and the canvas shows that snapshot |
| `HistoryProperties.RedoLoadsNext` | src/features/editor/hooks/useHistory.ts:61-73 | the same for redo with `history[index+1]` and cursor `index+1` |
| `HistoryProperties.UnavailableUndoRedoAreNoOps` | src/features/editor/hooks/useHistory.ts:47-73 | undo (redo) with its guard false or without a canvas leaves the state unchanged |
| `HistoryProperties.UndoThenRedoRestores` | src/features/editor/hooks/useHistory.ts:47-73 | a completed undo then a completed redo restore cursor, history and in-flight loads, and the canvas shows the snapshot at the original cursor |
| `HistoryProperties.RedoThenUndoRestores` | src/features/editor/hooks/useHistory.ts:47-73 | a completed redo then a completed undo do the same |
| `HistoryProperties.RunNeverTruncates` | src/features/editor/hooks/useHistory.ts:32 | under any sequence of events the old history stays a prefix of the new one |
| `HistoryProperties.SuppressedSavesKeepHistory` | src/features/editor/hooks/useHistory.ts:31 | while suppression is on and no load completes, any saves, canvas changes and further undo/redo requests leave history and cursor unchanged, keep suppression on and only add loads in flight |
| `HistoryProperties.UndoSuppressesSavesUntilLoaded` | src/features/editor/hooks/useHistory.ts:49 | after an undo starts and before any load completes, whatever saves, edits and further undo/redo requests happen, history and cursor are unchanged |
| `HistoryProperties.RedoSuppressesSavesUntilLoaded` | src/features/editor/hooks/useHistory.ts:63 | the same after a redo starts |
| `HistoryProperties.OverlappingLoadsLetSaveAppend` | src/features/editor/hooks/useHistory.ts:47-59 | two undos started back to back, then one completion and then a save: the save appends although a load is still in flight |
| `HistoryProperties.RecordingSavesAppendOneEach` | src/features/editor/hooks/useHistory.ts:31-34 | with no undo or redo, each recording save adds exactly one entry after the existing ones and leaves the cursor on the newest |
| `HistoryProperties.SavesFromEmptySession` | src/features/editor/hooks/useHistory.ts:12-14 | from a fresh session, N recording saves give N entries with the cursor at N-1 |
| `HistoryProperties.ThreeSavesUndoRedoScenario` | src/features/editor/hooks/useHistory.ts:24-73 | saving A, B, C then undo, undo, a third undo and redo gives cursors 2, 1, 0, 0, 1 with the canvas showing B, A, B; the third undo does nothing |

## Left out

- `setHistoryIndex`, which the hook also exposes (useHistory.ts:79): it writes an arbitrary cursor and belongs to the React state API, not to the history's logic.
- The `canvasHistory` ref that the hook also returns (useHistory.ts:80): callers could overwrite the list through it. The model takes the list to change only through `saveHistory`.
- React mechanics: `useRef`/`useState`/`useCallback` memoization and closures of an outdated `historyIndex` across re-renders. The model reads one current state.
- `renderAll()`: it only redraws and changes no state that the model observes.
- The library's `toJSON`, `JSON.stringify`, `JSON.parse`, `loadFromJSON` and `clear`: they stand behind `Library.serialize`, `Library.load` and "no objects". A malformed snapshot, which would make `JSON.parse` throw, cannot arise in the model because every entry comes from `serialize`; this needs the ref above to be left alone.
- The canvas while a load is under way: a completion is one atomic step. Saves that the library's own object events trigger during loading fall inside the suppressed window and leave the history alone (`SuppressedSaveOnlyReports`) as long as no earlier overlapping load has completed; after that they append (`OverlappingLoadsLetSaveAppend`). The partial snapshots such a save would record while a second load is still building the canvas are not modelled: the model records whatever canvas it is given at that moment.
- `Library.load` and `LoadThenSerialize` are stated over all strings, not only over snapshots the library produced.
- Object sizes are integers. Floating-point sizes and a `NaN` width, which `|| 0` would also map to 0, are not modelled.
- The save callback is optional in the source. The model returns the payload that a present callback receives.
- The 500 ms debounce of the autosave, the `mutate` network call, and canvas creation and disposal in `useEffect`: these are a timer library, the network and component lifecycle.
- The JSX tree and sidebars in editor.tsx, the subscription dialog, the environment-variable types, the visual constants (shapes, fonts, colours, filters, `HISTORY_JSON_KEYS`) and the `BuildEditor` signature: they have no behaviour of their own here.
- `editor` is taken to be present in `onChangeActiveTool`. The calls on it are optional-chained, and with no editor nothing but the tool would change.
- HistoryProperties.UndoSuppressesSavesUntilLoaded: it holds only until the first load completes. Because overlapping undo/redo calls are not refused, suppression is not guaranteed for the whole time some load is in flight (`OverlappingLoadsLetSaveAppend`).
- HistoryProperties.RedoSuppressesSavesUntilLoaded: the same limitation as for undo.
