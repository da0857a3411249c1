/** The editor's active-tool state and the drawing mode it drives. */
module ToolSwitching {
  import opened ActiveTools

  /** The active tool together with whether the editor is in free-drawing mode. */
  datatype ToolStatus = ToolStatus(tool: ActiveTool, drawing: bool)

  /** The editor starts on `Select`, with the canvas not in drawing mode. */
  const Initial: ToolStatus := ToolStatus(Select, false)

  /** The invariant the editor means to keep: drawing mode is on exactly while `Draw` is active. */
  predicate DrawingMatchesTool(s: ToolStatus) {
    s.drawing <==> s.tool == Draw
  }

  /** `onChangeActiveTool(chosen)`: enable drawing when choosing `Draw`, then disable it when
      leaving (or re-choosing) `Draw`; re-choosing the active tool falls back to `Select`. */
  function ChangeActiveTool(s: ToolStatus, chosen: ActiveTool): ToolStatus {
    var afterEnable := if chosen == Draw then true else s.drawing;
    var afterDisable := if s.tool == Draw then false else afterEnable;
    ToolStatus(if chosen == s.tool then Select else chosen, afterDisable)
  }

  /** `onClearSelection()`: a selection-dependent tool falls back to `Select`. */
  function ClearSelection(s: ToolStatus): ToolStatus {
    if IsSelectionDependent(s.tool) then s.(tool := Select) else s
  }

  /** What `onChangeActiveTool` promises about the tool and about drawing mode. */
  lemma ChangeActiveToolEffect(s: ToolStatus, chosen: ActiveTool)
    ensures chosen == s.tool ==> ChangeActiveTool(s, chosen).tool == Select
    ensures chosen != s.tool ==> ChangeActiveTool(s, chosen).tool == chosen
    ensures s.tool != Draw && chosen == Draw ==> ChangeActiveTool(s, chosen).drawing
    ensures s.tool == Draw ==> !ChangeActiveTool(s, chosen).drawing
    ensures s.tool != Draw && chosen != Draw ==> ChangeActiveTool(s, chosen).drawing == s.drawing
  {
  }

  /** Re-choosing `Draw` turns drawing off and returns to `Select`. */
  lemma RechoosingDrawLeavesIt(s: ToolStatus)
    requires s.tool == Draw
    ensures ChangeActiveTool(s, Draw) == ToolStatus(Select, false)
  {
  }

  /** Clearing the selection changes the tool exactly when it is selection-dependent, and then
      to `Select`; it never touches drawing mode. */
  lemma ClearSelectionEffect(s: ToolStatus)
    ensures ClearSelection(s).tool != s.tool <==> IsSelectionDependent(s.tool)
    ensures ClearSelection(s).tool != s.tool ==> ClearSelection(s).tool == Select
    ensures ClearSelection(s).drawing == s.drawing
  {
  }

  /** The events that reach the tool state: a tool chosen in the UI, or the canvas losing its
      selection. */
  datatype ToolEvent = ToolChosen(tool: ActiveTool) | SelectionCleared

  function Apply(s: ToolStatus, e: ToolEvent): ToolStatus {
    match e
    case ToolChosen(t) => ChangeActiveTool(s, t)
    case SelectionCleared => ClearSelection(s)
  }

  /** The state after handling `events` in order, starting from `s`. */
  function Replay(s: ToolStatus, events: seq<ToolEvent>): ToolStatus
    decreases |events|
  {
    if events == [] then s else Replay(Apply(s, events[0]), events[1..])
  }

  /** One event keeps drawing mode in step with the tool; for `SelectionCleared` this rests
      on `Draw` not being selection-dependent. */
  lemma ApplyKeepsDrawingMatchesTool(s: ToolStatus, e: ToolEvent)
    requires DrawingMatchesTool(s)
    ensures DrawingMatchesTool(Apply(s, e))
  {
    SelectionIndependentTools(Draw);
  }

  /** Any sequence of tool changes and selection clears keeps drawing mode in step with the tool. */
  lemma {:induction false} ReplayKeepsDrawingMatchesTool(s: ToolStatus, events: seq<ToolEvent>)
    requires DrawingMatchesTool(s)
    ensures DrawingMatchesTool(Replay(s, events))
    decreases |events|
  {
    if events != [] {
      ApplyKeepsDrawingMatchesTool(s, events[0]);
      ReplayKeepsDrawingMatchesTool(Apply(s, events[0]), events[1..]);
    }
  }

  /** From the editor's initial state, drawing mode is on iff `Draw` is the active tool. */
  lemma DrawingOnExactlyWhileDrawActive(events: seq<ToolEvent>)
    ensures Replay(Initial, events).drawing <==> Replay(Initial, events).tool == Draw
  {
    ReplayKeepsDrawingMatchesTool(Initial, events);
  }

  /** The `activeTool` state of the editor component and the canvas's drawing mode. */
  class Editor {
    var activeTool: ActiveTool
    var drawingMode: bool

    function Status(): ToolStatus
      reads this
    {
      ToolStatus(activeTool, drawingMode)
    }

    constructor ()
      ensures Status() == Initial && DrawingMatchesTool(Status())
    {
      activeTool := Select;
      drawingMode := false;
    }

    method OnChangeActiveTool(tool: ActiveTool)
      modifies this
      ensures Status() == ChangeActiveTool(old(Status()), tool)
      ensures old(DrawingMatchesTool(Status())) ==> DrawingMatchesTool(Status())
    {
      ghost var before := Status();
      var current := activeTool;
      if tool == Draw {
        drawingMode := true;   // editor.enableDrawingMode()
      }
      if current == Draw {
        drawingMode := false;  // editor.disableDrawingMode()
      }
      if tool == current {
        activeTool := Select;
      } else {
        activeTool := tool;
      }
      if DrawingMatchesTool(before) {
        ApplyKeepsDrawingMatchesTool(before, ToolChosen(tool));
      }
    }

    method OnClearSelection()
      modifies this
      ensures Status() == ClearSelection(old(Status()))
      ensures old(DrawingMatchesTool(Status())) ==> DrawingMatchesTool(Status())
    {
      ghost var before := Status();
      if IsSelectionDependent(activeTool) {
        activeTool := Select;
      }
      if DrawingMatchesTool(before) {
        ApplyKeepsDrawingMatchesTool(before, SelectionCleared);
      }
    }
  }
}
