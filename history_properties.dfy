/** What the undo/redo history promises, proved about the functions of `UndoHistory`. */
module HistoryProperties {
  import opened Wrappers
  import opened CanvasModel
  import opened UndoHistory

  /** Both guards read the cursor only; in a valid state each one guarantees that the
      neighbouring snapshot exists, and both are false while there is at most one snapshot. */
  lemma UndoRedoAvailability(s: HistoryState)
    requires Valid(s)
    ensures CanUndo(s) ==> 0 <= s.index - 1 < |s.history|
    ensures CanRedo(s) ==> s.index + 1 < |s.history|
    ensures !CanUndo(s) <==> s.index == 0
    ensures !CanRedo(s) <==> (s.history == [] || s.index == |s.history| - 1)
    ensures (!CanUndo(s) && !CanRedo(s)) <==> |s.history| <= 1
  {
  }

  /** A save that is neither skipped nor suppressed appends exactly the canvas's current
      serialization, moves the cursor to it and keeps every older entry, including entries
      after the old cursor. */
  lemma SaveAppendsCurrentSnapshot(lib: Library, s: HistoryState)
    requires s.canvas.Some? && !s.skip
    ensures var r := Save(lib, s, false);
      && r.state.history == s.history + [lib.serialize(s.canvas.value)]
      && r.state.index == |r.state.history| - 1
      && r.sent == Some(Payload(lib, s.canvas.value))
  {
  }

  /** A skipped or suppressed save leaves the whole state alone but still reports the
      canvas's serialization once. */
  lemma SuppressedSaveOnlyReports(lib: Library, s: HistoryState, skip: bool)
    requires s.canvas.Some? && (skip || s.skip)
    ensures Save(lib, s, skip).state == s
    ensures Save(lib, s, skip).sent == Some(Payload(lib, s.canvas.value))
  {
  }

  /** Without a canvas `saveHistory` neither records nor reports anything. */
  lemma SaveWithoutCanvas(lib: Library, s: HistoryState, skip: bool)
    requires s.canvas.None?
    ensures Save(lib, s, skip) == SaveOutcome(s, None)
  {
  }

  /** Removing the last element of `xs + [x]` gives back `xs`. */
  lemma DropLast<T>(xs: seq<T>, x: T)
    ensures var ys := xs + [x]; ys[..|xs|] + ys[|xs| + 1..] == xs
  {
    var ys := xs + [x];
    assert ys[..|xs|] == xs;
    assert ys[|xs| + 1..] == [];
  }

  /** `undo()` when it is available: the first phase suppresses saving, clears the canvas and
      starts loading the previous snapshot without moving the cursor; its completion moves the
      cursor one step back, lifts the suppression and shows that snapshot. The history itself
      is never modified. */
  lemma UndoLoadsPrevious(lib: Library, s: HistoryState)
    requires Valid(s) && CanUndo(s) && s.canvas.Some?
    ensures var b := BeginUndo(s);
      && b.skip && b.canvas == Some([]) && b.index == s.index && b.history == s.history
      && b.pending == s.pending + [PendingLoad(s.index - 1, s.history[s.index - 1])]
    ensures var c := CompleteLoad(lib, BeginUndo(s), |s.pending|);
      && c.index == s.index - 1 && c.history == s.history && !c.skip && c.pending == s.pending
      && (LoadThenSerialize(lib) ==> lib.serialize(c.canvas.value) == s.history[s.index - 1])
  {
    DropLast(s.pending, PendingLoad(s.index - 1, s.history[s.index - 1]));
  }

  /** `redo()` when it is available: as `undo()`, one step forward. */
  lemma RedoLoadsNext(lib: Library, s: HistoryState)
    requires Valid(s) && CanRedo(s) && s.canvas.Some?
    ensures var b := BeginRedo(s);
      && b.skip && b.canvas == Some([]) && b.index == s.index && b.history == s.history
      && b.pending == s.pending + [PendingLoad(s.index + 1, s.history[s.index + 1])]
    ensures var c := CompleteLoad(lib, BeginRedo(s), |s.pending|);
      && c.index == s.index + 1 && c.history == s.history && !c.skip && c.pending == s.pending
      && (LoadThenSerialize(lib) ==> lib.serialize(c.canvas.value) == s.history[s.index + 1])
  {
    DropLast(s.pending, PendingLoad(s.index + 1, s.history[s.index + 1]));
  }

  /** `undo()` and `redo()` do nothing when their guard is false or there is no canvas. */
  lemma UnavailableUndoRedoAreNoOps(s: HistoryState)
    requires Valid(s)
    ensures !(CanUndo(s) && s.canvas.Some?) ==> BeginUndo(s) == s
    ensures !(CanRedo(s) && s.canvas.Some?) ==> BeginRedo(s) == s
  {
  }

  /** A completed undo followed by a completed redo restores the cursor, the history and the
      loads that were in flight, and the canvas shows the snapshot at the restored cursor. */
  lemma UndoThenRedoRestores(lib: Library, s: HistoryState)
    requires Valid(s) && CanUndo(s) && s.canvas.Some?
    ensures var u := CompleteLoad(lib, BeginUndo(s), |s.pending|);
      CanRedo(u) && u.canvas.Some? &&
      var r := CompleteLoad(lib, BeginRedo(u), |u.pending|);
      && r.index == s.index && r.history == s.history && r.pending == s.pending && !r.skip
      && (LoadThenSerialize(lib) ==> lib.serialize(r.canvas.value) == s.history[s.index])
  {
    UndoLoadsPrevious(lib, s);
    var u := CompleteLoad(lib, BeginUndo(s), |s.pending|);
    RedoLoadsNext(lib, u);
  }

  /** A completed redo followed by a completed undo restores the cursor in the same way. */
  lemma RedoThenUndoRestores(lib: Library, s: HistoryState)
    requires Valid(s) && CanRedo(s) && s.canvas.Some?
    ensures var u := CompleteLoad(lib, BeginRedo(s), |s.pending|);
      CanUndo(u) && u.canvas.Some? &&
      var r := CompleteLoad(lib, BeginUndo(u), |u.pending|);
      && r.index == s.index && r.history == s.history && r.pending == s.pending && !r.skip
      && (LoadThenSerialize(lib) ==> lib.serialize(r.canvas.value) == s.history[s.index])
  {
    RedoLoadsNext(lib, s);
    var u := CompleteLoad(lib, BeginRedo(s), |s.pending|);
    UndoLoadsPrevious(lib, u);
  }

  /** No sequence of events removes or rewrites a recorded snapshot. */
  lemma {:induction false} RunNeverTruncates(lib: Library, s: HistoryState, events: seq<HistoryEvent>)
    requires Valid(s)
    ensures s.history <= Run(lib, s, events).history
    decreases |events|
  {
    if events != [] {
      var t := Step(lib, s, events[0]);
      assert s.history <= t.history;
      RunNeverTruncates(lib, t, events[1..]);
    }
  }

  /** Events among which no load completes: saves, canvas changes and further undo or redo
      requests. */
  predicate NoLoadCompletes(events: seq<HistoryEvent>) {
    forall i :: 0 <= i < |events| ==> !events[i].Loaded?
  }

  /** While saving is suppressed and no load completes, nothing touches the history or the
      cursor, the suppression stays on and loads in flight are only ever added. */
  lemma {:induction false} SuppressedSavesKeepHistory(lib: Library, s: HistoryState, events: seq<HistoryEvent>)
    requires Valid(s) && s.skip && NoLoadCompletes(events)
    ensures var r := Run(lib, s, events);
      r.history == s.history && r.index == s.index && r.skip && s.pending <= r.pending
    decreases |events|
  {
    if events != [] {
      var t := Step(lib, s, events[0]);
      assert t.history == s.history && t.index == s.index && t.skip && s.pending <= t.pending;
      assert NoLoadCompletes(events[1..]) by {
        forall i | 0 <= i < |events[1..]|
          ensures !events[1..][i].Loaded?
        {
          assert events[1..][i] == events[i + 1];
        }
      }
      SuppressedSavesKeepHistory(lib, t, events[1..]);
    }
  }

  /** From the start of an undo until some load completes, whatever saves, edits and further
      undo or redo requests happen, the history and the cursor stay as they were. */
  lemma UndoSuppressesSavesUntilLoaded(lib: Library, s: HistoryState, events: seq<HistoryEvent>)
    requires Valid(s) && CanUndo(s) && s.canvas.Some? && NoLoadCompletes(events)
    ensures Run(lib, BeginUndo(s), events).history == s.history
    ensures Run(lib, BeginUndo(s), events).index == s.index
  {
    SuppressedSavesKeepHistory(lib, BeginUndo(s), events);
  }

  /** The same for redo. */
  lemma RedoSuppressesSavesUntilLoaded(lib: Library, s: HistoryState, events: seq<HistoryEvent>)
    requires Valid(s) && CanRedo(s) && s.canvas.Some? && NoLoadCompletes(events)
    ensures Run(lib, BeginRedo(s), events).history == s.history
    ensures Run(lib, BeginRedo(s), events).index == s.index
  {
    SuppressedSavesKeepHistory(lib, BeginRedo(s), events);
  }

  /** Nothing stops a second undo while the first one's load is in flight; the first completion
      then lifts the suppression although the second load is still in flight, and a save in that
      window appends to the history. */
  lemma OverlappingLoadsLetSaveAppend(lib: Library, a: Snapshot, b: Snapshot, objects: seq<CanvasObject>)
    ensures var s := HistoryState([a, b], 1, false, [], Some(objects));
      Valid(s) &&
      var r := Run(lib, s, [Undone, Undone, Loaded(0), Saved(false)]);
      |r.pending| == 1 && |r.history| == 3
  {
    var s := HistoryState([a, b], 1, false, [], Some(objects));
    var s1 := Step(lib, s, Undone);
    var s2 := Step(lib, s1, Undone);
    assert |s2.pending| == 2;
    var s3 := Step(lib, s2, Loaded(0));
    assert |s3.pending| == 1 && !s3.skip && s3.canvas.Some?;
    var s4 := Step(lib, s3, Saved(false));
    assert |s4.history| == 3;
    assert Run(lib, s3, [Saved(false)]) == s4;
    assert [Undone, Undone, Loaded(0), Saved(false)][1..] == [Undone, Loaded(0), Saved(false)];
    assert [Undone, Loaded(0), Saved(false)][1..] == [Loaded(0), Saved(false)];
    assert [Loaded(0), Saved(false)][1..] == [Saved(false)];
  }

  /** Saves that are neither skipped nor suppressed, interleaved with edits that keep a canvas. */
  predicate OnlyRecordingSaves(events: seq<HistoryEvent>) {
    forall i :: 0 <= i < |events| ==>
      events[i] == Saved(false) || (events[i].CanvasChanged? && events[i].canvas.Some?)
  }

  /** The number of saves among `events`. */
  function SaveCount(events: seq<HistoryEvent>): nat
    decreases |events|
  {
    if events == [] then 0 else (if events[0].Saved? then 1 else 0) + SaveCount(events[1..])
  }

  /** Without undo or redo, each save adds one entry after the existing ones, and afterwards the
      cursor is on the newest entry. */
  lemma {:induction false} RecordingSavesAppendOneEach(lib: Library, s: HistoryState, events: seq<HistoryEvent>)
    requires Valid(s) && !s.skip && s.canvas.Some? && OnlyRecordingSaves(events)
    ensures var r := Run(lib, s, events);
      && s.history <= r.history
      && |r.history| == |s.history| + SaveCount(events)
      && (SaveCount(events) > 0 ==> r.index == |r.history| - 1)
      && (SaveCount(events) == 0 ==> r.index == s.index)
    decreases |events|
  {
    if events != [] {
      var t := Step(lib, s, events[0]);
      assert !t.skip && t.canvas.Some?;
      assert |t.history| == |s.history| + (if events[0].Saved? then 1 else 0);
      assert events[0].Saved? ==> t.index == |t.history| - 1;
      assert OnlyRecordingSaves(events[1..]) by {
        forall i | 0 <= i < |events[1..]|
          ensures events[1..][i] == Saved(false) ||
            (events[1..][i].CanvasChanged? && events[1..][i].canvas.Some?)
        {
          assert events[1..][i] == events[i + 1];
        }
      }
      RecordingSavesAppendOneEach(lib, t, events[1..]);
    }
  }

  /** From a fresh session, N recording saves give N entries with the cursor on the last. */
  lemma SavesFromEmptySession(lib: Library, objects: seq<CanvasObject>, events: seq<HistoryEvent>)
    requires OnlyRecordingSaves(events) && SaveCount(events) > 0
    ensures var r := Run(lib, Init(Some(objects)), events);
      |r.history| == SaveCount(events) && r.index == SaveCount(events) - 1
  {
    RecordingSavesAppendOneEach(lib, Init(Some(objects)), events);
  }

  /** Three saves of canvases A, B and C, then undo, undo, a third undo that does nothing, and
      redo: the cursor goes 2, 1, 0, 0, 1 and the canvas shows B, A and B again. */
  lemma ThreeSavesUndoRedoScenario(lib: Library, a: seq<CanvasObject>, b: seq<CanvasObject>, c: seq<CanvasObject>)
    requires LoadThenSerialize(lib)
    ensures var s0 := Init(Some(a));
      var s3 := Run(lib, s0, [Saved(false), CanvasChanged(Some(b)), Saved(false), CanvasChanged(Some(c)), Saved(false)]);
      && s3.index == 2 && s3.pending == [] && s3.canvas == Some(c)
      && s3.history == [lib.serialize(a), lib.serialize(b), lib.serialize(c)]
      && var u1 := CompleteLoad(lib, BeginUndo(s3), 0);
      && u1.index == 1 && lib.serialize(u1.canvas.value) == lib.serialize(b)
      && var u2 := CompleteLoad(lib, BeginUndo(u1), 0);
      && u2.index == 0 && lib.serialize(u2.canvas.value) == lib.serialize(a)
      && BeginUndo(u2) == u2
      && var r := CompleteLoad(lib, BeginRedo(u2), 0);
      && r.index == 1 && lib.serialize(r.canvas.value) == lib.serialize(b)
      && r.history == s3.history
  {
    var s0 := Init(Some(a));
    var events := [Saved(false), CanvasChanged(Some(b)), Saved(false), CanvasChanged(Some(c)), Saved(false)];
    var t1 := Step(lib, s0, events[0]);
    var t2 := Step(lib, t1, events[1]);
    var t3 := Step(lib, t2, events[2]);
    var t4 := Step(lib, t3, events[3]);
    var s3 := Step(lib, t4, events[4]);
    assert Run(lib, t4, events[4..]) == s3;
    assert Run(lib, t3, events[3..]) == s3 by { assert events[3..][1..] == events[4..]; }
    assert Run(lib, t2, events[2..]) == s3 by { assert events[2..][1..] == events[3..]; }
    assert Run(lib, t1, events[1..]) == s3 by { assert events[1..][1..] == events[2..]; }
    assert Run(lib, s0, events) == s3;
    UndoLoadsPrevious(lib, s3);
    var u1 := CompleteLoad(lib, BeginUndo(s3), 0);
    UndoLoadsPrevious(lib, u1);
    var u2 := CompleteLoad(lib, BeginUndo(u1), 0);
    RedoLoadsNext(lib, u2);
  }
}
