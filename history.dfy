/** The snapshot timeline behind undo and redo (src/components/game/GameBoard.tsx, lines
    97-128): `history` holds earlier states with the newest last, `future` holds undone states
    with the newest first, and `current` sits between them. */
module History {
  datatype Timeline<T> = Timeline(history: seq<T>, current: T, future: seq<T>)

  /** All snapshots in time order: undo and redo only move the cursor along this line. */
  function Line<T>(t: Timeline<T>): seq<T>
  {
    t.history + [t.current] + t.future
  }

  /** `saveToHistory` followed by the new state: the state before the action goes to the end
      of the history and the redo list is dropped. */
  function Committed<T>(t: Timeline<T>, next: T): (r: Timeline<T>)
    ensures Line(r) == t.history + [t.current, next]
    ensures |r.history| == |t.history| + 1 && r.history[|t.history|] == t.current
  {
    Timeline(t.history + [t.current], next, [])
  }

  /** `undo`: nothing without history; otherwise the newest history entry becomes current and
      the old current goes to the front of the redo list. */
  function Undone<T>(t: Timeline<T>): Timeline<T>
  {
    if |t.history| == 0 then t
    else Timeline(t.history[..|t.history| - 1], t.history[|t.history| - 1], [t.current] + t.future)
  }

  /** `redo`: nothing without a redo list; otherwise its head becomes current and the old
      current goes to the end of the history. */
  function Redone<T>(t: Timeline<T>): Timeline<T>
  {
    if |t.future| == 0 then t
    else Timeline(t.history + [t.current], t.future[0], t.future[1..])
  }

  /** Undo and redo never lose or reorder a snapshot: the line stays the same and the cursor
      moves back or forward by one, or not at all at an end. */
  lemma UndoRedoKeepLine<T>(t: Timeline<T>)
    ensures Line(Undone(t)) == Line(t) && Line(Redone(t)) == Line(t)
    ensures |Undone(t).history| == if |t.history| == 0 then 0 else |t.history| - 1
    ensures |Redone(t).history| == if |t.future| == 0 then |t.history| else |t.history| + 1
  {
    if |t.history| > 0 {
      var n := |t.history| - 1;
      assert t.history == t.history[..n] + [t.history[n]];
    }
    if |t.future| > 0 {
      assert t.future == [t.future[0]] + t.future[1..];
    }
  }

  /** A redo right after an undo restores everything. */
  lemma RedoAfterUndo<T>(t: Timeline<T>)
    requires |t.history| > 0
    ensures Redone(Undone(t)) == t
  {
    var n := |t.history| - 1;
    assert t.history[..n] + [t.history[n]] == t.history;
  }

  /** An undo right after a redo restores everything. */
  lemma UndoAfterRedo<T>(t: Timeline<T>)
    requires |t.future| > 0
    ensures Undone(Redone(t)) == t
  {
    assert [t.future[0]] + t.future[1..] == t.future;
  }

  /** An undo right after an action returns to the state before it, with the action's result
      as the only redo. */
  lemma UndoAfterCommit<T>(t: Timeline<T>, next: T)
    ensures Undone(Committed(t, next)) == Timeline(t.history, t.current, [next])
  {
    assert (t.history + [t.current])[..|t.history|] == t.history;
  }

  function UndoneTimes<T>(t: Timeline<T>, k: nat): Timeline<T>
    decreases k
  {
    if k == 0 then t else UndoneTimes(Undone(t), k - 1)
  }

  function RedoneTimes<T>(t: Timeline<T>, k: nat): Timeline<T>
    decreases k
  {
    if k == 0 then t else RedoneTimes(Redone(t), k - 1)
  }

  /** k undos move k snapshots from the history to the redo list, newest first. */
  lemma {:induction false} UndoneTimesShape<T>(t: Timeline<T>, k: nat)
    requires k <= |t.history|
    ensures Line(UndoneTimes(t, k)) == Line(t)
    ensures |UndoneTimes(t, k).history| == |t.history| - k
    ensures |UndoneTimes(t, k).future| == |t.future| + k
    decreases k
  {
    if k > 0 {
      UndoRedoKeepLine(t);
      UndoneTimesShape(Undone(t), k - 1);
    }
  }

  /** As many redos as undos restore the timeline exactly. */
  lemma {:induction false} RedoUndoesUndoTimes<T>(t: Timeline<T>, k: nat)
    requires k <= |t.history|
    ensures RedoneTimes(UndoneTimes(t, k), k) == t
    decreases k
  {
    if k > 0 {
      var u := Undone(t);
      RedoUndoesUndoTimes(u, k - 1);
      RedoneTimesAfter(UndoneTimes(u, k - 1), k - 1);
      RedoAfterUndo(t);
    }
  }

  /** Unfolding `RedoneTimes` from the other end: k + 1 redos are k redos and then one more. */
  lemma {:induction false} RedoneTimesAfter<T>(t: Timeline<T>, k: nat)
    ensures RedoneTimes(t, k + 1) == Redone(RedoneTimes(t, k))
    decreases k
  {
    if k > 0 {
      RedoneTimesAfter(Redone(t), k - 1);
    }
  }
}
