/** The client's bounded undo/redo history: a list of element-list snapshots
    with a cursor into it. Snapshots are taken before a local mutation, and
    the list starts with one empty snapshot. */
module History {
  import opened Canvas

  const MaxHistory := 50

  datatype Timeline = Timeline(snapshots: seq<seq<Element>>, index: int)

  /** The shape every reachable history has. */
  predicate Valid(t: Timeline) {
    1 <= |t.snapshots| <= MaxHistory && 0 <= t.index < |t.snapshots|
  }

  /** `history: [[]]`, `historyIndex: 0`. */
  function Initial(): (t: Timeline)
    ensures Valid(t) && !CanUndo(t) && !CanRedo(t)
  {
    Timeline([[]], 0)
  }

  /** `canUndo`: on a well-formed timeline, false exactly at the oldest
      retained snapshot. */
  predicate CanUndo(t: Timeline)
    ensures Valid(t) ==> (!CanUndo(t) <==> t.index == 0)
  {
    t.index > 0
  }

  /** `canRedo`: on a well-formed timeline, false exactly at the newest
      snapshot. */
  predicate CanRedo(t: Timeline)
    ensures Valid(t) ==> (!CanRedo(t) <==> t.index == |t.snapshots| - 1)
  {
    t.index < |t.snapshots| - 1
  }

  /** `pushToHistory`: drop every snapshot after the cursor, append `els`,
      evict the oldest when more than 50 remain, and point at the new last
      entry. */
  function Push(t: Timeline, els: seq<Element>): (r: Timeline)
    requires Valid(t)
    ensures Valid(r) && !CanRedo(r)
    ensures r.index == |r.snapshots| - 1 && r.snapshots[r.index] == els
    ensures |r.snapshots| == if t.index + 2 <= MaxHistory then t.index + 2 else MaxHistory
    ensures forall k :: 0 <= k < r.index ==> r.snapshots[k] == t.snapshots[t.index + 1 - r.index + k]
  {
    var kept := t.snapshots[..t.index + 1] + [els];
    if |kept| > MaxHistory then Timeline(kept[1..], |kept| - 2)
    else Timeline(kept, |kept| - 1)
  }

  /** `undo`: step the cursor back when it is not at the oldest snapshot. */
  function Undo(t: Timeline): (r: Timeline)
    requires Valid(t)
    ensures Valid(r) && r.snapshots == t.snapshots
  {
    if CanUndo(t) then t.(index := t.index - 1) else t
  }

  /** `redo`: step the cursor forward when it is not at the newest snapshot. */
  function Redo(t: Timeline): (r: Timeline)
    requires Valid(t)
    ensures Valid(r) && r.snapshots == t.snapshots
  {
    if CanRedo(t) then t.(index := t.index + 1) else t
  }

  /** The snapshot the cursor points at: what undo and redo restore. */
  function Current(t: Timeline): seq<Element>
    requires Valid(t)
  {
    t.snapshots[t.index]
  }

  /** `canUndo` and `canRedo` are exactly the conditions under which undo and
      redo change anything. */
  lemma Guards(t: Timeline)
    requires Valid(t)
    ensures CanUndo(t) <==> Undo(t) != t
    ensures CanRedo(t) <==> Redo(t) != t
  {
  }

  /** Undo followed by redo returns the cursor (and so the restored
      snapshot) to where it was, and redo followed by undo likewise. */
  lemma UndoRedoRoundTrip(t: Timeline)
    requires Valid(t)
    ensures CanUndo(t) ==> CanRedo(Undo(t)) && Redo(Undo(t)) == t
    ensures CanRedo(t) ==> CanUndo(Redo(t)) && Undo(Redo(t)) == t
  {
  }

  /** Undo right after a push restores the snapshot that was current before
      the push, not the one the push recorded: the history records states
      before mutations, so one undo goes back past the latest action. */
  lemma UndoAfterPush(t: Timeline, els: seq<Element>)
    requires Valid(t)
    ensures CanUndo(Push(t, els))
    ensures Current(Undo(Push(t, els))) == Current(t)
  {
  }

  /** `n` undos in a row. */
  function Undos(t: Timeline, n: nat): (r: Timeline)
    requires Valid(t)
    ensures Valid(r) && r.snapshots == t.snapshots
    decreases n
  {
    if n == 0 then t else Undos(Undo(t), n - 1)
  }

  /** Undoing at least as many times as the cursor position stops at the
      oldest retained snapshot, and further undos change nothing. */
  lemma {:induction false} UndosStopAtOldest(t: Timeline, n: nat)
    requires Valid(t)
    ensures Undos(t, n).index == if n <= t.index then t.index - n else 0
    decreases n
  {
    if n > 0 {
      UndosStopAtOldest(Undo(t), n - 1);
    }
  }

  /** A concrete trace showing that undo/redo are not an inverse pair over
      the elements: starting empty, add `e1` then `e2` (each preceded by a
      push). One undo shows the empty canvas rather than `[e1]`, and redo
      then shows `[e1]`, never the current `[e1, e2]`. */
  lemma UndoIsNotInverse(e1: Element, e2: Element)
    ensures var t := Push(Push(Initial(), []), [e1]);
      && Current(Undo(t)) == []
      && Current(Redo(Undo(t))) == [e1]
      && Current(Redo(Undo(t))) != [e1, e2]
  {
  }
}
