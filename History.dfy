/** The linear undo/redo history as a value: the snapshot list and the cursor
    (`history` and `currentIndex`, src/components/LogoGenerator.tsx:128-152),
    with the three transitions of lines 201-253. The `Editor` class is proved
    against these functions. */
module History {
  import opened Style

  datatype History = History(states: seq<LogoState>, cursor: nat)

  /** At least one snapshot, and the cursor points at one of them. */
  predicate Valid(h: History)
  {
    |h.states| >= 1 && h.cursor < |h.states|
  }

  function Current(h: History): LogoState
    requires Valid(h)
  {
    h.states[h.cursor]
  }

  /** The flags reported to `onStateChange` (lines 191-195). */
  predicate CanUndo(h: History) { h.cursor > 0 }

  predicate CanRedo(h: History) { h.cursor + 1 < |h.states| }

  /** A fresh history holding only the seed snapshot. */
  function Seeded(s: LogoState): (h: History)
    ensures Valid(h) && Current(h) == s
    ensures !CanUndo(h) && !CanRedo(h)
  {
    History([s], 0)
  }

  /** `updateHistory` (lines 247-253): merge into the current snapshot, drop
      the redo tail, append, and move the cursor onto the new last snapshot. */
  function Push(h: History, p: Patch): (r: History)
    requires Valid(h)
    ensures Valid(r)
    ensures r.cursor == h.cursor + 1 && |r.states| == r.cursor + 1
    ensures forall k :: 0 <= k <= h.cursor ==> r.states[k] == h.states[k]
    ensures Current(r) == Merge(Current(h), p)
    ensures CanUndo(r) && !CanRedo(r)
  {
    History(h.states[..h.cursor + 1] + [Merge(Current(h), p)], h.cursor + 1)
  }

  /** `handleUndo` (lines 201-222) on the history: step back unless at the start. */
  function Undo(h: History): (r: History)
    requires Valid(h)
    ensures Valid(r) && r.states == h.states
    ensures CanUndo(h) ==> r.cursor == h.cursor - 1
    ensures !CanUndo(h) ==> r == h
  {
    if h.cursor > 0 then h.(cursor := h.cursor - 1) else h
  }

  /** `handleRedo` (lines 224-245) on the history: step forward unless at the end. */
  function Redo(h: History): (r: History)
    requires Valid(h)
    ensures Valid(r) && r.states == h.states
    ensures CanRedo(h) ==> r.cursor == h.cursor + 1
    ensures !CanRedo(h) ==> r == h
  {
    if h.cursor < |h.states| - 1 then h.(cursor := h.cursor + 1) else h
  }

  /** The reported flags say exactly when undo and redo would move. */
  lemma FlagsMeanMovement(h: History)
    requires Valid(h)
    ensures CanUndo(h) <==> Undo(h) != h
    ensures CanRedo(h) <==> Redo(h) != h
  {
  }

  lemma RedoUndo(h: History)
    requires Valid(h) && CanUndo(h)
    ensures Redo(Undo(h)) == h
  {
  }

  lemma UndoRedo(h: History)
    requires Valid(h) && CanRedo(h)
    ensures Undo(Redo(h)) == h
  {
  }

  /** Undoing an edit brings back the snapshot it was made from; the edit
      itself stays available to redo. */
  lemma UndoAfterPush(h: History, p: Patch)
    requires Valid(h)
    ensures Undo(Push(h, p)).cursor == h.cursor
    ensures Current(Undo(Push(h, p))) == Current(h)
    ensures Current(Redo(Undo(Push(h, p)))) == Merge(Current(h), p)
  {
  }

  /** Editing after an undo discards the undone branch: after
      push p, push q, undo, push r there is nothing to redo, redo is a no-op,
      and the slot that held q's snapshot now holds r's. */
  lemma EditAfterUndoDiscardsBranch(h: History, p: Patch, q: Patch, r: Patch)
    requires Valid(h)
    ensures var h' := Push(Undo(Push(Push(h, p), q)), r);
      && !CanRedo(h') && Redo(h') == h'
      && |h'.states| == h.cursor + 3
      && h'.states[h.cursor + 1] == Merge(Current(h), p)
      && Current(h') == Merge(Merge(Current(h), p), r)
  {
  }

  // ---------------------------------------------------------------------------
  // Runs of edits and undos
  // ---------------------------------------------------------------------------

  /** Apply several edits in order. */
  function PushAll(h: History, ps: seq<Patch>): (r: History)
    requires Valid(h)
    ensures Valid(r)
    decreases |ps|
  {
    if |ps| == 0 then h else PushAll(Push(h, ps[0]), ps[1..])
  }

  /** The snapshot several successive merges produce. */
  function MergeAll(s: LogoState, ps: seq<Patch>): LogoState
    decreases |ps|
  {
    if |ps| == 0 then s else MergeAll(Merge(s, ps[0]), ps[1..])
  }

  /** After edits `ps` the history keeps everything up to the old cursor, then
      holds one snapshot per edit (each the merge of all edits so far), and the
      cursor is on the last one. */
  lemma {:induction false} PushAllShape(h: History, ps: seq<Patch>)
    requires Valid(h)
    ensures var r := PushAll(h, ps);
      && r.cursor == h.cursor + |ps|
      && (|ps| > 0 ==> |r.states| == r.cursor + 1)
      && (forall k :: 0 <= k <= h.cursor ==> r.states[k] == h.states[k])
      && (forall k :: 0 <= k <= |ps| ==> r.states[h.cursor + k] == MergeAll(Current(h), ps[..k]))
    decreases |ps|
  {
    if |ps| > 0 {
      var h1 := Push(h, ps[0]);
      PushAllShape(h1, ps[1..]);
      var r := PushAll(h, ps);
      assert r == PushAll(h1, ps[1..]);
      forall k | 0 <= k <= |ps|
        ensures r.states[h.cursor + k] == MergeAll(Current(h), ps[..k])
      {
        if k == 0 {
          assert r.states[h.cursor] == h1.states[h.cursor] == h.states[h.cursor];
        } else {
          assert ps[1..][..k - 1] == ps[1..k];
          assert r.states[h1.cursor + (k - 1)] == MergeAll(Current(h1), ps[1..k]);
          assert ps[..k][1..] == ps[1..k];
        }
      }
    }
  }

  /** A run of edits without undo: undo becomes possible after the first, and
      the current snapshot is the merge of all of them. */
  lemma EditsWithoutUndo(h: History, ps: seq<Patch>)
    requires Valid(h) && |ps| >= 1
    ensures CanUndo(PushAll(h, ps)) && !CanRedo(PushAll(h, ps))
    ensures Current(PushAll(h, ps)) == MergeAll(Current(h), ps)
  {
    PushAllShape(h, ps);
    assert ps[..|ps|] == ps;
  }

  /** Undo `k` times. */
  function UndoTimes(h: History, k: nat): (r: History)
    requires Valid(h)
    ensures Valid(r)
    decreases k
  {
    if k == 0 then h else UndoTimes(Undo(h), k - 1)
  }

  lemma {:induction false} UndoTimesShape(h: History, k: nat)
    requires Valid(h) && k <= h.cursor
    ensures UndoTimes(h, k) == h.(cursor := h.cursor - k)
    decreases k
  {
    if k > 0 {
      UndoTimesShape(Undo(h), k - 1);
    }
  }

  /** Undoing every edit of a run returns to the snapshot the run started
      from, and each undone edit can be redone. */
  lemma UndoEveryEdit(h: History, ps: seq<Patch>)
    requires Valid(h)
    ensures var r := UndoTimes(PushAll(h, ps), |ps|);
      && r.cursor == h.cursor
      && Current(r) == Current(h)
      && (|ps| > 0 ==> CanRedo(r))
  {
    PushAllShape(h, ps);
    UndoTimesShape(PushAll(h, ps), |ps|);
  }
}
