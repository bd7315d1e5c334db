/**
 * The action history of a project in browser/models.py: the `Action` and
 * `FrameHistory` rows, as values, and the facts about the list of actions
 * that `finish_action`, `undo` and `redo` rely on and keep.
 */
module History {
  import opened Wrappers
  import opened CellInfo

  /** A label frame as it was saved with an action. */
  datatype FrameHistory = FrameHistory(frameId: nat, frame: Frame)

  /**
   * One `Action` row. `frames` and `labels` hold the label frames and the
   * label metadata from before the action's edits. The row's `labels`
   * column holds a pickled copy of the `Labels` object; here `labels` holds
   * that object itself, which nothing changes after an action saves it.
   */
  datatype Action = Action(
    actionId: nat,
    name: Option<string>,
    prev: Option<nat>,
    next: Option<nat>,
    yChanged: bool,
    labelsChanged: bool,
    frames: seq<FrameHistory>,
    labels: Option<Labels>)

  /** `[FrameHistory(frame=f) for f in label_frames]`: every frame, under its index. */
  function Snapshot(labelFrames: seq<Frame>): (r: seq<FrameHistory>)
    ensures |r| == |labelFrames|
    ensures forall i :: 0 <= i < |r| ==> r[i] == FrameHistory(i, labelFrames[i])
  {
    seq(|labelFrames|, i requires 0 <= i < |labelFrames| => FrameHistory(i, labelFrames[i]))
  }

  /** `Action(project)`: the action the project is about to perform, with nothing changed yet. */
  function NewAction(actionId: nat, prev: Option<nat>, labels: Labels, labelFrames: seq<Frame>): (a: Action)
    ensures a.actionId == actionId && a.prev == prev && a.next.None? && a.name.None?
    ensures !a.yChanged && !a.labelsChanged && a.labels == Some(labels)
    ensures SavedWithin(a.frames, |labelFrames|)
    ensures |a.frames| == |labelFrames| && forall i :: 0 <= i < |a.frames| ==> a.frames[i] == FrameHistory(i, labelFrames[i])
  {
    Action(actionId, None, prev, None, false, false, Snapshot(labelFrames), Some(labels))
  }

  /** The saved frames whose `frame_id` is in the set of edited frames, in their order. */
  function KeepDirty(frames: seq<FrameHistory>, dirty: set<nat>): (r: seq<FrameHistory>)
    ensures |r| <= |frames|
    ensures forall h :: h in r <==> h in frames && h.frameId in dirty
    decreases |frames|
  {
    if frames == [] then []
    else
      var init := KeepDirty(frames[..|frames| - 1], dirty);
      var h := frames[|frames| - 1];
      assert frames == frames[..|frames| - 1] + [h];
      if h.frameId in dirty then init + [h] else init
  }

  predicate SavedWithin(saved: seq<FrameHistory>, n: nat) {
    forall j :: 0 <= j < |saved| ==> saved[j].frameId < n
  }

  /** The label frames after the saved frames are written back one after another. */
  function Restore(labelFrames: seq<Frame>, saved: seq<FrameHistory>): (r: seq<Frame>)
    requires SavedWithin(saved, |labelFrames|)
    ensures |r| == |labelFrames|
    decreases |saved|
  {
    if saved == [] then labelFrames
    else
      var h := saved[|saved| - 1];
      Restore(labelFrames, saved[..|saved| - 1])[h.frameId := h.frame]
  }

  /** The frame saved last under `k`, if any. */
  function LastSaved(saved: seq<FrameHistory>, k: nat): Option<Frame>
    decreases |saved|
  {
    if saved == [] then None
    else if saved[|saved| - 1].frameId == k then Some(saved[|saved| - 1].frame)
    else LastSaved(saved[..|saved| - 1], k)
  }

  /** Filtering keeps the order: the kept frames of `a + b` are those of `a` followed by those of `b`. */
  lemma {:induction false} KeepDirtyConcat(a: seq<FrameHistory>, b: seq<FrameHistory>, dirty: set<nat>)
    ensures KeepDirty(a + b, dirty) == KeepDirty(a, dirty) + KeepDirty(b, dirty)
    decreases |b|
  {
    if b == [] {
      assert a + b == a;
    } else {
      var init := b[..|b| - 1];
      var h := b[|b| - 1];
      assert (a + b)[..|a + b| - 1] == a + init;
      assert (a + b)[|a + b| - 1] == h;
      KeepDirtyConcat(a, init, dirty);
    }
  }

  /** A single saved frame is kept exactly when it was edited. */
  lemma KeepDirtyOne(h: FrameHistory, dirty: set<nat>)
    ensures KeepDirty([h], dirty) == if h.frameId in dirty then [h] else []
  {
    assert [h][..0] == [];
  }

  /** After filtering, the last saved copy of an edited frame is the one it was before. */
  lemma {:induction false} LastSavedKept(frames: seq<FrameHistory>, dirty: set<nat>, k: nat)
    ensures LastSaved(KeepDirty(frames, dirty), k) == if k in dirty then LastSaved(frames, k) else None
    decreases |frames|
  {
    if frames != [] {
      var init := frames[..|frames| - 1];
      var h := frames[|frames| - 1];
      var kept := KeepDirty(init, dirty);
      LastSavedKept(init, dirty, k);
      if h.frameId in dirty {
        assert KeepDirty(frames, dirty) == kept + [h];
        assert (kept + [h])[..|kept + [h]| - 1] == kept;
      } else {
        assert KeepDirty(frames, dirty) == kept;
      }
    }
  }

  lemma LastSavedKeptAll(frames: seq<FrameHistory>, dirty: set<nat>)
    ensures forall k: nat :: LastSaved(KeepDirty(frames, dirty), k) == if k in dirty then LastSaved(frames, k) else None
  {
    forall k: nat
      ensures LastSaved(KeepDirty(frames, dirty), k) == if k in dirty then LastSaved(frames, k) else None
    {
      LastSavedKept(frames, dirty, k);
    }
  }

  /** A frame is restored from the last saved copy of it, and is left alone when none was saved. */
  lemma {:induction false} RestoreAt(labelFrames: seq<Frame>, saved: seq<FrameHistory>, k: nat)
    requires SavedWithin(saved, |labelFrames|) && k < |labelFrames|
    ensures Restore(labelFrames, saved)[k] == LastSaved(saved, k).GetOr(labelFrames[k])
    ensures LastSaved(saved, k).None? <==> forall j :: 0 <= j < |saved| ==> saved[j].frameId != k
    decreases |saved|
  {
    if saved != [] {
      RestoreAt(labelFrames, saved[..|saved| - 1], k);
    }
  }

  /** Writing back a snapshot of every frame gives exactly the snapshotted frames. */
  lemma RestoreSnapshot(current: seq<Frame>, labelFrames: seq<Frame>)
    requires |current| == |labelFrames|
    ensures SavedWithin(Snapshot(labelFrames), |current|)
    ensures Restore(current, Snapshot(labelFrames)) == labelFrames
  {
    var snap := Snapshot(labelFrames);
    forall k | 0 <= k < |current|
      ensures Restore(current, snap)[k] == labelFrames[k]
    {
      RestoreAt(current, snap, k);
      LastSavedSnapshot(labelFrames, |labelFrames|, k);
      assert snap[..|labelFrames|] == snap;
    }
  }

  lemma {:induction false} LastSavedSnapshot(labelFrames: seq<Frame>, n: nat, k: nat)
    requires k < n <= |labelFrames|
    ensures LastSaved(Snapshot(labelFrames)[..n], k) == Some(labelFrames[k])
    decreases n
  {
    var snap := Snapshot(labelFrames)[..n];
    if k < n - 1 {
      assert snap[..n - 1] == Snapshot(labelFrames)[..n - 1];
      LastSavedSnapshot(labelFrames, n - 1, k);
    }
  }

  /**
   * Starting from `i` and following `prev`, the action before each one
   * still has its `next` pointing at it: the redo pointer of every
   * predecessor leads back along the way undo came.
   */
  ghost predicate BackLinked(actions: seq<Action>, i: nat)
    decreases i
  {
    i < |actions| &&
    match actions[i].prev
    case None => true
    case Some(p) => p < i && actions[p].next == Some(i) && BackLinked(actions, p)
  }

  /**
   * The history a project keeps: one action per id below `nextId`, stored
   * at its own index; `prev` points down and `next` points up, and the
   * action `next` names has `prev` pointing back; saved frames name
   * existing label frames; and the current action is back-linked.
   */
  ghost predicate WellFormed(actions: seq<Action>, current: nat, nextId: nat, numFrames: nat) {
    && |actions| == nextId
    && current < |actions|
    && (forall i :: 0 <= i < |actions| ==> actions[i].actionId == i)
    && (forall i :: 0 <= i < |actions| && actions[i].prev.Some? ==> actions[i].prev.value < i)
    && (forall i :: 0 <= i < |actions| && actions[i].next.Some? ==>
          i < actions[i].next.value < |actions| && actions[actions[i].next.value].prev == Some(i))
    && (forall i :: 0 <= i < |actions| ==> SavedWithin(actions[i].frames, numFrames))
    && BackLinked(actions, current)
  }

  /** Back-linking depends only on the `prev` links up to `i` and the `next` links below it. */
  lemma {:induction false} BackLinkedFrame(a: seq<Action>, b: seq<Action>, i: nat)
    requires BackLinked(a, i) && i < |b|
    requires forall j :: 0 <= j <= i && j < |a| ==> a[j].prev == b[j].prev
    requires forall j :: 0 <= j < i && j < |a| ==> a[j].next == b[j].next
    ensures BackLinked(b, i)
    decreases i
  {
    match a[i].prev
    case None =>
    case Some(p) =>
      BackLinkedFrame(a, b, p);
  }

  /** After undoing to the previous action, redoing comes back to where undo started. */
  lemma UndoThenRedo(actions: seq<Action>, current: nat, nextId: nat, numFrames: nat)
    requires WellFormed(actions, current, nextId, numFrames) && actions[current].prev.Some?
    ensures var p := actions[current].prev.value;
      WellFormed(actions, p, nextId, numFrames) && actions[p].next == Some(current)
  {
  }

  /** After redoing to the next action, undoing comes back to where redo started. */
  lemma RedoThenUndo(actions: seq<Action>, current: nat, nextId: nat, numFrames: nat)
    requires WellFormed(actions, current, nextId, numFrames) && actions[current].next.Some?
    ensures var n := actions[current].next.value;
      WellFormed(actions, n, nextId, numFrames) && actions[n].prev == Some(current)
  {
  }

  /** The action `finish_action` leaves behind: named, pointing to the new action, with only the edited frames kept. */
  function Finished(action: Action, name: string, dirty: set<nat>, nextId: nat): (a: Action)
    ensures a.name == Some(name) && a.next == Some(nextId)
    ensures a.actionId == action.actionId && a.prev == action.prev
    ensures a.yChanged == action.yChanged && a.labelsChanged == action.labelsChanged
    ensures forall h :: h in a.frames <==> h in action.frames && h.frameId in dirty
    ensures forall k: nat :: LastSaved(a.frames, k) == if k in dirty then LastSaved(action.frames, k) else None
    ensures action.labelsChanged ==> a.labels == action.labels
    ensures !action.labelsChanged ==> a.labels.None?
  {
    LastSavedKeptAll(action.frames, dirty);
    action.(
      name := Some(name),
      next := Some(nextId),
      frames := KeepDirty(action.frames, dirty),
      labels := if action.labelsChanged then action.labels else None)
  }

  /** Finishing the current action and appending a new one keeps the history well formed. */
  lemma FinishKeepsWellFormed(actions: seq<Action>, current: nat, nextId: nat, labelFrames: seq<Frame>,
                              name: string, dirty: set<nat>, labels: Labels)
    requires WellFormed(actions, current, nextId, |labelFrames|)
    ensures var after := actions[current := Finished(actions[current], name, dirty, nextId)] +
                         [NewAction(nextId, Some(current), labels, labelFrames)];
      WellFormed(after, nextId, nextId + 1, |labelFrames|)
  {
    var fin := actions[current := Finished(actions[current], name, dirty, nextId)];
    var after := fin + [NewAction(nextId, Some(current), labels, labelFrames)];
    forall j | 0 <= j < |after|
      ensures SavedWithin(after[j].frames, |labelFrames|)
    {
      if j == current {
        var kept := KeepDirty(actions[current].frames, dirty);
        forall t | 0 <= t < |kept|
          ensures kept[t].frameId < |labelFrames|
        {
          assert kept[t] in actions[current].frames;
        }
      }
    }
    BackLinkedFrame(actions, after, current);
    assert after[nextId].prev == Some(current);
    assert after[current].next == Some(nextId);
  }
}
