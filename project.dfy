/**
 * The `Project` row of browser/models.py: creating a project from a file,
 * the largest label of the viewed feature, and the action history moves
 * `finish_action`, `undo` and `redo`.
 */
module Projects {
  import opened Wrappers
  import opened CellInfo
  import opened Loading
  import opened History

  datatype ProjectError =
    | LoadFailed(cause: LoadError)  // raised while choosing or running the loader
    | MissingArray(key: string)     // KeyError from a trial lookup
    | MultipleLineages              // ValueError: a `.trk` file with other than one lineage

  /** `np.max(ids)` on a non-empty list, and 0 for an empty one. */
  function MaxLabel(ids: seq<nat>): (m: nat)
    ensures ids == [] ==> m == 0
    ensures ids != [] ==> m in ids && forall i :: 0 <= i < |ids| ==> ids[i] <= m
    decreases |ids|
  {
    if ids == [] then 0
    else if |ids| == 1 then ids[0]
    else
      var rest := MaxLabel(ids[1..]);
      if ids[0] >= rest then ids[0] else rest
  }

  /** What the constructor reads off a loaded file. */
  datatype Opening = Opening(raw: Volume, annotated: Volume, lineage: Option<map<nat, CellRecord>>)

  /**
   * The checks of the project constructor: the file is loaded, `raw` and
   * the annotation key are looked up, and a `.trk` file must hold
   * exactly one lineage.
   */
  function Opened(filename: string, isNpz: string -> bool, isTrk: string -> bool, body: Body): (r: Result<Opening, ProjectError>)
    ensures Loaded(filename, isNpz, isTrk, body).Err? ==> r == Err(LoadFailed(Loaded(filename, isNpz, isTrk, body).error))
    ensures Loaded(filename, isNpz, isTrk, body).Ok? && "raw" !in Loaded(filename, isNpz, isTrk, body).value.arrays ==>
      r == Err(MissingArray("raw"))
    ensures (Loaded(filename, isNpz, isTrk, body).Ok? && "raw" in Loaded(filename, isNpz, isTrk, body).value.arrays &&
             AnnKey(filename, isTrk) !in Loaded(filename, isNpz, isTrk, body).value.arrays) ==>
      r == Err(MissingArray(AnnKey(filename, isTrk)))
  {
    match Loaded(filename, isNpz, isTrk, body)
    case Err(e) => Err(LoadFailed(e))
    case Ok(trial) =>
      var annKey := AnnKey(filename, isTrk);
      if "raw" !in trial.arrays then Err(MissingArray("raw"))
      else if annKey !in trial.arrays then Err(MissingArray(annKey))
      else if !isTrk(filename) then Ok(Opening(trial.arrays["raw"], trial.arrays[annKey], None))
      else if trial.lineages.None? then Err(MissingArray("lineages"))
      else if |trial.lineages.value| != 1 then Err(MultipleLineages)
      else Ok(Opening(trial.arrays["raw"], trial.arrays[annKey], Some(trial.lineages.value[0])))
  }

  /** Every array the loaders can produce from `body` is rectangular. */
  predicate Rectangular(body: Body) {
    && (forall n :: n in body.asNpz.arrays ==> IsArray(body.asNpz.arrays[n]))
    && (forall n :: n in body.asTrk.npy ==> IsArray(body.asTrk.npy[n]))
  }

  /**
   * A loaded file opens exactly when it holds `raw` and the label array and,
   * for a `.trk` file, exactly one lineage, which replaces the derived
   * records; any other file opens without lineage.
   */
  lemma OpenedLineage(filename: string, isNpz: string -> bool, isTrk: string -> bool, body: Body)
    requires Loaded(filename, isNpz, isTrk, body).Ok?
    ensures var trial := Loaded(filename, isNpz, isTrk, body).value;
      var o := Opened(filename, isNpz, isTrk, body);
      && (o.Ok? <==> (&& "raw" in trial.arrays && AnnKey(filename, isTrk) in trial.arrays
                      && (isTrk(filename) ==> trial.lineages.Some? && |trial.lineages.value| == 1)))
      && ((isTrk(filename) && trial.lineages.Some? && |trial.lineages.value| != 1 &&
           "raw" in trial.arrays && AnnKey(filename, isTrk) in trial.arrays) ==> o == Err(MultipleLineages))
      && (o.Ok? && isTrk(filename) ==> trial.lineages == Some([o.value.lineage.value]))
      && (o.Ok? && !isTrk(filename) ==> o.value.lineage.None?)
      && (o.Ok? ==> o.value.raw == trial.arrays["raw"] && o.value.annotated == trial.arrays[AnnKey(filename, isTrk)])
  {
    var trial := Loaded(filename, isNpz, isTrk, body).value;
    var o := Opened(filename, isNpz, isTrk, body);
    if o.Ok? && isTrk(filename) {
      assert trial.lineages.value == [trial.lineages.value[0]];
    }
  }

  /** The label array a project is opened with is one of the arrays in the file. */
  lemma {:induction false} OpenedArray(filename: string, isNpz: string -> bool, isTrk: string -> bool, body: Body)
    requires Rectangular(body) && Opened(filename, isNpz, isTrk, body).Ok?
    ensures IsArray(Opened(filename, isNpz, isTrk, body).value.annotated)
  {
    var trial := Loaded(filename, isNpz, isTrk, body).value;
    var key := AnnKey(filename, isTrk);
    if GetLoad(filename, isNpz, isTrk) == Ok(LoadNpz) {
      NpzFallback(body.asNpz);
      var npz := body.asNpz;
      if "y" !in npz.files && "raw" !in npz.files {
        assert npz.files[0] in npz.arrays && npz.files[1] in npz.arrays;
      }
    }
  }

  /** The feature loop of `Project.__init__`: `create_cell_info` for every feature of a fresh `Labels`. */
  method CreateAllCellInfo(l: Labels, annotated: Volume)
    requires IsArray(annotated) && l.cellIds == map[] && l.cellInfo == map[]
    modifies l
    ensures forall f: nat :: f in l.cellIds <==> f < Depth(annotated)
    ensures forall f: nat :: f in l.cellInfo <==> f < Depth(annotated)
    ensures forall f :: 0 <= f < Depth(annotated) ==> HasFeature(annotated, f) && l.cellIds[f] == CellIds(annotated, f)
    ensures forall f :: 0 <= f < Depth(annotated) ==> HasFeature(annotated, f) && l.cellInfo[f] == CellInfoOf(annotated, f)
  {
    ghost var ids, info := AllCellIds(annotated), AllCellInfo(annotated);
    var f := 0;
    while f < Depth(annotated)
      invariant 0 <= f <= Depth(annotated)
      invariant l.cellIds == Prefix(ids, f) && l.cellInfo == Prefix(info, f)
    {
      ArrayHasFeature(annotated, f);
      PrefixStep(ids, f);
      PrefixStep(info, f);
      l.CreateCellInfo(f, annotated);
      f := f + 1;
    }
    ArrayHasFeatures(annotated);
  }

  class Project {
    const filename: string
    const numFrames: nat
    const height: nat
    const width: nat
    const numChannels: nat
    const numFeatures: nat
    var scaleFactor: nat
    /** The feature on view. */
    var feature: nat
    var labels: Labels
    /** `label_frames[i].frame`, for the frame with `frame_id` `i`. */
    var labelFrames: seq<Frame>
    var actions: seq<Action>
    var actionId: nat
    var nextActionId: nat

    ghost predicate Valid()
      reads this
    {
      WellFormed(actions, actionId, nextActionId, |labelFrames|)
    }

    /**
     * The state right after `Project.create`: dimensions from the arrays, one
     * index per feature, the lineage replacing the records of a `.trk` file,
     * the label frames, and one action with id 0 and nothing before it.
     */
    ghost predicate Created(filename: string, raw: Volume, annotated: Volume, lineage: Option<map<nat, CellRecord>>)
      reads this, labels
    {
      && this.filename == filename
      && numFrames == |raw| && height == Height(raw) && width == Width(raw)
      && numChannels == Depth(raw) && numFeatures == Depth(annotated)
      && (forall f: nat :: f in labels.cellIds <==> f < numFeatures)
      && (forall f :: 0 <= f < numFeatures ==> HasFeature(annotated, f) && labels.cellIds[f] == CellIds(annotated, f))
      && (lineage.None? ==>
            && (forall f: nat :: f in labels.cellInfo <==> f < numFeatures)
            && (forall f :: 0 <= f < numFeatures ==> HasFeature(annotated, f) && labels.cellInfo[f] == CellInfoOf(annotated, f)))
      && (lineage.Some? ==> labels.cellInfo == map[0 := lineage.value])
      && scaleFactor == (if lineage.Some? then 2 else 1)
      && feature == 0
      && labelFrames == annotated
      && actions == [NewAction(0, None, labels, annotated)]
      && actionId == 0 && nextActionId == 1
    }

    /** `Project.__init__` followed by the first action of `Project.create`. */
    constructor (filename: string, raw: Volume, annotated: Volume, lineage: Option<map<nat, CellRecord>>)
      requires IsArray(annotated)
      ensures fresh(labels)
      ensures Created(filename, raw, annotated, lineage)
      ensures Valid()
    {
      var l := new Labels();
      CreateAllCellInfo(l, annotated);
      if lineage.Some? {
        l.cellInfo := map[0 := lineage.value];
        scaleFactor := 2;
      } else {
        scaleFactor := 1;
      }
      this.filename := filename;
      numFrames := |raw|;
      height := Height(raw);
      width := Width(raw);
      numChannels := Depth(raw);
      numFeatures := Depth(annotated);
      feature := 0;
      labels := l;
      labelFrames := annotated;
      actions := [NewAction(0, None, l, annotated)];
      actionId := 0;
      nextActionId := 1;
    }

    /** `get_max_label`: 0 for a feature without labels, else its largest label. */
    function GetMaxLabel(): (m: nat)
      reads this, labels
      requires feature in labels.cellIds
      ensures labels.cellIds[feature] == [] ==> m == 0
      ensures labels.cellIds[feature] != [] ==>
        m in labels.cellIds[feature] && forall c :: c in labels.cellIds[feature] ==> c <= m
    {
      MaxLabel(labels.cellIds[feature])
    }

    /**
     * `finish_action`: keep in the current action only the saved frames that
     * were edited (their ids are `dirty`) and its saved labels only if they
     * changed, name it, and start a new action after it.
     */
    method FinishAction(name: string, dirty: set<nat>)
      requires Valid()
      modifies this
      ensures Valid()
      ensures actions == old(actions)[old(actionId) := Finished(old(actions[actionId]), name, dirty, old(nextActionId))] +
                         [NewAction(old(nextActionId), Some(old(actionId)), old(labels), old(labelFrames))]
      ensures actionId == old(nextActionId) && nextActionId == old(nextActionId) + 1
      ensures labels == old(labels) && labelFrames == old(labelFrames) && feature == old(feature)
      ensures scaleFactor == old(scaleFactor)
    {
      FinishKeepsWellFormed(actions, actionId, nextActionId, labelFrames, name, dirty, labels);
      var action := actions[actionId];
      var newAction := NewAction(nextActionId, Some(actionId), labels, labelFrames);
      actions := actions[actionId := Finished(action, name, dirty, newAction.actionId)] + [newAction];
      actionId := newAction.actionId;
      nextActionId := nextActionId + 1;
    }

    /** Write the saved frames back into the label frames, one after another. */
    method RestoreFrames(saved: seq<FrameHistory>)
      requires SavedWithin(saved, |labelFrames|)
      modifies this
      ensures labelFrames == Restore(old(labelFrames), saved)
      ensures labels == old(labels) && actions == old(actions) && actionId == old(actionId)
      ensures nextActionId == old(nextActionId) && feature == old(feature) && scaleFactor == old(scaleFactor)
    {
      var frames := labelFrames;
      var i := 0;
      while i < |saved|
        invariant 0 <= i <= |saved|
        invariant SavedWithin(saved[..i], |labelFrames|)
        invariant frames == Restore(labelFrames, saved[..i])
      {
        assert saved[..i + 1][..i] == saved[..i];
        frames := frames[saved[i].frameId := saved[i].frame];
        i := i + 1;
      }
      assert saved[..|saved|] == saved;
      labelFrames := frames;
    }

    /**
     * `undo`: with no previous action nothing changes; otherwise restore the
     * frames and, when saved, the labels of the previous action and move to it.
     */
    method Undo()
      requires Valid()
      modifies this
      ensures Valid()
      ensures actions == old(actions) && nextActionId == old(nextActionId)
      ensures feature == old(feature) && scaleFactor == old(scaleFactor)
      ensures old(actions[actionId].prev).None? ==>
        actionId == old(actionId) && labelFrames == old(labelFrames) && labels == old(labels)
      ensures old(actions[actionId].prev).Some? ==>
        var p := old(actions[actionId].prev.value);
        && actionId == p
        && labelFrames == Restore(old(labelFrames), actions[p].frames)
        && labels == actions[p].labels.GetOr(old(labels))
    {
      var prev := actions[actionId].prev;
      if prev.None? {
        return;
      }
      var prevAction := actions[prev.value];
      RestoreFrames(prevAction.frames);
      if prevAction.labels.Some? {
        labels := prevAction.labels.value;
      }
      actionId := prevAction.actionId;
    }

    /**
     * `redo`: with no next action nothing changes; otherwise restore the
     * frames and, when saved, the labels of the next action and move to it.
     */
    method Redo()
      requires Valid()
      modifies this
      ensures Valid()
      ensures actions == old(actions) && nextActionId == old(nextActionId)
      ensures feature == old(feature) && scaleFactor == old(scaleFactor)
      ensures old(actions[actionId].next).None? ==>
        actionId == old(actionId) && labelFrames == old(labelFrames) && labels == old(labels)
      ensures old(actions[actionId].next).Some? ==>
        var n := old(actions[actionId].next.value);
        && actionId == n
        && labelFrames == Restore(old(labelFrames), actions[n].frames)
        && labels == actions[n].labels.GetOr(old(labels))
    {
      var next := actions[actionId].next;
      if next.None? {
        return;
      }
      var nextAction := actions[next.value];
      RestoreFrames(nextAction.frames);
      if nextAction.labels.Some? {
        labels := nextAction.labels.value;
      }
      actionId := nextAction.actionId;
    }

    /** An undo that has somewhere to go, followed by a redo, returns to the action it started from. */
    method UndoRedo()
      requires Valid() && actions[actionId].prev.Some?
      modifies this
      ensures Valid() && actionId == old(actionId) && actions == old(actions)
    {
      UndoThenRedo(actions, actionId, nextActionId, |labelFrames|);
      Undo();
      Redo();
    }
  }

  /** `Project.create(filename, ...)` on the bytes `body` fetched for the file. */
  method Create(filename: string, isNpz: string -> bool, isTrk: string -> bool, body: Body)
    returns (r: Result<Project, ProjectError>)
    requires Rectangular(body)
    ensures r.Err? ==> Opened(filename, isNpz, isTrk, body) == Err(r.error)
    ensures r.Ok? ==> Opened(filename, isNpz, isTrk, body).Ok?
    ensures r.Ok? ==>
      var o := Opened(filename, isNpz, isTrk, body).value;
      fresh(r.value) && fresh(r.value.labels) && r.value.Valid() &&
      r.value.Created(filename, o.raw, o.annotated, o.lineage)
  {
    var loaded := Load(filename, isNpz, isTrk, body);
    if loaded.Err? {
      return Err(LoadFailed(loaded.error));
    }
    var trial := loaded.value;
    var annKey := AnnKey(filename, isTrk);
    if "raw" !in trial.arrays {
      return Err(MissingArray("raw"));
    }
    if annKey !in trial.arrays {
      return Err(MissingArray(annKey));
    }
    var lineage: Option<map<nat, CellRecord>> := None;
    if isTrk(filename) {
      if trial.lineages.None? {
        return Err(MissingArray("lineages"));
      }
      if |trial.lineages.value| != 1 {
        return Err(MultipleLineages);
      }
      lineage := Some(trial.lineages.value[0]);
    }
    OpenedArray(filename, isNpz, isTrk, body);
    var p := new Project(filename, trial.arrays["raw"], trial.arrays[annKey], lineage);
    return Ok(p);
  }
}
