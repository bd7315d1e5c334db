/**
 * Label metadata: the `Labels` row of browser/models.py and the per-feature
 * index that `create_cell_info` derives from a label array.
 */
module CellInfo {
  import opened Wrappers
  import opened Numbers
  import Decimal

  /** A label array indexed `[frame][y][x][feature]`; 0 is background. */
  type Volume = seq<seq<seq<seq<nat>>>>

  /** One frame of a label array, indexed `[y][x][feature]`. */
  type Frame = seq<seq<seq<nat>>>

  /** Every pixel of `v` has a value for `feature`, so `v[..., feature]` exists. */
  predicate HasFeature(v: Volume, feature: nat) {
    forall f, y, x :: 0 <= f < |v| && 0 <= y < |v[f]| && 0 <= x < |v[f][y]| ==> feature < |v[f][y][x]|
  }

  /** A rectangular array, as every numpy array is: each frame, row and pixel as long as the first. */
  predicate IsArray(v: Volume) {
    && (forall f :: 0 <= f < |v| ==> |v[f]| == |v[0]|)
    && (forall f, y :: 0 <= f < |v| && 0 <= y < |v[f]| ==> |v[f][y]| == |v[0][0]|)
    && (forall f, y, x :: 0 <= f < |v| && 0 <= y < |v[f]| && 0 <= x < |v[f][y]| ==> |v[f][y][x]| == |v[0][0][0]|)
  }

  /** `v.shape[1]`. */
  function Height(v: Volume): nat {
    if |v| > 0 then |v[0]| else 0
  }

  /** `v.shape[2]`. */
  function Width(v: Volume): nat {
    if |v| > 0 && |v[0]| > 0 then |v[0][0]| else 0
  }

  /** `v.shape[-1]`: the number of channels or features. */
  function Depth(v: Volume): nat {
    if |v| > 0 && |v[0]| > 0 && |v[0][0]| > 0 then |v[0][0][0]| else 0
  }

  /** Every feature index below the last axis of an array exists at every pixel. */
  lemma ArrayHasFeature(v: Volume, feature: nat)
    requires IsArray(v) && feature < Depth(v)
    ensures HasFeature(v, feature)
  {
  }

  /** Every feature index below the last axis of an array exists at every pixel, all at once. */
  lemma ArrayHasFeatures(v: Volume)
    requires IsArray(v)
    ensures forall feature: nat :: feature < Depth(v) ==> HasFeature(v, feature)
  {
    forall feature: nat | feature < Depth(v)
      ensures HasFeature(v, feature)
    {
      ArrayHasFeature(v, feature);
    }
  }

  /** `cell in annotated[frame, ...]` for `annotated = v[..., feature]`. */
  predicate Occurs(v: Volume, feature: nat, frame: nat, cell: nat)
    requires HasFeature(v, feature) && frame < |v|
  {
    exists y, x :: 0 <= y < |v[frame]| && 0 <= x < |v[frame][y]| && v[frame][y][x][feature] == cell
  }

  /** The distinct values of `v[..., feature]`. */
  function Values(v: Volume, feature: nat): set<nat>
    requires HasFeature(v, feature)
  {
    set f, y, x | 0 <= f < |v| && 0 <= y < |v[f]| && 0 <= x < |v[f][y]| :: v[f][y][x][feature]
  }

  /** A value occurs somewhere in the feature exactly when it occurs in some frame. */
  lemma ValuesOccur(v: Volume, feature: nat, cell: nat)
    requires HasFeature(v, feature)
    ensures cell in Values(v, feature) <==> exists f :: 0 <= f < |v| && Occurs(v, feature, f, cell)
  {
    if cell in Values(v, feature) {
      var f, y, x :| 0 <= f < |v| && 0 <= y < |v[f]| && 0 <= x < |v[f][y]| && v[f][y][x][feature] == cell;
      assert Occurs(v, feature, f, cell);
    }
    if exists f :: 0 <= f < |v| && Occurs(v, feature, f, cell) {
      var f :| 0 <= f < |v| && Occurs(v, feature, f, cell);
      var y, x :| 0 <= y < |v[f]| && 0 <= x < |v[f][y]| && v[f][y][x][feature] == cell;
      assert v[f][y][x][feature] in Values(v, feature);
    }
  }

  predicate StrictlyAscending(s: seq<nat>) {
    forall i, j :: 0 <= i < j < |s| ==> s[i] < s[j]
  }

  /** `m` is the least element of `s`. */
  predicate IsLeast(m: nat, s: set<nat>) {
    m in s && forall k :: k in s ==> m <= k
  }

  lemma {:induction false} MinimumExists(s: set<nat>)
    requires s != {}
    ensures exists m :: IsLeast(m, s)
    decreases |s|
  {
    var x :| x in s;
    var rest := s - {x};
    if rest == {} {
      forall k | k in s
        ensures x <= k
      {
        assert k !in rest;
      }
      assert IsLeast(x, s);
    } else {
      MinimumExists(rest);
      var m :| IsLeast(m, rest);
      var l := Min(x, m);
      forall k | k in s
        ensures l <= k
      {
        if k != x {
          assert k in rest;
        }
      }
      assert IsLeast(l, s);
    }
  }

  function Minimum(s: set<nat>): (m: nat)
    requires s != {}
    ensures m in s && forall k :: k in s ==> m <= k
  {
    MinimumExists(s);
    var m :| IsLeast(m, s);
    m
  }

  /** The elements of `s` in ascending order, as `np.unique` returns them. */
  function Ascending(s: set<nat>): (r: seq<nat>)
    ensures StrictlyAscending(r)
    ensures forall c :: c in r <==> c in s
    decreases |s|
  {
    if s == {} then []
    else
      var m := Minimum(s);
      [m] + Ascending(s - {m})
  }

  /** `np.unique(annotated)[np.nonzero(np.unique(annotated))]`. */
  function CellIds(v: Volume, feature: nat): (ids: seq<nat>)
    requires HasFeature(v, feature)
    ensures StrictlyAscending(ids)
    ensures forall c :: c in ids <==> c != 0 && c in Values(v, feature)
  {
    Ascending(Values(v, feature) - {0})
  }

  /** The frames below `n` that contain `cell`, in the order the frame loop appends them. */
  function FramesBelow(v: Volume, feature: nat, cell: nat, n: nat): seq<nat>
    requires HasFeature(v, feature) && n <= |v|
  {
    if n == 0 then []
    else FramesBelow(v, feature, cell, n - 1) + (if Occurs(v, feature, n - 1, cell) then [n - 1] else [])
  }

  /** The `frames` list `create_cell_info` records for `cell`. */
  function Frames(v: Volume, feature: nat, cell: nat): seq<nat>
    requires HasFeature(v, feature)
  {
    FramesBelow(v, feature, cell, |v|)
  }

  /** The frame list below `n` is strictly ascending and holds exactly the frames below `n` containing `cell`. */
  lemma {:induction false} FramesBelowSpec(v: Volume, feature: nat, cell: nat, n: nat)
    requires HasFeature(v, feature) && n <= |v|
    ensures StrictlyAscending(FramesBelow(v, feature, cell, n))
    ensures forall f: nat :: f in FramesBelow(v, feature, cell, n) <==> f < n && Occurs(v, feature, f, cell)
  {
    if n > 0 {
      FramesBelowSpec(v, feature, cell, n - 1);
      var prefix := FramesBelow(v, feature, cell, n - 1);
      forall i | 0 <= i < |prefix|
        ensures prefix[i] < n - 1
      {
        assert prefix[i] in prefix;
      }
    }
  }

  /** A per-cell record of `cell_info`; lineage files carry track records instead. */
  datatype CellRecord =
    | StackCell(cellLabel: string, frames: seq<nat>, slices: string)
    | TrackCell(trackLabel: nat, frames: seq<nat>, daughters: seq<nat>, frameDiv: Option<nat>,
                parent: Option<nat>, capped: bool, trackSlices: Option<string>)

  /** The record `create_cell_info` builds for `cell`. */
  function NewRecord(v: Volume, feature: nat, cell: nat): CellRecord
    requires HasFeature(v, feature)
  {
    StackCell(Decimal.NatToString(cell), Frames(v, feature, cell), "")
  }

  /** The records of the first `i` cells of `ids`, as the cell loop adds them one by one. */
  function RecordsFor(v: Volume, feature: nat, ids: seq<nat>, i: nat): map<nat, CellRecord>
    requires HasFeature(v, feature) && i <= |ids|
  {
    if i == 0 then map[] else RecordsFor(v, feature, ids, i - 1)[ids[i - 1] := NewRecord(v, feature, ids[i - 1])]
  }

  lemma {:induction false} RecordsForAll(v: Volume, feature: nat, ids: seq<nat>, i: nat)
    requires HasFeature(v, feature) && i <= |ids|
    ensures RecordsFor(v, feature, ids, i) == map c | c in ids[..i] :: NewRecord(v, feature, c)
  {
    if i > 0 {
      RecordsForAll(v, feature, ids, i - 1);
      assert ids[..i] == ids[..i - 1] + [ids[i - 1]];
    }
  }

  lemma RecordsForCellInfo(v: Volume, feature: nat)
    requires HasFeature(v, feature)
    ensures RecordsFor(v, feature, CellIds(v, feature), |CellIds(v, feature)|) == CellInfoOf(v, feature)
  {
    var ids := CellIds(v, feature);
    RecordsForAll(v, feature, ids, |ids|);
    assert ids[..|ids|] == ids;
  }

  /** `cell_info[feature]` after `create_cell_info(feature, v)`. */
  function CellInfoOf(v: Volume, feature: nat): (info: map<nat, CellRecord>)
    requires HasFeature(v, feature)
    ensures forall c :: c in info <==> c in CellIds(v, feature)
    ensures forall c :: c in info ==> info[c] == StackCell(Decimal.NatToString(c), Frames(v, feature, c), "")
  {
    map c | c in CellIds(v, feature) :: NewRecord(v, feature, c)
  }

  /** `cell_ids[feature]` is strictly ascending, holds no 0, and holds exactly the non-zero values of the feature. */
  lemma CellIdsSpec(v: Volume, feature: nat)
    requires HasFeature(v, feature)
    ensures StrictlyAscending(CellIds(v, feature))
    ensures 0 !in CellIds(v, feature)
    ensures forall c :: c in CellIds(v, feature) <==> c != 0 && exists f :: 0 <= f < |v| && Occurs(v, feature, f, c)
  {
    forall c
      ensures c in CellIds(v, feature) <==> c != 0 && exists f :: 0 <= f < |v| && Occurs(v, feature, f, c)
    {
      ValuesOccur(v, feature, c);
    }
  }

  /**
   * The keys of `cell_info[feature]` are exactly `cell_ids[feature]`; each record is
   * `{label: str(cell), frames, slices: ''}` with `frames` non-empty, strictly ascending,
   * and holding exactly the frames in which the cell occurs.
   */
  lemma CellInfoSpec(v: Volume, feature: nat)
    requires HasFeature(v, feature)
    ensures forall c :: c in CellInfoOf(v, feature) <==> c in CellIds(v, feature)
    ensures forall c :: c in CellInfoOf(v, feature) ==>
      var r := CellInfoOf(v, feature)[c];
      && r.StackCell?
      && r.cellLabel == Decimal.NatToString(c)
      && r.slices == ""
      && r.frames != []
      && StrictlyAscending(r.frames)
      && forall f: nat :: f in r.frames <==> f < |v| && Occurs(v, feature, f, c)
  {
    forall c | c in CellInfoOf(v, feature)
      ensures var r := CellInfoOf(v, feature)[c];
        && r.frames != []
        && StrictlyAscending(r.frames)
        && forall f: nat :: f in r.frames <==> f < |v| && Occurs(v, feature, f, c)
    {
      FramesBelowSpec(v, feature, c, |v|);
      CellIdsSpec(v, feature);
      var f :| 0 <= f < |v| && Occurs(v, feature, f, c);
      assert f in Frames(v, feature, c);
    }
  }

  /** The first `n` elements of `vals`, keyed by their index. */
  function Prefix<T>(vals: seq<T>, n: nat): (m: map<nat, T>)
    requires n <= |vals|
    ensures forall g: nat :: g in m <==> g < n
    ensures forall g: nat :: g < n ==> m[g] == vals[g]
  {
    map g: nat | g < n :: vals[g]
  }

  /** Taking one more element adds exactly that element under its index. */
  lemma PrefixStep<T>(vals: seq<T>, n: nat)
    requires n < |vals|
    ensures Prefix(vals, n + 1) == Prefix(vals, n)[n := vals[n]]
  {
    assert Prefix(vals, n + 1).Keys == Prefix(vals, n).Keys + {n};
  }

  /** `cell_ids[f]` for every feature `f` of an array, in feature order. */
  function AllCellIds(v: Volume): (s: seq<seq<nat>>)
    requires IsArray(v)
    ensures |s| == Depth(v)
  {
    seq(Depth(v), g requires 0 <= g < Depth(v) => ArrayHasFeature(v, g); CellIds(v, g))
  }

  /** `cell_info[f]` for every feature `f` of an array, in feature order. */
  function AllCellInfo(v: Volume): (s: seq<map<nat, CellRecord>>)
    requires IsArray(v)
    ensures |s| == Depth(v)
  {
    seq(Depth(v), g requires 0 <= g < Depth(v) => ArrayHasFeature(v, g); CellInfoOf(v, g))
  }

  /**
   * The frame loop of `create_cell_info`: the frames of `labels` that contain
   * `cell`, ascending, each once.
   */
  method CollectFrames(labels: Volume, feature: nat, cell: nat) returns (frames: seq<nat>)
    requires HasFeature(labels, feature)
    ensures frames == Frames(labels, feature, cell)
  {
    frames := [];
    var frame := 0;
    while frame < |labels|
      invariant 0 <= frame <= |labels|
      invariant frames == FramesBelow(labels, feature, cell, frame)
    {
      if Occurs(labels, feature, frame, cell) {
        frames := frames + [frame];
      }
      frame := frame + 1;
    }
  }

  /**
   * The cell loop of `create_cell_info`: one record per id, added in turn to
   * the dict `cell_info[feature]`.
   */
  method CollectRecords(labels: Volume, feature: nat, ids: seq<nat>) returns (records: map<nat, CellRecord>)
    requires HasFeature(labels, feature)
    ensures records == RecordsFor(labels, feature, ids, |ids|)
  {
    records := map[];
    var i := 0;
    while i < |ids|
      invariant 0 <= i <= |ids|
      invariant records == RecordsFor(labels, feature, ids, i)
    {
      var cell := ids[i];
      var frames := CollectFrames(labels, feature, cell);
      var record := StackCell(Decimal.NatToString(cell), frames, "");
      assert record == NewRecord(labels, feature, cell);
      records := records[cell := record];
      i := i + 1;
    }
  }

  /** The `Labels` row: ids and records per feature. */
  class Labels {
    var cellIds: map<nat, seq<nat>>
    var cellInfo: map<nat, map<nat, CellRecord>>

    constructor ()
      ensures cellIds == map[] && cellInfo == map[]
    {
      cellIds := map[];
      cellInfo := map[];
    }

    /** Make or remake the ids and records of one feature; other features are untouched. */
    method CreateCellInfo(feature: nat, labels: Volume)
      requires HasFeature(labels, feature)
      modifies this
      ensures cellIds == old(cellIds)[feature := CellIds(labels, feature)]
      ensures cellInfo == old(cellInfo)[feature := CellInfoOf(labels, feature)]
    {
      var ids := Ascending(Values(labels, feature) - {0});
      RecordsForCellInfo(labels, feature);
      cellIds := cellIds[feature := ids];
      var records := CollectRecords(labels, feature, ids);
      cellInfo := cellInfo[feature := records];
    }
  }
}
