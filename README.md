# Caliban browser core in Dafny

Caliban is a web tool for curating cell-segmentation and cell-tracking
labels. This project models two parts of its browser application.

The first part is the data layer of `browser/models.py`:

- loading an `.npz` or `.trk` file into a trial of named arrays;
- building the label metadata of a `Labels` row: the cell ids per feature,
  the per-cell record with the frames a cell occurs in, and the `"[0-2, 5]"`
  rendering of those frames;
- the project constructor;
- the action history behind undo and redo;
- the largest label of the current feature;
- the integer channel mixing of `RGBFrame.reduce_to_RGB`.

The second part is the viewport of `browser/static/js/canvas.js`:

- the `CanvasState`, which maps the mouse onto image pixels and reads the
  label under the cursor;
- the undoable `Pan` and `Zoom` commands.

Modules:

| module | file | contents |
|---|---|---|
| `Wrappers` | wrappers.dfy | `Option` and `Result` |
| `Numbers` | numbers.dfy | the smaller of two naturals |
| `Decimal` | decimal.dfy | Python's `str(n)` on naturals and a parser for it |
| `CellInfo` | cell_info.dfy | label volumes, `cell_ids`, `cell_info` records and the `Labels` class with `create_cell_info` |
| `Tracks` | tracks.dfy | `consecutive`, the frame-run rendering of `readable_tracks`, and a parser that inverts it |
| `Loading` | loading.dfy | `get_ann_key`, `get_load`, `load_npz` and `load_trks`, over archives given as values |
| `History` | history.dfy | `Action` and `FrameHistory` rows as values, frame restoring, and the well-formedness of the action list |
| `Projects` | project.dfy | the `Project` class: constructor, `create`, `finish_action`, `undo`, `redo` and `get_max_label` |
| `Rgb` | rgb.dfy | the channel loop of `reduce_to_RGB` |
| `Canvas` | canvas.dfy | `CanvasState`, `Pan` and `Zoom` |

State that the source updates in place is a Dafny class:

- `Labels` has the fields `cell_ids` and `cell_info`. An action's saved
  labels are modelled as a reference to the live `Labels` object. The source
  pickles a copy of the row into the action's `labels` column instead (see
  "Left out").
- `Project` holds the label frames, the action list, `action_id` and
  `next_action_id`. Its methods are proved against the pure functions of
  `History`. A ghost `Valid()` states the history invariant `WellFormed`:
  - ids equal list positions;
  - `prev` points down and `next` points up;
  - the action `next` names points back with its `prev`;
  - saved frames name existing frames;
  - the current action is reachable back along `prev`, and each step back
    can be redone.
- `CanvasState`, `Pan` and `Zoom` have the fields of their JavaScript
  classes. Every method states its whole new state as an update of a `View`
  value. `Valid()` keeps only what every method preserves: positive sizes,
  the zoom limit and the window size. Whether the window lies inside the
  image is a separate predicate, because undo can move it out.
- The label under the cursor is read the way JavaScript reads
  `Math.abs(segArray[imgY][imgX])`:
  - a missing row, or a `null` array or row index, throws a TypeError;
  - a missing pixel gives NaN.

  The methods that can throw return whether they completed.

The file-type tests `is_npz_file` and `is_trk_file` live in a helper module
outside this model. They are parameters of type `string -> bool`. Archive
contents are given as maps from member names to arrays and parsed JSON; no
bytes are decoded.

## Model

| member | source | states |
|---|---|---|
| Decimal.NatToString | browser/models.py:531 | `str(label)` is a non-empty string of digits with no leading zero |
| Decimal.ParseNatToString | browser/models.py:531 | reading back the decimal text of `n` gives `n` |
| Decimal.NatToStringInjective | browser/models.py:531 | different labels get different `label` strings |
| CellInfo.ValuesOccur | browser/models.py:521-522 | a value is among a feature's values exactly when it occurs in some frame of that feature |
| CellInfo.ArrayHasFeature | browser/models.py:131-132 | every feature below `annotated.shape[-1]` of a rectangular array can be indexed |
| CellInfo.Minimum | browser/models.py:521 | the least element of a non-empty set of labels is in it and below all others |
| CellInfo.Ascending | browser/models.py:521 | `np.unique` gives a strictly ascending sequence with exactly the elements of the set |
| CellInfo.CellIds | browser/models.py:522 | `np.unique(annotated)[np.nonzero(...)]` is strictly ascending and holds a label iff it is non-zero and occurs in the feature |
| CellInfo.CellIdsSpec | browser/models.py:521-523 | `cell_ids[feature]` is strictly ascending, holds no 0, and holds exactly the non-zero labels that occur in some frame |
| CellInfo.FramesBelowSpec | browser/models.py:532-536 | the frames collected for a cell are strictly ascending, and a frame is among them iff the cell occurs in it |
| CellInfo.RecordsForAll | browser/models.py:527-537 | after the loop over the first `i` ids, `cell_info[feature]` maps exactly those ids to their fresh records |
| CellInfo.RecordsForCellInfo | browser/models.py:527-537 | the loop over all of `cell_ids[feature]` builds the whole `cell_info[feature]` |
| CellInfo.CellInfoOf | browser/models.py:524-536 | the keys of `cell_info[feature]` are exactly `cell_ids[feature]`, and each record holds `str(cell)`, the frames of the cell and an empty `slices` |
| CellInfo.CellInfoSpec | browser/models.py:525-537 | the keys of `cell_info[feature]` are exactly `cell_ids[feature]`; each record is `{label: str(cell), frames, slices: ''}` with non-empty frames, ascending, and a frame in them iff the cell occurs there |
| CellInfo.CollectFrames | browser/models.py:533-535 | the frame loop appends exactly the frames the cell occurs in |
| CellInfo.CollectRecords | browser/models.py:526-536 | the cell loop adds one fresh record per id, in the order of the ids |
| CellInfo.Labels.constructor | browser/models.py:485-487 | a new `Labels` row has empty `cell_ids` and `cell_info` |
| CellInfo.Labels.CreateCellInfo | browser/models.py:512-537 | the entries for `feature` become the `cell_ids` and `cell_info` derived from the array; every other feature's entries are unchanged |
| Tracks.Consecutive | browser/models.py:760-761 | `np.split` gives at least one run, even on empty data |
| Tracks.ConsecutiveFlatten | browser/models.py:760-761 | the runs of `consecutive` concatenate back to the input; empty data gives one empty run |
| Tracks.ConsecutiveRuns | browser/models.py:760-761 | on non-empty data every run is non-empty, steps by 1, and the first run starts at the first frame |
| Tracks.ConsecutiveBreaks | browser/models.py:760-761 | the runs are maximal: each run's first frame is not the successor of the previous run's last frame |
| Tracks.FormatRun | browser/models.py:505-506 | a run of one renders as its frame and a longer run as `first-last`: the text starts with a digit, holds no comma or space, and holds a dash iff the run is longer than one |
| Tracks.JoinRuns | browser/models.py:504-507 | the joined text is empty iff there are no runs and starts with the rendering of the first run |
| Tracks.JoinRunsCommas | browser/models.py:504-507 | `', '.join` puts exactly one comma between neighbouring runs, so `k` runs give `k - 1` commas |
| Tracks.Slices | browser/models.py:501-508 | the rendering of a frame list fails exactly when the list is empty, as `frames[0]` there raises IndexError |
| Tracks.SlicesExample | browser/models.py:501-508 | `[0, 1, 2, 5]` is rendered as `"[0-2, 5]"` |
| Tracks.ParseSlicesOfSlices | browser/models.py:501-508 | rendering a non-empty frame list loses nothing: parsing the `"[a-b, c]"` text gives back the frames |
| Tracks.ReadableTracks | browser/models.py:495-510 | the copy with `slices` filled in has the same features and cells, every other field of each record is unchanged, and `slices` is the rendering of its frames; it fails iff some record has no frames |
| Loading.Member | browser/models.py:803-814 | looking up a member of the archive succeeds iff the archive lists it, gives its array, and otherwise names the missing key |
| Loading.AnnKey | browser/models.py:764-771 | the label array key is `'tracked'` exactly for `.trk` files and `'annotated'` otherwise |
| Loading.GetLoad | browser/models.py:774-785 | `.npz` selects `load_npz`, otherwise `.trk` selects `load_trks`, and any other file is an error naming the file |
| Loading.LoadNpzArchive | browser/models.py:788-819 | a loaded `.npz` trial has exactly the arrays `raw` and `annotated` and no lineages |
| Loading.NpzStandardNames | browser/models.py:802-804 | with `y` among the listed files, the arrays `X` and `y` are used |
| Loading.NpzAlternateNames | browser/models.py:807-809 | with `raw` but not `y` among the listed files, the arrays `raw` and `annotated` are used |
| Loading.NpzFallback | browser/models.py:801-819 | loading fails exactly when `y` is listed without `X`, or `raw` without `annotated`, or fewer than two files are listed for the positional fallback; success returns two of the archive's arrays, and the positional fallback takes the first listed file as `raw` and the second as `annotated` |
| Loading.AsList | browser/models.py:858 | a single lineage object is put in a one-element list; a list is kept |
| Loading.KeyToInt | browser/models.py:861-862 | `int(k)` succeeds exactly on non-empty digit strings |
| Loading.IntKeys | browser/models.py:861-862 | `{int(k): v ...}` succeeds iff every key of the object converts |
| Loading.IntKeysSpec | browser/models.py:861-862 | a failure names one of the object's keys; on success the integer keys are exactly the converted keys of the object |
| Loading.Dumped | browser/models.py:861-862 | writing `int` keys as JSON turns each key into its decimal string and keeps the order |
| Loading.IntKeysOfDumped | browser/models.py:861-862 | converting the keys of a dumped object back gives the original map |
| Loading.ConvertedBelowSpec | browser/models.py:861-862 | converting the first `n` lineages succeeds iff each one's keys convert, and then gives one map per lineage |
| Loading.ConvertLineages | browser/models.py:861-862 | the loop over lineages computes exactly the conversion of all of them |
| Loading.ConvertedStaysErr | browser/models.py:861-862 | the first failing key stops the conversion for good |
| Loading.LineageMember | browser/models.py:849-855 | `lineages.json` is read first, then `lineage.json`, and with neither the file is rejected |
| Loading.LineageConversion | browser/models.py:856-862 | once a lineage member is found, converting all lineages succeeds iff every lineage object's keys convert |
| Loading.TrkTrial | browser/models.py:822-864 | a missing `raw.npy`, then a missing `tracked.npy`, is a missing-key error; `load_trks` succeeds iff both arrays and a lineage member are present and every lineage's keys convert, and then returns exactly the arrays `raw` and `tracked` |
| Loading.LoadTrkArchive | browser/models.py:822-864 | a loaded `.trk` trial has exactly the arrays `raw` and `tracked` and carries lineages |
| Loading.TrkLineages | browser/models.py:856-864 | one lineage per JSON object, each the object with its keys made integers |
| Loading.Load | browser/models.py:774-785 | loading runs the loader `get_load` selects: its error, `load_npz` or `load_trks` |
| Loading.AnnKeyLoaded | browser/models.py:111-118 | for a file that is not both `.npz` and `.trk`, a trial loaded by the selected loader holds `raw` and the array under `get_ann_key` |
| History.NewAction | browser/models.py:725-736 | a new action takes the project's `next_action_id` as its id and `action_id` as `prev`, has no name, no `next` and no changed flags, saves every label frame under its own index, and holds the current labels |
| History.Snapshot | browser/models.py:733-736 | a new action saves every label frame under its own index |
| History.KeepDirty | browser/models.py:287-288 | the frames kept by `finish_action` are exactly the saved frames whose id is in the edited set |
| History.KeepDirtyConcat | browser/models.py:287-288 | the filter works frame by frame: filtering a concatenation concatenates the filtered parts, so the kept frames stay in their order |
| History.KeepDirtyOne | browser/models.py:287-288 | a single saved frame is kept iff its id is in the edited set |
| History.LastSavedKept | browser/models.py:287-288 | after the filter, the last saved copy of an edited frame is the one it was before, and a frame not edited has none |
| History.LastSavedKeptAll | browser/models.py:287-288 | the same for every frame at once |
| History.Finished | browser/models.py:286-301 | the finished action gets its name and `next`, keeps its id, `prev` and flags, keeps exactly its edited frames with the same last copies, and keeps its labels only when they changed |
| History.Restore | browser/models.py:321-325 | writing saved frames back keeps the number of label frames |
| History.RestoreAt | browser/models.py:321-325 | after restoring, each frame is the last saved copy of it, or is left alone when none was saved |
| History.RestoreSnapshot | browser/models.py:321-325 | restoring a full snapshot gives exactly the snapshotted frames |
| History.LastSavedSnapshot | browser/models.py:733-736 | in a full snapshot the last copy of frame `k` is frame `k` |
| History.BackLinkedFrame | browser/models.py:297-303 | the back links of an action depend only on the links below it |
| History.UndoThenRedo | browser/models.py:315-368 | after an undo the history still holds, and the target's `next` leads back to where undo started |
| History.RedoThenUndo | browser/models.py:315-368 | after a redo the history still holds, and the target's `prev` leads back to where redo started |
| History.FinishKeepsWellFormed | browser/models.py:289-303 | finishing the current action and appending a new one keeps the history well formed, with the new action current |
| Projects.MaxLabel | browser/models.py:383-388 | 0 for no ids; otherwise an id that is at least every id |
| Projects.Opened | browser/models.py:111-145 | a load failure is passed on; a trial without `raw`, then one without the label array, is a missing-array error |
| Projects.OpenedLineage | browser/models.py:111-145 | a loaded trial opens iff it holds `raw` and the label array and, for a `.trk` file, exactly one lineage; a `.trk` trial with another lineage count fails with the lineage error; a `.trk` project uses its one lineage, any other none, and the arrays are the trial's |
| Projects.CreateAllCellInfo | browser/models.py:138-140 | `create_cell_info` for each feature of a fresh `Labels` gives exactly the features of the array, each with its ids and records |
| Projects.OpenedArray | browser/models.py:117-132 | the label array the constructor uses is rectangular |
| Projects.Project.constructor | browser/models.py:106-159 | dimensions from the arrays; `cell_ids`/`cell_info` from every feature, or `{0: lineage}` for `.trk` with scale factor 2 (else 1); the label frames are the annotated frames; one fresh action with id 0 and next id 1; the history is well formed |
| Projects.Project.GetMaxLabel | browser/models.py:374-388 | 0 when the current feature has no ids; otherwise an element of `cell_ids[feature]` that is at least every id there |
| Projects.Project.FinishAction | browser/models.py:273-306 | the current action is named, keeps only its edited frames, keeps its labels only when they changed, and gets `next` = old `next_action_id`; a new action with that id and `prev` = old `action_id` is appended and made current; `next_action_id` grows by 1; the history stays well formed |
| Projects.Project.RestoreFrames | browser/models.py:321-325 | each saved frame is written back to its `frame_id`, in order; nothing else changes |
| Projects.Project.Undo | browser/models.py:308-339 | with no previous action nothing changes; otherwise the previous action becomes current, its saved frames are written back, and its saved labels replace the current ones when present; the history stays well formed |
| Projects.Project.Redo | browser/models.py:341-372 | with no next action nothing changes; otherwise the next action becomes current with its frames and labels restored the same way; the history stays well formed |
| Projects.Project.UndoRedo | browser/models.py:308-372 | an undo followed by a redo returns `action_id` to its value before |
| Projects.Create | browser/models.py:213-239 | a project is created exactly when the file opens, with the state the constructor promises; otherwise the error is the one opening the file gives |
| Rgb.Clip | browser/models.py:657-670 | `np.clip(.., 0, 255)`: values up to 255 are kept, larger ones become 255 |
| Rgb.Mix | browser/models.py:651-670 | mixing one channel into a pixel gives three values, each at most 255; channels 0-2 are copied into their own output |
| Rgb.MixedUpTo | browser/models.py:651-670 | after any number of mixed channels a pixel has three values, each at most 255 |
| Rgb.ClipAdd | browser/models.py:657-670 | clipping after each addition equals clipping the whole sum |
| Rgb.FedSumBefore | browser/models.py:651-656 | an output channel gets nothing before its own input channel comes |
| Rgb.MixedIsClippedSum | browser/models.py:651-672 | each output channel is `min(255, sum of the inputs mapped to it)` |
| Rgb.MixedPrefix | browser/models.py:651 | the result depends only on the channels the loop reads |
| Rgb.ExtraChannelsIgnored | browser/models.py:651 | input channels from index 6 on do not change the result |
| Rgb.NoWrap | browser/models.py:648-670 | every sum the channel loop forms, an output value so far plus the next input, is at most 510, so the `uint16` image never wraps |
| Rgb.ReduceToRgb | browser/models.py:633-672 | the channel loop yields, per pixel, the mixing of its first `min(6, channels)` values |
| Rgb.ReducedPixel | browser/models.py:651-672 | every output is the capped sum of its inputs and at most 255 |
| Canvas.ClampShift | browser/static/js/canvas.js:180-184 | the clamped shift keeps the window edge within `[0, room]`, is the requested shift when that fits, and otherwise stops at the nearer edge |
| Canvas.ExtentFits | browser/static/js/canvas.js:216-217 | at a zoom of 100 or more the window is no larger than the image |
| Canvas.IndexInside | browser/static/js/canvas.js:94-96 | an in-range cursor over a window inside the image yields an image index within the image |
| Canvas.Lookup | browser/static/js/canvas.js:98 | `Math.abs(seg[y][x])` throws exactly when the array is `null` or the row index is `null` or outside it; otherwise it is NaN exactly when the pixel index is `null` or outside the row, and else the absolute value of that pixel |
| Canvas.LookupShaped | browser/static/js/canvas.js:98 | on a label image of the canvas size, indices inside the image give the absolute label there |
| Canvas.CanvasState.constructor | browser/static/js/canvas.js:5-48 | the initial window is the whole image at zoom 100, inside the image; the cursor sits at minus the padding, with label 0, no label image and no trace |
| Canvas.CanvasState.ScaledWidth | browser/static/js/canvas.js:63-65 | the image's width in pane pixels: divided by `scale` it is the width in image pixels, and it is positive iff the image is |
| Canvas.CanvasState.ScaledHeight | browser/static/js/canvas.js:67-69 | the image's height in pane pixels: divided by `scale` it is the height in image pixels, and it is positive iff the image is |
| Canvas.CanvasState.InRangeAt | browser/static/js/canvas.js:77-82 | a pane position is in range iff, measured in image pixels, it lies in `[0, width) x [0, height)` |
| Canvas.CanvasState.InRange | browser/static/js/canvas.js:77-82 | the recorded cursor is in range iff, measured in image pixels, it lies in `[0, width) x [0, height)` |
| Canvas.CanvasState.LabelAt | browser/static/js/canvas.js:55-60 | the value the setter assigns to `label`: 0 out of range; in range, the lookup at the stored indices, which throws before any index is stored and is the absolute label when the indices lie inside a label image of the canvas size |
| Canvas.CanvasState.SetSegArray | browser/static/js/canvas.js:54-61 | stores the array in every case; sets `label` as `LabelAt` says unless the lookup throws, which it reports and which leaves `label` unchanged; nothing else changes |
| Canvas.CanvasState.ClearTrace | browser/static/js/canvas.js:72-74 | `trace` becomes empty and no other field changes |
| Canvas.CanvasState.Cursor | browser/static/js/canvas.js:84-101 | the view after a mouse move: the raw position and the position minus the padding are recorded; in range, the image indices under the cursor are stored and the label is the lookup there, or unchanged with a TypeError when the lookup throws; out of range, the indices are kept and the label is 0; nothing else changes |
| Canvas.CanvasState.CursorInImage | browser/static/js/canvas.js:94-98 | with the window inside the image and a label image of the canvas size, a cursor in range never throws, stores indices inside the image and reads the absolute label there |
| Canvas.CanvasState.UpdateCursorPosition | browser/static/js/canvas.js:84-101 | the canvas moves to exactly the view `Cursor` describes, and the result reports whether it threw; validity and whether the window is inside are kept |
| Canvas.Pan.constructor | browser/static/js/canvas.js:177-185 | the stored shifts are the requested ones negated and clamped, so that on a valid canvas the shifted window lands inside the image wherever the window starts |
| Canvas.Pan.Do | browser/static/js/canvas.js:187-194 | moves the window by the clamped shift and keeps validity; from its start position the window ends inside the image |
| Canvas.Pan.Redo | browser/static/js/canvas.js:196-198 | the same as `do` |
| Canvas.Pan.Undo | browser/static/js/canvas.js:200-202 | moves the window back by the shift and keeps validity; right after `do` on a window that started inside, it returns exactly to the start |
| Canvas.LifoUndoLeavesImage | browser/static/js/canvas.js:177-249 | undoing zoom in, pan, zoom out in reverse order on a 100 x 100 image leaves the window at `sx = -50`, off the image, and the cursor over the image then stores `imgX = -49` and reads a NaN label |
| Canvas.ZoomTarget | browser/static/js/canvas.js:211 | the new zoom is the requested one, raised to `zoomLimit` when below it |
| Canvas.Zoom.constructor | browser/static/js/canvas.js:206-213 | records the cursor and the old zoom; the new zoom is never below `zoomLimit` |
| Canvas.Zoom.AfterZoomFits | browser/static/js/canvas.js:215-237 | a zoom to any level at or above the limit keeps the view valid and puts the window inside the image, even from a window that was off it |
| Canvas.Zoom.ChangeZoom | browser/static/js/canvas.js:215-237 | sets the zoom and window size, then shifts the window towards the cursor, clamped at the image edges; the window ends inside the image from any valid view |
| Canvas.Zoom.Do | browser/static/js/canvas.js:239-241 | zooms to `newValue` from any valid view; the window ends inside the image |
| Canvas.Zoom.Redo | browser/static/js/canvas.js:243-245 | the same as `do` |
| Canvas.Zoom.Undo | browser/static/js/canvas.js:247-249 | zooms back to `oldValue` from any valid view; the window ends inside the image; it is recomputed from the current view, not restored, so it need not return to where it was even straight after a clamped `do` |

## Left out

- The S3 client, `load`, `tempfile`, `tarfile`, `np.load`, `json.loads` and byte decoding are I/O. Archives are given as maps of arrays and parsed JSON objects.
- `is_npz_file` and `is_trk_file` are defined outside the modelled files. They are parameters.
- SQLAlchemy columns and relationships, `db.session` (add, commit, expunge, dirty), `compile_pickle_mysql` and `MutableNdarray` are persistence. The edited frames of `finish_action` are a given set of frame ids.
- `Labels.update`, the `finish` methods, `Project.update`, `Project.get` and the action timestamp are persistence or clock reads.
- `make_payload`, `_get_label_arr` and the PNG helpers, `rescale_95`, `rescale_raw`, the colormap and the rendering methods of the canvas are floating-point numerics or drawing.
- Logging and `timeit` are left out.
- The `raw.ndim == 3` branch of the constructor (`np.expand_dims`) is left out. The arrays are given four-dimensional.
- `raw_frames` and `rgb_frames` are not kept by `Project`. Only the label frames take part in undo and redo.
- Projects.Opened: the constructor's optional `raw_key` and `annotated_key` arguments (browser/models.py:106-112) are fixed to their defaults, `raw` and `get_ann_key(filename)`. The only call, in `Project.create` (browser/models.py:228), passes neither.
- Projects.Project.constructor: the same two arguments are fixed to their defaults. The dimensions are read off the first row, column and pixel, as numpy shapes are.
- Projects.Create: requires `Rectangular`, which numpy arrays always are.
- CellInfo.Depth: an array with a zero-length axis has no features, where numpy would still report `shape[-1]`.
- Projects.Project.FinishAction: `y_changed` and `labels_changed` are set by the edit engine, which is not part of this model. They are read as given.
- History.NewAction: the saved labels are the live `Labels` object, where the source pickles a copy into the `labels` column and undo and redo load that copy. The pickled snapshot is not modelled. Nothing in the model changes a `Labels` after the first action refers to it, so the restored contents are the same.
- History.Snapshot: a saved frame is a value snapshot, not a shared numpy buffer, so aliasing between a restored frame and its history row is not modelled.
- Loading.KeyToInt: accepts plain digit strings only. Python's `int` would also take a sign, surrounding whitespace and underscores, which JSON keys written by the tracking tools do not contain.
- Canvas.CanvasState.constructor: requires a positive width, height and scale. A zero size makes the zoom divisions undefined.
- Canvas.CanvasState.Cursor: `imgX` and `imgY` are computed with `Floor` on exact reals, not IEEE doubles.
- Canvas.Pan.Do: the result is proved inside the image only when the window is where the `Pan` was built and has the same size. The source itself breaks this. A zoom's undo recomputes the window instead of restoring it, so undoing in reverse order through a pan can move the window off the image. `LifoUndoLeavesImage` shows this, and the model keeps the source's behaviour there.
- Canvas.CanvasState.UpdateCursorPosition: a TypeError is reported as a result, not thrown. The fields the method assigned before the failing lookup keep their new values, as in JavaScript.
- Canvas.Zoom.Undo: promises no return to the window from before `do`, because the source recomputes the window instead of restoring it. A `do` that clamped the window leaves an `undo` that lands elsewhere.
- Canvas.Zoom.ChangeZoom: the proportional shift uses exact real division; NaN and rounding are not modelled.
- The other canvas members (`onCanvas`, `isPressed`, `storedClick*`, `isSpacedown` and the borders) are not read by the modelled methods and are left out.

