/**
 * How browser/models.py chooses a loader by file type, which arrays it takes
 * out of an `.npz` archive, which members it reads out of a `.trk` archive,
 * and how it turns the lineage document into records keyed by integers.
 *
 * The byte-level decoding (`np.load`, `tarfile`, `json.loads`) is not part of
 * this model: an archive arrives here already split into named arrays and
 * named JSON documents.
 */
module Loading {
  import opened Wrappers
  import Decimal
  import opened CellInfo

  /** The two loaders `get_load` can return. */
  datatype Loader = LoadNpz | LoadTrks

  datatype LoadError =
    | CannotLoad(filename: string)  // ValueError from get_load
    | MissingKey(key: string)       // KeyError from an archive or trial lookup
    | TooFewArrays                  // IndexError from npz.files[1]
    | NoLineage                     // ValueError: neither lineage member exists
    | BadKey(key: string)           // ValueError from int(k) on a lineage key

  /** `get_ann_key`: where the label array is found in a loaded trial. */
  function AnnKey(filename: string, isTrk: string -> bool): (k: string)
    ensures k == "tracked" <==> isTrk(filename)
    ensures k != "tracked" ==> k == "annotated"
  {
    if isTrk(filename) then "tracked" else "annotated"
  }

  /** `get_load`: `.npz` first, then `.trk`, otherwise a ValueError. */
  function GetLoad(filename: string, isNpz: string -> bool, isTrk: string -> bool): (r: Result<Loader, LoadError>)
    ensures r.Err? <==> !isNpz(filename) && !isTrk(filename)
    ensures r.Err? ==> r.error == CannotLoad(filename)
    ensures isNpz(filename) ==> r == Ok(LoadNpz)
    ensures r == Ok(LoadTrks) <==> !isNpz(filename) && isTrk(filename)
  {
    if isNpz(filename) then Ok(LoadNpz)
    else if isTrk(filename) then Ok(LoadTrks)
    else Err(CannotLoad(filename))
  }

  /** An `.npz` archive: its member names in archive order and the array under each. */
  datatype Npz = Npz(files: seq<string>, arrays: map<string, Volume>)

  /** Exactly the listed members have arrays, as `np.load` guarantees. */
  type NpzArchive = a: Npz | forall k :: k in a.arrays <==> k in a.files
    witness Npz([], map[])

  /** `npz[key]`, with the KeyError of a missing member. */
  function Member(npz: NpzArchive, key: string): (r: Result<Volume, LoadError>)
    ensures r.Ok? <==> key in npz.files
    ensures r.Ok? ==> r.value == npz.arrays[key]
    ensures r.Err? ==> r.error == MissingKey(key)
  {
    if key in npz.files then Ok(npz.arrays[key]) else Err(MissingKey(key))
  }

  /** What a loader returns: named arrays, and the lineages of a `.trk` file. */
  datatype Trial = Trial(arrays: map<string, Volume>, lineages: Option<seq<map<nat, CellRecord>>>)

  function NpzTrial(raw: Volume, annotated: Volume): Trial {
    Trial(map["raw" := raw, "annotated" := annotated], None)
  }

  /**
   * `load_npz` after decoding: `X`/`y` when `y` is present, else
   * `raw`/`annotated` when `raw` is present, else the first two members.
   */
  function LoadNpzArchive(npz: NpzArchive): (r: Result<Trial, LoadError>)
    ensures r.Ok? ==> r.value.arrays.Keys == {"raw", "annotated"} && r.value.lineages.None?
  {
    if "y" in npz.files then
      var raw :- Member(npz, "X");
      Ok(NpzTrial(raw, npz.arrays["y"]))
    else if "raw" in npz.files then
      var annotated :- Member(npz, "annotated");
      Ok(NpzTrial(npz.arrays["raw"], annotated))
    else if |npz.files| < 2 then Err(TooFewArrays)
    else Ok(NpzTrial(npz.arrays[npz.files[0]], npz.arrays[npz.files[1]]))
  }

  /** The standard names `X`/`y` win over everything else in the archive. */
  lemma NpzStandardNames(npz: NpzArchive)
    requires "X" in npz.files && "y" in npz.files
    ensures LoadNpzArchive(npz) == Ok(NpzTrial(npz.arrays["X"], npz.arrays["y"]))
  {
  }

  /** Without `y`, the alternate names `raw`/`annotated` are used when `raw` is present. */
  lemma NpzAlternateNames(npz: NpzArchive)
    requires "y" !in npz.files && "raw" in npz.files && "annotated" in npz.files
    ensures LoadNpzArchive(npz) == Ok(NpzTrial(npz.arrays["raw"], npz.arrays["annotated"]))
  {
  }

  /**
   * Loading fails exactly when the chosen naming is incomplete or no naming
   * applies and fewer than two members exist; a loaded array is always a
   * member of the archive, and with neither `y` nor `raw` listed the first
   * listed member is the raw image and the second one the labels.
   */
  lemma NpzFallback(npz: NpzArchive)
    ensures LoadNpzArchive(npz).Err? <==>
      || ("y" in npz.files && "X" !in npz.files)
      || ("y" !in npz.files && "raw" in npz.files && "annotated" !in npz.files)
      || ("y" !in npz.files && "raw" !in npz.files && |npz.files| < 2)
    ensures LoadNpzArchive(npz).Ok? ==>
      LoadNpzArchive(npz).value.arrays["raw"] in npz.arrays.Values &&
      LoadNpzArchive(npz).value.arrays["annotated"] in npz.arrays.Values
    ensures "y" !in npz.files && "raw" !in npz.files && |npz.files| >= 2 ==>
      LoadNpzArchive(npz) == Ok(NpzTrial(npz.arrays[npz.files[0]], npz.arrays[npz.files[1]]))
  {
    if "y" !in npz.files && "raw" !in npz.files && |npz.files| >= 2 {
      assert npz.files[0] in npz.arrays && npz.files[1] in npz.arrays;
    }
  }

  /** A JSON object as `json.loads` yields it: its keys in document order. */
  type JsonObject = seq<(string, CellRecord)>

  /** A lineage document holds either a list of lineages or one lineage. */
  datatype LineageDoc = LineageList(objects: seq<JsonObject>) | SingleLineage(single: JsonObject)

  /** A `.trk` archive: its decoded `.npy` members and its decoded `.json` members. */
  datatype TrkArchive = TrkArchive(npy: map<string, Volume>, json: map<string, LineageDoc>)

  /** `lineages if isinstance(lineages, list) else [lineages]`. */
  function AsList(doc: LineageDoc): (r: seq<JsonObject>)
    ensures doc.SingleLineage? ==> r == [doc.single]
    ensures doc.LineageList? ==> r == doc.objects
  {
    match doc
    case LineageList(objects) => objects
    case SingleLineage(single) => [single]
  }

  /** `int(k)` on a lineage key; only plain decimal numerals are read. */
  function KeyToInt(k: string): (r: Result<nat, LoadError>)
    ensures r.Ok? <==> k != [] && Decimal.IsDigits(k)
  {
    if k != [] && Decimal.IsDigits(k) then Ok(Decimal.ParseNat(k)) else Err(BadKey(k))
  }

  /** `{int(k): v for k, v in tracks.items()}`: later keys overwrite earlier equal ones. */
  function IntKeys(obj: JsonObject): (r: Result<map<nat, CellRecord>, LoadError>)
    ensures r.Ok? <==> forall i :: 0 <= i < |obj| ==> KeyToInt(obj[i].0).Ok?
    decreases |obj|
  {
    if obj == [] then Ok(map[])
    else
      var m :- IntKeys(obj[..|obj| - 1]);
      var (k, v) := obj[|obj| - 1];
      var n :- KeyToInt(k);
      Ok(m[n := v])
  }

  /** The converted keys are exactly the keys read as integers; a failure names an offending key. */
  lemma {:induction false} IntKeysSpec(obj: JsonObject)
    ensures IntKeys(obj).Err? ==> exists i :: 0 <= i < |obj| && IntKeys(obj).error == BadKey(obj[i].0)
    ensures IntKeys(obj).Ok? ==>
      forall n :: n in IntKeys(obj).value <==> exists i :: 0 <= i < |obj| && KeyToInt(obj[i].0) == Ok(n)
    decreases |obj|
  {
    if obj != [] {
      var init := obj[..|obj| - 1];
      var last := |obj| - 1;
      IntKeysSpec(init);
      assert forall i :: 0 <= i < |init| ==> init[i] == obj[i];
      if IntKeys(obj).Ok? {
        var m := IntKeys(init).value;
        forall n
          ensures n in IntKeys(obj).value <==> exists i :: 0 <= i < |obj| && KeyToInt(obj[i].0) == Ok(n)
        {
          if n in IntKeys(obj).value && n != KeyToInt(obj[last].0).value {
            assert n in m;
            var i :| 0 <= i < |init| && KeyToInt(init[i].0) == Ok(n);
            assert KeyToInt(obj[i].0) == Ok(n);
          }
          if exists i :: 0 <= i < |obj| && KeyToInt(obj[i].0) == Ok(n) {
            var i :| 0 <= i < |obj| && KeyToInt(obj[i].0) == Ok(n);
            if i < last {
              assert KeyToInt(init[i].0) == Ok(n);
            }
          }
        }
      } else if IntKeys(init).Ok? {
        assert IntKeys(obj).error == BadKey(obj[last].0);
      } else {
        var i :| 0 <= i < |init| && IntKeys(init).error == BadKey(init[i].0);
        assert IntKeys(obj).error == BadKey(obj[i].0);
      }
    }
  }

  /** The map a list of integer-keyed entries builds, later entries winning. */
  function MapOf(entries: seq<(nat, CellRecord)>): map<nat, CellRecord>
    decreases |entries|
  {
    if entries == [] then map[]
    else MapOf(entries[..|entries| - 1])[entries[|entries| - 1].0 := entries[|entries| - 1].1]
  }

  /** `json.dumps` of an integer-keyed dict: every key rendered with `str`. */
  function Dumped(entries: seq<(nat, CellRecord)>): (r: JsonObject)
    ensures |r| == |entries|
    ensures forall i :: 0 <= i < |entries| ==> r[i] == (Decimal.NatToString(entries[i].0), entries[i].1)
    decreases |entries|
  {
    if entries == [] then []
    else Dumped(entries[..|entries| - 1]) + [(Decimal.NatToString(entries[|entries| - 1].0), entries[|entries| - 1].1)]
  }

  /** The key conversion undoes the rendering of integer keys as JSON strings. */
  lemma {:induction false} IntKeysOfDumped(entries: seq<(nat, CellRecord)>)
    ensures IntKeys(Dumped(entries)) == Ok(MapOf(entries))
    decreases |entries|
  {
    if entries != [] {
      var d := Dumped(entries);
      var init := entries[..|entries| - 1];
      assert d[..|d| - 1] == Dumped(init);
      IntKeysOfDumped(init);
      Decimal.ParseNatToString(entries[|entries| - 1].0);
    }
  }

  /** The lineage list with every object's keys converted, the first bad key raising. */
  function ConvertedBelow(objects: seq<JsonObject>, n: nat): Result<seq<map<nat, CellRecord>>, LoadError>
    requires n <= |objects|
  {
    if n == 0 then Ok([])
    else
      var done :- ConvertedBelow(objects, n - 1);
      var m :- IntKeys(objects[n - 1]);
      Ok(done + [m])
  }

  /** A successful conversion keeps one lineage per object, each with its keys read as integers. */
  lemma {:induction false} ConvertedBelowSpec(objects: seq<JsonObject>, n: nat)
    requires n <= |objects|
    ensures ConvertedBelow(objects, n).Ok? <==> forall i :: 0 <= i < n ==> IntKeys(objects[i]).Ok?
    ensures ConvertedBelow(objects, n).Ok? ==>
      |ConvertedBelow(objects, n).value| == n &&
      forall i :: 0 <= i < n ==> ConvertedBelow(objects, n).value[i] == IntKeys(objects[i]).value
  {
    if n > 0 {
      ConvertedBelowSpec(objects, n - 1);
    }
  }

  /**
   * The loop `for i, tracks in enumerate(lineages): lineages[i] = {...}`,
   * which replaces each lineage in place by its integer-keyed copy.
   */
  method ConvertLineages(objects: seq<JsonObject>) returns (r: Result<seq<map<nat, CellRecord>>, LoadError>)
    ensures r == ConvertedBelow(objects, |objects|)
  {
    var lineages: seq<map<nat, CellRecord>> := [];
    var i := 0;
    while i < |objects|
      invariant 0 <= i <= |objects|
      invariant ConvertedBelow(objects, i) == Ok(lineages)
    {
      var converted := IntKeys(objects[i]);
      if converted.Err? {
        ConvertedStaysErr(objects, i + 1, |objects|);
        return Err(converted.error);
      }
      lineages := lineages + [converted.value];
      i := i + 1;
    }
    return Ok(lineages);
  }

  /** Once a conversion has failed, converting more objects reports the same error. */
  lemma {:induction false} ConvertedStaysErr(objects: seq<JsonObject>, n: nat, m: nat)
    requires n <= m <= |objects| && ConvertedBelow(objects, n).Err?
    ensures ConvertedBelow(objects, m) == ConvertedBelow(objects, n)
    decreases m - n
  {
    if n < m {
      ConvertedStaysErr(objects, n, m - 1);
    }
  }

  /** `trks.getmember('lineages.json')`, then `'lineage.json'`, else a ValueError. */
  function LineageMember(trk: TrkArchive): (r: Result<LineageDoc, LoadError>)
    ensures r.Err? <==> "lineages.json" !in trk.json && "lineage.json" !in trk.json
    ensures "lineages.json" in trk.json ==> r == Ok(trk.json["lineages.json"])
    ensures "lineages.json" !in trk.json && "lineage.json" in trk.json ==> r == Ok(trk.json["lineage.json"])
  {
    if "lineages.json" in trk.json then Ok(trk.json["lineages.json"])
    else if "lineage.json" in trk.json then Ok(trk.json["lineage.json"])
    else Err(NoLineage)
  }

  /** `trks.extractfile(name)`, with the KeyError of a missing member. */
  function NpyMember(trk: TrkArchive, name: string): Result<Volume, LoadError> {
    if name in trk.npy then Ok(trk.npy[name]) else Err(MissingKey(name))
  }

  lemma LineageConversion(trk: TrkArchive)
    ensures LineageMember(trk).Ok? ==>
      var objects := AsList(LineageMember(trk).value);
      ConvertedBelow(objects, |objects|).Ok? <==> forall o :: o in objects ==> IntKeys(o).Ok?
  {
    if LineageMember(trk).Ok? {
      var objects := AsList(LineageMember(trk).value);
      ConvertedBelowSpec(objects, |objects|);
    }
  }

  /** What `load_trks` returns for an archive. */
  function TrkTrial(trk: TrkArchive): (r: Result<Trial, LoadError>)
    ensures "raw.npy" !in trk.npy ==> r == Err(MissingKey("raw.npy"))
    ensures "raw.npy" in trk.npy && "tracked.npy" !in trk.npy ==> r == Err(MissingKey("tracked.npy"))
    ensures r.Ok? <==>
      && "raw.npy" in trk.npy && "tracked.npy" in trk.npy && LineageMember(trk).Ok?
      && forall o :: o in AsList(LineageMember(trk).value) ==> IntKeys(o).Ok?
    ensures r.Ok? ==> r.value.arrays == map["raw" := trk.npy["raw.npy"], "tracked" := trk.npy["tracked.npy"]]
  {
    LineageConversion(trk);

    var raw :- NpyMember(trk, "raw.npy");
    var tracked :- NpyMember(trk, "tracked.npy");
    var doc :- LineageMember(trk);
    var lineages :- ConvertedBelow(AsList(doc), |AsList(doc)|);
    Ok(Trial(map["raw" := raw, "tracked" := tracked], Some(lineages)))
  }

  /** `load_trks` after the archive has been opened. */
  method LoadTrkArchive(trk: TrkArchive) returns (r: Result<Trial, LoadError>)
    ensures r == TrkTrial(trk)
    ensures r.Ok? ==> r.value.arrays.Keys == {"raw", "tracked"} && r.value.lineages.Some?
  {
    var raw :- NpyMember(trk, "raw.npy");
    var tracked :- NpyMember(trk, "tracked.npy");
    var doc :- LineageMember(trk);
    var lineages :- ConvertLineages(AsList(doc));
    return Ok(Trial(map["raw" := raw, "tracked" := tracked], Some(lineages)));
  }

  /** A `.trk` archive yields one lineage per lineage object, keys read as integers. */
  lemma TrkLineages(trk: TrkArchive)
    requires TrkTrial(trk).Ok?
    ensures var objects := AsList(LineageMember(trk).value);
      var lineages := TrkTrial(trk).value.lineages.value;
      |lineages| == |objects| &&
      forall i :: 0 <= i < |objects| ==> IntKeys(objects[i]) == Ok(lineages[i])
  {
    var objects := AsList(LineageMember(trk).value);
    ConvertedBelowSpec(objects, |objects|);
  }

  /**
   * The bytes fetched for a file, as each of the two loaders would read
   * them; the loader `get_load` picks decides which reading is used.
   */
  datatype Body = Body(asNpz: NpzArchive, asTrk: TrkArchive)

  /** What `get_load(filename)(body)` returns. */
  function Loaded(filename: string, isNpz: string -> bool, isTrk: string -> bool, body: Body): Result<Trial, LoadError> {
    match GetLoad(filename, isNpz, isTrk)
    case Err(e) => Err(e)
    case Ok(LoadNpz) => LoadNpzArchive(body.asNpz)
    case Ok(LoadTrks) => TrkTrial(body.asTrk)
  }

  /** `get_load(filename)(body)`. */
  method Load(filename: string, isNpz: string -> bool, isTrk: string -> bool, body: Body)
    returns (r: Result<Trial, LoadError>)
    ensures GetLoad(filename, isNpz, isTrk).Err? ==> r == Err(CannotLoad(filename))
    ensures GetLoad(filename, isNpz, isTrk) == Ok(LoadNpz) ==> r == LoadNpzArchive(body.asNpz)
    ensures GetLoad(filename, isNpz, isTrk) == Ok(LoadTrks) ==> r == TrkTrial(body.asTrk)
    ensures r == Loaded(filename, isNpz, isTrk, body)
  {
    var loader :- GetLoad(filename, isNpz, isTrk);
    if loader == LoadNpz {
      r := LoadNpzArchive(body.asNpz);
    } else {
      r := LoadTrkArchive(body.asTrk);
    }
  }

  /**
   * The annotation key of a file names an array its loader returns, unless
   * the file counts as both `.npz` and `.trk`.
   */
  lemma AnnKeyLoaded(filename: string, isNpz: string -> bool, isTrk: string -> bool, body: Body)
    requires !(isNpz(filename) && isTrk(filename))
    requires Loaded(filename, isNpz, isTrk, body).Ok?
    ensures var trial := Loaded(filename, isNpz, isTrk, body).value;
      "raw" in trial.arrays && AnnKey(filename, isTrk) in trial.arrays
  {
  }
}
