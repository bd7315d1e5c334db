/**
 * `consecutive` and `Labels.readable_tracks` of browser/models.py: each
 * frame list is cut into maximal runs of step 1 and rendered as
 * `"[a-b, c]"` in the record's `slices` field.
 */
module Tracks {
  import opened Wrappers
  import Decimal
  import opened CellInfo

  /** `consecutive(data)`: `data` split before every element that is not its predecessor plus one. */
  function Consecutive(data: seq<nat>): (runs: seq<seq<nat>>)
    ensures |runs| >= 1
    decreases |data|
  {
    if |data| <= 1 then [data]
    else
      var rest := Consecutive(data[1..]);
      if data[1] == data[0] + 1 then [[data[0]] + rest[0]] + rest[1..]
      else [[data[0]]] + rest
  }

  function Flatten(runs: seq<seq<nat>>): seq<nat> {
    if runs == [] then [] else runs[0] + Flatten(runs[1..])
  }

  /** Each element of `run` is its predecessor plus one. */
  predicate StepOne(run: seq<nat>) {
    forall i :: 0 < i < |run| ==> run[i] == run[i - 1] + 1
  }

  function Last(run: seq<nat>): nat
    requires run != []
  {
    run[|run| - 1]
  }

  /** Runs that are non-empty, step-1 inside, and broken exactly where the step is not 1. */
  predicate MaximalRuns(runs: seq<seq<nat>>) {
    && (forall k :: 0 <= k < |runs| ==> runs[k] != [] && StepOne(runs[k]))
    && Breaks(runs)
  }

  lemma FlattenCons(run: seq<nat>, runs: seq<seq<nat>>)
    ensures Flatten([run] + runs) == run + Flatten(runs)
  {
    assert ([run] + runs)[1..] == runs;
  }

  /** The runs of `consecutive` concatenate back to `data`; an empty `data` gives the one empty run. */
  lemma {:induction false} ConsecutiveFlatten(data: seq<nat>)
    ensures Flatten(Consecutive(data)) == data
    ensures data == [] ==> Consecutive(data) == [[]]
    decreases |data|
  {
    if |data| <= 1 {
      FlattenCons(data, []);
    } else {
      var rest := Consecutive(data[1..]);
      ConsecutiveFlatten(data[1..]);
      FlattenCons(rest[0], rest[1..]);
      assert [rest[0]] + rest[1..] == rest;
      assert data == [data[0]] + data[1..];
      if data[1] == data[0] + 1 {
        FlattenCons([data[0]] + rest[0], rest[1..]);
      } else {
        FlattenCons([data[0]], rest);
      }
    }
  }

  /** For non-empty `data` every run is non-empty and step-1, and the first run starts at `data[0]`. */
  lemma {:induction false} ConsecutiveRuns(data: seq<nat>)
    requires data != []
    ensures forall k :: 0 <= k < |Consecutive(data)| ==> Consecutive(data)[k] != [] && StepOne(Consecutive(data)[k])
    ensures Consecutive(data)[0][0] == data[0]
    decreases |data|
  {
    if |data| > 1 {
      ConsecutiveRuns(data[1..]);
      var rest := Consecutive(data[1..]);
      if data[1] == data[0] + 1 {
        var first := [data[0]] + rest[0];
        assert forall i :: 0 < i < |first| ==> first[i] == first[i - 1] + 1 by {
          forall i | 0 < i < |first|
            ensures first[i] == first[i - 1] + 1
          {
            if i > 1 {
              assert first[i] == rest[0][i - 1] && first[i - 1] == rest[0][i - 2];
            }
          }
        }
      }
    }
  }

  /** Neighbouring runs meet where the step is not 1. */
  predicate Breaks(runs: seq<seq<nat>>)
    requires forall k :: 0 <= k < |runs| ==> runs[k] != []
  {
    forall k :: 0 <= k < |runs| - 1 ==> runs[k + 1][0] != Last(runs[k]) + 1
  }

  lemma BreaksPrepend(run: seq<nat>, rest: seq<seq<nat>>)
    requires run != [] && rest != [] && forall k :: 0 <= k < |rest| ==> rest[k] != []
    requires Breaks(rest) && rest[0][0] != Last(run) + 1
    ensures Breaks([run] + rest)
  {
    var runs := [run] + rest;
    forall k | 0 < k < |runs| - 1
      ensures runs[k + 1][0] != Last(runs[k]) + 1
    {
      assert runs[k] == rest[k - 1] && runs[k + 1] == rest[k];
    }
  }

  lemma BreaksReplaceHead(run: seq<nat>, rest: seq<seq<nat>>)
    requires run != [] && rest != [] && forall k :: 0 <= k < |rest| ==> rest[k] != []
    requires Breaks(rest) && Last(run) == Last(rest[0])
    ensures Breaks([run] + rest[1..])
  {
    var runs := [run] + rest[1..];
    forall k | 0 <= k < |runs| - 1
      ensures runs[k + 1][0] != Last(runs[k]) + 1
    {
      assert runs[k + 1] == rest[k + 1];
      if k > 0 {
        assert runs[k] == rest[k];
      }
    }
  }

  /** Neighbouring runs of `consecutive` meet where the step is not 1. */
  lemma {:induction false} ConsecutiveBreaks(data: seq<nat>)
    requires data != []
    ensures MaximalRuns(Consecutive(data))
    decreases |data|
  {
    ConsecutiveRuns(data);
    if |data| > 1 {
      ConsecutiveBreaks(data[1..]);
      ConsecutiveRuns(data[1..]);
      var rest := Consecutive(data[1..]);
      if data[1] == data[0] + 1 {
        var first := [data[0]] + rest[0];
        assert Last(first) == Last(rest[0]);
        BreaksReplaceHead(first, rest);
      } else {
        BreaksPrepend([data[0]], rest);
      }
    }
  }

  /** `"{}"` of the first frame of a run of one, else `"{}-{}"` of its first and last frame. */
  function FormatRun(run: seq<nat>): (r: string)
    requires run != []
    ensures r != [] && Decimal.IsDigit(r[0])
    ensures ',' !in r && ' ' !in r
    ensures '-' in r <==> |run| > 1
  {
    if |run| == 1 then Decimal.NatToString(run[0])
    else Decimal.NatToString(run[0]) + ("-" + Decimal.NatToString(Last(run)))
  }

  /** `', '.join(...)` over non-empty runs. */
  function JoinRuns(runs: seq<seq<nat>>): (r: string)
    requires forall k :: 0 <= k < |runs| ==> runs[k] != []
    ensures r == [] <==> runs == []
    ensures runs != [] ==> FormatRun(runs[0]) <= r
  {
    if runs == [] then ""
    else if |runs| == 1 then FormatRun(runs[0])
    else FormatRun(runs[0]) + (", " + JoinRuns(runs[1..]))
  }

  /** `JoinRuns` puts exactly one comma between neighbouring runs and no other. */
  lemma {:induction false} JoinRunsCommas(runs: seq<seq<nat>>)
    requires forall k :: 0 <= k < |runs| ==> runs[k] != []
    ensures runs != [] ==> multiset(JoinRuns(runs))[','] == |runs| - 1
    decreases |runs|
  {
    if |runs| > 1 {
      JoinRunsCommas(runs[1..]);
      var head, tail := FormatRun(runs[0]), JoinRuns(runs[1..]);
      assert multiset(head)[','] == 0;
      assert multiset(", ")[','] == 1;
      assert multiset(head + (", " + tail)) == multiset(head) + (multiset(", ") + multiset(tail));
    } else if |runs| == 1 {
      assert multiset(JoinRuns(runs))[','] == 0;
    }
  }

  datatype TrackError = EmptyFrames

  /**
   * The `slices` string of one frame list. An empty list gives the single
   * empty run `[]`, whose first element does not exist: the source raises
   * an IndexError there.
   */
  function Slices(frames: seq<nat>): (r: Result<string, TrackError>)
    ensures r.Err? <==> frames == []
  {
    if frames == [] then Err(EmptyFrames)
    else
      ConsecutiveRuns(frames);
      Ok("[" + JoinRuns(Consecutive(frames)) + "]")
  }

  /** The record with its `slices` entry set, as `label['slices'] = ...` does. */
  function WithSlices(r: CellRecord, text: string): CellRecord {
    match r
    case StackCell(l, fs, _) => StackCell(l, fs, text)
    case TrackCell(l, fs, ds, fd, p, c, _) => TrackCell(l, fs, ds, fd, p, c, Some(text))
  }

  predicate AllFramesNonEmpty(info: map<nat, map<nat, CellRecord>>) {
    forall f, c :: f in info && c in info[f] ==> info[f][c].frames != []
  }

  /**
   * `readable_tracks`: a copy of `cell_info` in which every record carries its
   * rendered `slices`; `cell_info` itself is a value and stays as it was.
   */
  function ReadableTracks(info: map<nat, map<nat, CellRecord>>): (r: Result<map<nat, map<nat, CellRecord>>, TrackError>)
    ensures r.Ok? <==> AllFramesNonEmpty(info)
    ensures r.Ok? ==> r.value.Keys == info.Keys
    ensures r.Ok? ==> forall f :: f in info ==> r.value[f].Keys == info[f].Keys
    ensures r.Ok? ==> forall f, c :: f in info && c in info[f] ==>
      && Slices(info[f][c].frames).Ok?
      && r.value[f][c] == WithSlices(info[f][c], Slices(info[f][c].frames).value)
  {
    if AllFramesNonEmpty(info) then
      Ok(map f | f in info :: map c | c in info[f] :: WithSlices(info[f][c], Slices(info[f][c].frames).value))
    else Err(EmptyFrames)
  }

  /** The example of the source's docstring: frames `[0, 1, 2, 5]` render as `"[0-2, 5]"`. */
  lemma SlicesExample()
    ensures Slices([0, 1, 2, 5]) == Ok("[0-2, 5]")
  {
    var d0, d1, d2, d3: seq<nat> := [0, 1, 2, 5], [1, 2, 5], [2, 5], [5];
    assert d0[1..] == d1 && d1[1..] == d2 && d2[1..] == d3;
    var r3 := Consecutive(d3);
    assert r3 == [[5]];
    var r2 := Consecutive(d2);
    assert r2 == [[2]] + r3;
    assert r2[0] == [2] && r2[1..] == [[5]];
    var r1 := Consecutive(d1);
    assert r1 == [[1] + r2[0]] + r2[1..];
    assert [1] + r2[0] == [1, 2];
    assert r1 == [[1, 2], [5]];
    var r0 := Consecutive(d0);
    assert r0 == [[0] + r1[0]] + r1[1..];
    assert r1[1..] == [[5]];
    assert [0] + r1[0] == [0, 1, 2];
    assert r0 == [[0, 1, 2], [5]];
    assert FormatRun([0, 1, 2]) == "0-2";
    assert FormatRun([5]) == "5";
    assert JoinRuns(r0) == "0-2, 5";
    assert Slices(d0) == Ok("[" + JoinRuns(r0) + "]");
    assert "[" + "0-2, 5" + "]" == "[0-2, 5]";
  }

  // Reading a `slices` string back. Each run `a-b` stands for the frames
  // `a, a+1, ..., b`, so the rendering loses nothing of the frame list.

  /** The longest prefix of decimal digits. */
  function Digits(s: string): (d: string)
    ensures Decimal.IsDigits(d) && |d| <= |s| && d == s[..|d|]
  {
    if s != [] && Decimal.IsDigit(s[0]) then [s[0]] + Digits(s[1..]) else []
  }

  lemma {:induction false} DigitsPrefix(d: string, t: string)
    requires Decimal.IsDigits(d) && (t == [] || !Decimal.IsDigit(t[0]))
    ensures Digits(d + t) == d
  {
    if d == [] {
      assert d + t == t;
    } else {
      assert (d + t)[1..] == d[1..] + t;
      DigitsPrefix(d[1..], t);
    }
  }

  /** One rendered run: its first and its last frame. */
  datatype Item = Item(first: nat, last: nat)

  /** Reads `a` or `a-b` off the front of `s` and returns what follows. */
  function ParseItem(s: string): (r: Option<(Item, string)>)
    ensures r.Some? ==> |r.value.1| < |s|
  {
    var a := Digits(s);
    if a == [] then None
    else
      var rest := s[|a|..];
      if rest != [] && rest[0] == '-' then
        var b := Digits(rest[1..]);
        if b == [] then None
        else Some((Item(Decimal.ParseNat(a), Decimal.ParseNat(b)), rest[1..][|b|..]))
      else Some((Item(Decimal.ParseNat(a), Decimal.ParseNat(a)), rest))
  }

  /** Reads items separated by `", "`. */
  function ParseItems(s: string): Option<seq<Item>>
    decreases |s|
  {
    match ParseItem(s)
    case None => None
    case Some((item, rest)) =>
      if rest == [] then Some([item])
      else if |rest| >= 2 && rest[..2] == ", " then
        match ParseItems(rest[2..])
        case None => None
        case Some(items) => Some([item] + items)
      else None
  }

  /** The frames `a, a+1, ..., b`. */
  function Span(a: nat, b: nat): seq<nat>
    decreases b + 1 - a
  {
    if a > b then [] else [a] + Span(a + 1, b)
  }

  function Expand(items: seq<Item>): seq<nat> {
    if items == [] then [] else Span(items[0].first, items[0].last) + Expand(items[1..])
  }

  /** Reads a `slices` string back into the frames it stands for. */
  function ParseSlices(s: string): Option<seq<nat>> {
    if |s| >= 2 && s[0] == '[' && s[|s| - 1] == ']' then
      match ParseItems(s[1..|s| - 1])
      case None => None
      case Some(items) => Some(Expand(items))
    else None
  }

  function ItemsOf(runs: seq<seq<nat>>): seq<Item>
    requires forall k :: 0 <= k < |runs| ==> runs[k] != []
  {
    if runs == [] then [] else [Item(runs[0][0], Last(runs[0]))] + ItemsOf(runs[1..])
  }

  lemma ParseSingleDigits(a: string, t: string)
    requires a != [] && Decimal.IsDigits(a)
    requires t == [] || (!Decimal.IsDigit(t[0]) && t[0] != '-')
    ensures ParseItem(a + t) == Some((Item(Decimal.ParseNat(a), Decimal.ParseNat(a)), t))
  {
    DigitsPrefix(a, t);
    assert (a + t)[|a|..] == t;
  }

  lemma ParseDashDigits(a: string, b: string, t: string)
    requires a != [] && Decimal.IsDigits(a) && b != [] && Decimal.IsDigits(b)
    requires t == [] || !Decimal.IsDigit(t[0])
    ensures ParseItem(a + ("-" + (b + t))) == Some((Item(Decimal.ParseNat(a), Decimal.ParseNat(b)), t))
  {
    var rest := "-" + (b + t);
    DigitsPrefix(a, rest);
    assert (a + rest)[|a|..] == rest;
    assert rest[1..] == b + t;
    DigitsPrefix(b, t);
    assert (b + t)[|b|..] == t;
  }

  lemma ParseNumber(n: nat, t: string)
    requires t == [] || (!Decimal.IsDigit(t[0]) && t[0] != '-')
    ensures ParseItem(Decimal.NatToString(n) + t) == Some((Item(n, n), t))
  {
    Decimal.ParseNatToString(n);
    ParseSingleDigits(Decimal.NatToString(n), t);
  }

  lemma ParseRange(m: nat, n: nat, t: string)
    requires t == [] || !Decimal.IsDigit(t[0])
    ensures ParseItem(Decimal.NatToString(m) + ("-" + (Decimal.NatToString(n) + t))) == Some((Item(m, n), t))
  {
    Decimal.ParseNatToString(m);
    Decimal.ParseNatToString(n);
    ParseDashDigits(Decimal.NatToString(m), Decimal.NatToString(n), t);
  }

  lemma ParseFormatRun(run: seq<nat>, t: string)
    requires run != []
    requires t == [] || (!Decimal.IsDigit(t[0]) && t[0] != '-')
    ensures ParseItem(FormatRun(run) + t) == Some((Item(run[0], Last(run)), t))
  {
    if |run| == 1 {
      ParseNumber(run[0], t);
    } else {
      var a := Decimal.NatToString(run[0]);
      var b := Decimal.NatToString(Last(run));
      assert FormatRun(run) + t == a + ("-" + (b + t));
      ParseRange(run[0], Last(run), t);
    }
  }

  lemma ParseItemsOne(s: string, item: Item)
    requires ParseItem(s) == Some((item, []))
    ensures ParseItems(s) == Some([item])
  {
  }

  lemma ParseItemsCons(s: string, item: Item, t: string, items: seq<Item>)
    requires ParseItem(s) == Some((item, t))
    requires |t| >= 2 && t[..2] == ", " && ParseItems(t[2..]) == Some(items)
    ensures ParseItems(s) == Some([item] + items)
  {
  }

  lemma ParseJoinSingle(run: seq<nat>)
    requires run != []
    ensures ParseItems(JoinRuns([run])) == Some(ItemsOf([run]))
  {
    var item := Item(run[0], Last(run));
    var s := FormatRun(run);
    ParseFormatRun(run, []);
    assert s + [] == s;
    ParseItemsOne(s, item);
    assert JoinRuns([run]) == s;
    assert [run][1..] == [];
    assert ItemsOf([run]) == [item];
  }

  lemma SeparatorSplit(j: string)
    ensures |", " + j| >= 2 && (", " + j)[..2] == ", " && (", " + j)[2..] == j
  {
  }

  lemma ParseJoinStep(runs: seq<seq<nat>>)
    requires |runs| > 1 && forall k :: 0 <= k < |runs| ==> runs[k] != []
    requires ParseItems(JoinRuns(runs[1..])) == Some(ItemsOf(runs[1..]))
    ensures ParseItems(JoinRuns(runs)) == Some(ItemsOf(runs))
  {
    var item := Item(runs[0][0], Last(runs[0]));
    var t := ", " + JoinRuns(runs[1..]);
    SeparatorSplit(JoinRuns(runs[1..]));
    ParseFormatRun(runs[0], t);
    ParseItemsCons(FormatRun(runs[0]) + t, item, t, ItemsOf(runs[1..]));
  }

  /** The runs rendered and joined by `", "` read back as their first and last frames. */
  lemma {:induction false} ParseJoinRuns(runs: seq<seq<nat>>)
    requires runs != [] && forall k :: 0 <= k < |runs| ==> runs[k] != []
    ensures ParseItems(JoinRuns(runs)) == Some(ItemsOf(runs))
    decreases |runs|
  {
    if |runs| == 1 {
      assert runs == [runs[0]];
      ParseJoinSingle(runs[0]);
    } else {
      ParseJoinRuns(runs[1..]);
      ParseJoinStep(runs);
    }
  }

  lemma {:induction false} SpanOfRun(run: seq<nat>)
    requires run != [] && StepOne(run)
    ensures Span(run[0], Last(run)) == run
    decreases |run|
  {
    if |run| > 1 {
      var tail := run[1..];
      assert StepOne(tail) by {
        forall i | 0 < i < |tail|
          ensures tail[i] == tail[i - 1] + 1
        {
          assert tail[i] == run[i + 1] && tail[i - 1] == run[i];
        }
      }
      SpanOfRun(tail);
      assert Last(tail) == Last(run);
      assert Last(run) >= run[0] by {
        StepOneGrows(run);
      }
      assert run == [run[0]] + tail;
    }
  }

  lemma {:induction false} StepOneGrows(run: seq<nat>)
    requires run != [] && StepOne(run)
    ensures Last(run) == run[0] + |run| - 1
    decreases |run|
  {
    if |run| > 1 {
      var init := run[..|run| - 1];
      assert StepOne(init) by {
        forall i | 0 < i < |init|
          ensures init[i] == init[i - 1] + 1
        {
          assert init[i] == run[i] && init[i - 1] == run[i - 1];
        }
      }
      StepOneGrows(init);
    }
  }

  lemma {:induction false} ExpandItems(runs: seq<seq<nat>>)
    requires forall k :: 0 <= k < |runs| ==> runs[k] != [] && StepOne(runs[k])
    ensures Expand(ItemsOf(runs)) == Flatten(runs)
    decreases |runs|
  {
    if runs != [] {
      SpanOfRun(runs[0]);
      ExpandItems(runs[1..]);
      assert ItemsOf(runs)[1..] == ItemsOf(runs[1..]);
    }
  }

  /** Reading a rendered `slices` string back gives the frame list it was rendered from. */
  lemma ParseSlicesOfSlices(frames: seq<nat>)
    requires frames != []
    ensures Slices(frames).Ok? && ParseSlices(Slices(frames).value) == Some(frames)
  {
    var runs := Consecutive(frames);
    ConsecutiveRuns(frames);
    ConsecutiveFlatten(frames);
    var s := Slices(frames).value;
    var body := JoinRuns(runs);
    assert s == "[" + body + "]";
    assert s[1..|s| - 1] == body;
    ParseJoinRuns(runs);
    ExpandItems(runs);
  }
}
