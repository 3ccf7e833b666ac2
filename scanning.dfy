/** Reduction of a sequence of run values to the lowest and the second
    lowest, with strict comparisons so that the earliest index wins a tie. */
module Scanning {
  import opened Wrappers
  import opened Series

  /** A value and where it was found: an offset while scanning, a calendar
      year once reported. */
  datatype Entry = Entry(at: nat, value: real)

  /** The worst and second-worst entries so far; None is the source's
      starting sentinel (value +infinity, index usize::MAX). */
  datatype Tracker = Tracker(worst: Option<Entry>, second: Option<Entry>)

  /** `v` is strictly below the tracked entry (everything is below +infinity). */
  predicate Below(v: real, e: Option<Entry>)
  {
    e.None? || v < e.value.value
  }

  /** One scan step at offset `at`: a new minimum pushes the old one down
      to second place; otherwise a value below the second replaces it. */
  function Track(t: Tracker, at: nat, v: real): Tracker
  {
    if Below(v, t.worst) then Tracker(Some(Entry(at, v)), t.worst)
    else if Below(v, t.second) then Tracker(t.worst, Some(Entry(at, v)))
    else t
  }

  /** `k` holds the minimum of `values`, and no earlier index does. */
  ghost predicate IsWorst(values: seq<real>, k: int)
  {
    0 <= k < |values| &&
    (forall j :: 0 <= j < |values| ==> values[k] <= values[j]) &&
    (forall j :: 0 <= j < k ==> values[k] < values[j])
  }

  /** `k` holds the minimum of `values` once index `w` is left out, and no
      earlier index other than `w` does. */
  ghost predicate IsSecondWorst(values: seq<real>, w: int, k: int)
  {
    0 <= k < |values| && k != w &&
    (forall j :: 0 <= j < |values| && j != w ==> values[k] <= values[j]) &&
    (forall j :: 0 <= j < k && j != w ==> values[k] < values[j])
  }

  /** The tracker holds the worst and second-worst entries of `values`. */
  ghost predicate Summarizes(values: seq<real>, t: Tracker)
  {
    (t.worst.None? <==> |values| == 0) &&
    (t.second.None? <==> |values| <= 1) &&
    (t.worst.Some? ==>
      IsWorst(values, t.worst.value.at) && t.worst.value.value == values[t.worst.value.at]) &&
    (t.second.Some? ==>
      t.worst.Some? &&
      IsSecondWorst(values, t.worst.value.at, t.second.value.at) &&
      t.second.value.value == values[t.second.value.at])
  }

  /** A scan step keeps the tracker summarizing the values seen so far. */
  lemma TrackPreserves(values: seq<real>, t: Tracker, v: real)
    requires Summarizes(values, t)
    ensures Summarizes(values + [v], Track(t, |values|, v))
  {
    var vs := values + [v];
    var n := |values|;
    assert forall j :: 0 <= j < n ==> vs[j] == values[j];
    if Below(v, t.worst) {
      if t.worst.Some? {
        var w := t.worst.value.at;
        assert IsWorst(vs, n);
        assert IsSecondWorst(vs, n, w);
      }
    } else if Below(v, t.second) {
      var w := t.worst.value.at;
      assert IsWorst(vs, w);
      assert IsSecondWorst(vs, w, n);
    } else {
      var w, s := t.worst.value.at, t.second.value.at;
      assert IsWorst(vs, w);
      assert IsSecondWorst(vs, w, s);
    }
  }

  /** The tracker after scanning every value in order. */
  function Scan(values: seq<real>): Tracker
    decreases |values|
  {
    if |values| == 0 then Tracker(None, None)
    else
      var n := |values| - 1;
      Track(Scan(values[..n]), n, values[n])
  }

  /** Scanning finds the worst and the second-worst values, the earliest
      index winning each tie. */
  lemma {:induction false} ScanSummarizes(values: seq<real>)
    ensures Summarizes(values, Scan(values))
    decreases |values|
  {
    if |values| > 0 {
      var n := |values| - 1;
      ScanSummarizes(values[..n]);
      TrackPreserves(values[..n], Scan(values[..n]), values[n]);
      assert values[..n] + [values[n]] == values;
    }
  }

  /** Run values at or above this ceiling are a numerical blow-up. */
  const CEILING: real := 1000000000000.0

  /** The index of the first value at or above the ceiling, or |values|. */
  function FirstBlowup(values: seq<real>): (i: nat)
    ensures i <= |values|
    ensures forall j :: 0 <= j < i ==> values[j] < CEILING
    ensures i < |values| ==> values[i] >= CEILING
    decreases |values|
  {
    if |values| == 0 then 0
    else if values[0] >= CEILING then 0
    else 1 + FirstBlowup(values[1..])
  }

  /** What a worst-year scan reports: the offset and value of the run that
      blew up, or the worst and second-worst entries as calendar years. */
  datatype ScanOutcome = Blowup(offset: nat, value: real) | Found(worst: Entry, second: Option<Entry>)

  function ToYear(e: Entry): Entry
  {
    Entry(e.at + FIRST_YEAR, e.value)
  }

  /** The outcome of scanning `values`, one per start offset. */
  function Assess(values: seq<real>): ScanOutcome
    requires |values| > 0
  {
    var i := FirstBlowup(values);
    if i < |values| then Blowup(i, values[i])
    else
      var t := Scan(values);
      ScanSummarizes(values);
      Found(ToYear(t.worst.value), if t.second.Some? then Some(ToYear(t.second.value)) else None)
  }

  /** One more offset extends the scan by one step. */
  lemma ScanExtends(values: seq<real>, n: nat)
    requires n < |values|
    ensures Scan(values[..n + 1]) == Track(Scan(values[..n]), n, values[n])
  {
    assert values[..n + 1][..n] == values[..n];
  }

  /** A scan aborts at the first run reaching the ceiling; otherwise it
      reports the worst start year (the earliest on ties) and, when there
      are at least two start years, the second worst among the others. */
  lemma AssessCharacterized(values: seq<real>)
    requires |values| > 0
    ensures var o := Assess(values);
      (o.Blowup? <==> exists j :: 0 <= j < |values| && values[j] >= CEILING) &&
      (o.Blowup? ==>
        o.offset < |values| && o.value == values[o.offset] && o.value >= CEILING &&
        forall j :: 0 <= j < o.offset ==> values[j] < CEILING) &&
      (o.Found? ==>
        o.worst.at >= FIRST_YEAR && IsWorst(values, o.worst.at - FIRST_YEAR) &&
        o.worst.value == values[o.worst.at - FIRST_YEAR] &&
        (o.second.Some? <==> |values| >= 2) &&
        (o.second.Some? ==>
          o.second.value.at >= FIRST_YEAR &&
          IsSecondWorst(values, o.worst.at - FIRST_YEAR, o.second.value.at - FIRST_YEAR) &&
          o.second.value.value == values[o.second.value.at - FIRST_YEAR]))
  {
    ScanSummarizes(values);
  }
}
