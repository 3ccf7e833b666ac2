/** The grid search: drive the odometer over every parameter vector, turn
    each into an allocation sequence, and keep the vector whose worst-year
    value is highest. */
module GridSearch {
  import opened Wrappers
  import opened Series
  import opened Engine
  import opened Scanning
  import opened WorstYearScan
  import opened Odometer

  /** The external mapping from a parameter vector and a horizon length to
      an allocation sequence. */
  type FractionMap = (seq<real>, nat) -> seq<real>

  /** The mapping yields one stock fraction per year of the schedule. */
  ghost predicate MapsToHorizon(b: Backtest, getFractions: FractionMap, length: nat)
  {
    forall v: seq<real> :: |getFractions(v, length)| == |b.realExpenses|
  }

  /** The best vector so far, with its own worst and second-worst entries. */
  datatype Best = Best(values: seq<real>, worst: Entry, second: Option<Entry>)

  /** The search either aborted on a blown-up run of some vector or is
      still running with its best so far (None is the source's starting
      value of -infinity). */
  datatype SearchState = Aborted(values: seq<real>, offset: nat, value: real) | Running(best: Option<Best>)

  /** The worst-year scan of the allocation a parameter vector maps to. */
  ghost function Evaluate(b: Backtest, getFractions: FractionMap, length: nat, v: seq<real>): ScanOutcome
    requires Valid(b) && |b.realExpenses| <= YEARS && MapsToHorizon(b, getFractions, length)
  {
    Assess(EndValues(b, getFractions(v, length)))
  }

  /** A candidate replaces the best only when its worst value is strictly
      higher, so the first vector found keeps a tie. */
  function Keep(best: Option<Best>, v: seq<real>, worst: Entry, second: Option<Entry>): Option<Best>
  {
    if best.None? || worst.value > best.value.worst.value then Some(Best(v, worst, second)) else best
  }

  /** The search over a list of vectors paired with their scan outcomes,
      in order: it aborts at the first outcome that blew up, and otherwise
      keeps the best vector by Keep. */
  function Choose(vs: seq<seq<real>>, outcomes: seq<ScanOutcome>): SearchState
    requires |vs| == |outcomes|
    decreases |vs|
  {
    if |vs| == 0 then Running(None)
    else
      var n := |vs| - 1;
      match Choose(vs[..n], outcomes[..n])
      case Aborted(_, _, _) => Choose(vs[..n], outcomes[..n])
      case Running(best) =>
        match outcomes[n]
        case Blowup(o, x) => Aborted(vs[n], o, x)
        case Found(w, s) => Running(Keep(best, vs[n], w, s))
  }

  /** The scan outcome of every vector of a list. */
  ghost function Outcomes(b: Backtest, getFractions: FractionMap, length: nat, vs: seq<seq<real>>): (os: seq<ScanOutcome>)
    requires Valid(b) && |b.realExpenses| <= YEARS && MapsToHorizon(b, getFractions, length)
    ensures |os| == |vs|
  {
    seq(|vs|, k requires 0 <= k < |vs| => Evaluate(b, getFractions, length, vs[k]))
  }

  /** A search that did not abort returns a vector from the list whose
      worst value is at least that of every vector in the list, no earlier
      vector reaching it, together with that vector's own second-worst
      entry; it is empty only for an empty list. */
  lemma {:induction false} ChooseKeepsMaximum(vs: seq<seq<real>>, os: seq<ScanOutcome>)
    requires |vs| == |os| && Choose(vs, os).Running?
    ensures var best := Choose(vs, os).best;
      (best.Some? <==> |vs| > 0) &&
      (forall j :: 0 <= j < |os| ==> os[j].Found?) &&
      (best.Some? ==>
        (forall j :: 0 <= j < |os| ==> os[j].worst.value <= best.value.worst.value) &&
        exists k :: 0 <= k < |vs| && vs[k] == best.value.values &&
          os[k] == Found(best.value.worst, best.value.second) &&
          forall j :: 0 <= j < k ==> os[j].worst.value < best.value.worst.value)
    decreases |vs|
  {
    if |vs| > 0 {
      var n := |vs| - 1;
      var pv, po := vs[..n], os[..n];
      ChooseKeepsMaximum(pv, po);
      assert forall j :: 0 <= j < n ==> os[j] == po[j];
      var before := Choose(pv, po).best;
      var best := Choose(vs, os).best;
      assert best == Keep(before, vs[n], os[n].worst, os[n].second);
      if before.Some? && os[n].worst.value <= before.value.worst.value {
        var k :| 0 <= k < n && pv[k] == before.value.values &&
          po[k] == Found(before.value.worst, before.value.second) &&
          forall j :: 0 <= j < k ==> po[j].worst.value < before.value.worst.value;
        assert vs[k] == pv[k];
      }
    }
  }

  /** A search that aborted stopped at a vector whose scan blew up, every
      earlier vector having scanned cleanly. */
  lemma {:induction false} ChooseStopsAtBlowup(vs: seq<seq<real>>, os: seq<ScanOutcome>)
    requires |vs| == |os| && Choose(vs, os).Aborted?
    ensures var r := Choose(vs, os);
      exists k :: 0 <= k < |vs| && vs[k] == r.values && os[k] == Blowup(r.offset, r.value) &&
        forall j :: 0 <= j < k ==> os[j].Found?
    decreases |vs|
  {
    var n := |vs| - 1;
    var pv, po := vs[..n], os[..n];
    assert forall j :: 0 <= j < n ==> vs[j] == pv[j] && os[j] == po[j];
    if Choose(pv, po).Aborted? {
      ChooseStopsAtBlowup(pv, po);
    } else {
      ChooseKeepsMaximum(pv, po);
    }
  }

  /** The search over one more vector. */
  lemma ChooseSnoc(vs: seq<seq<real>>, os: seq<ScanOutcome>, v: seq<real>, o: ScanOutcome)
    requires |vs| == |os|
    ensures Choose(vs + [v], os + [o]) ==
      match Choose(vs, os)
      case Aborted(_, _, _) => Choose(vs, os)
      case Running(best) =>
        match o
        case Blowup(offset, x) => Aborted(v, offset, x)
        case Found(w, s) => Running(Keep(best, v, w, s))
  {
    assert (vs + [v])[..|vs|] == vs;
    assert (os + [o])[..|os|] == os;
  }

  /** Once aborted, later vectors change nothing. */
  lemma {:induction false} AbortIsFinal(vs: seq<seq<real>>, os: seq<ScanOutcome>, ws: seq<seq<real>>, qs: seq<ScanOutcome>)
    requires |vs| == |os| && |ws| == |qs| && Choose(vs, os).Aborted?
    ensures Choose(vs + ws, os + qs) == Choose(vs, os)
    decreases |ws|
  {
    if |ws| > 0 {
      var m := |ws| - 1;
      AbortIsFinal(vs, os, ws[..m], qs[..m]);
      ChooseSnoc(vs + ws[..m], os + qs[..m], ws[m], qs[m]);
      assert vs + ws[..m] + [ws[m]] == vs + ws;
      assert os + qs[..m] + [qs[m]] == os + qs;
    } else {
      assert vs + ws == vs && os + qs == os;
    }
  }

  /** A search still running after the first `n` vectors takes in vector
      `n` by Keep when its scan was clean. */
  lemma ChooseExtends(vs: seq<seq<real>>, os: seq<ScanOutcome>, n: nat, best: Option<Best>)
    requires |vs| == |os| && n < |vs| && os[n].Found?
    requires Choose(vs[..n], os[..n]) == Running(best)
    ensures Choose(vs[..n + 1], os[..n + 1]) == Running(Keep(best, vs[n], os[n].worst, os[n].second))
  {
    ChooseSnoc(vs[..n], os[..n], vs[n], os[n]);
    assert vs[..n] + [vs[n]] == vs[..n + 1];
    assert os[..n] + [os[n]] == os[..n + 1];
  }

  /** A search still running after the first `n` vectors ends aborted at
      vector `n` when its scan blew up, whatever follows. */
  lemma ChooseAbortsAt(vs: seq<seq<real>>, os: seq<ScanOutcome>, n: nat)
    requires |vs| == |os| && n < |vs| && os[n].Blowup?
    requires Choose(vs[..n], os[..n]).Running?
    ensures Choose(vs, os) == Aborted(vs[n], os[n].offset, os[n].value)
  {
    ChooseSnoc(vs[..n], os[..n], vs[n], os[n]);
    assert vs[..n] + [vs[n]] == vs[..n + 1];
    assert os[..n] + [os[n]] == os[..n + 1];
    AbortIsFinal(vs[..n + 1], os[..n + 1], vs[n + 1..], os[n + 1..]);
    assert vs[..n + 1] + vs[n + 1..] == vs;
    assert os[..n + 1] + os[n + 1..] == os;
  }

  /** Searches the grid the ranges span: starts from every dimension's
      start, scores each vector by its worst-year scan, keeps the first
      vector with the highest worst value, and stops when the odometer wraps. */
  method BestFractions(b: Backtest, ranges: seq<Range>, getFractions: FractionMap, length: nat)
    returns (r: SearchState)
    requires Valid(b) && |b.realExpenses| <= YEARS && MapsToHorizon(b, getFractions, length)
    requires WellFormed(ranges)
    ensures r == Choose(Grid(ranges), Outcomes(b, getFractions, length, Grid(ranges)))
  {
    var values := new real[|ranges|];
    for i := 0 to |ranges|
      invariant values[..i] == Starts(ranges)[..i]
    {
      values[i] := ranges[i].start;
    }
    assert values[..] == Starts(ranges);
    var best: Option<Best> := None;
    ghost var grid := Grid(ranges);
    ghost var outcomes := Outcomes(b, getFractions, length, grid);
    ghost var n := 0;
    var done := false;
    while !done
      invariant values.Length == |ranges|
      invariant 0 <= n <= |grid|
      invariant !done ==> n < |grid| && values[..] == grid[n]
      invariant done ==> n == |grid|
      invariant Choose(grid[..n], outcomes[..n]) == Running(best)
      decreases |grid| - n
    {
      var fractions := getFractions(values[..], length);
      var outcome := WorstYear(b, fractions);
      assert outcome == outcomes[n];
      if outcome.Blowup? {
        r := Aborted(values[..], outcome.offset, outcome.value);
        ChooseAbortsAt(grid, outcomes, n);
        return;
      }
      ChooseExtends(grid, outcomes, n, best);
      best := Keep(best, values[..], outcome.worst, outcome.second);
      GridStep(ranges, n);
      var wrapped := Update(ranges, values);
      n := n + 1;
      if wrapped {
        done := true;
      }
    }
    assert grid[..n] == grid && outcomes[..n] == outcomes;
    r := Running(best);
  }
}
