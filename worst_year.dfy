/** The worst-year scan: one path per feasible start year, reduced to the
    worst and the second-worst ending values. */
module WorstYearScan {
  import opened Wrappers
  import opened Series
  import opened Engine
  import opened Scanning

  /** The ending value of the path from every feasible start offset,
      0 .. YEARS - L inclusive, for a fixed allocation sequence. */
  ghost function EndValues(b: Backtest, fractions: seq<real>): (vs: seq<real>)
    requires Valid(b) && |fractions| == |b.realExpenses| <= YEARS
    ensures |vs| == YEARS - |fractions| + 1
    ensures forall o :: 0 <= o < |vs| ==> vs[o] == Simulate(b, fractions, o, |fractions|).portfolio
  {
    seq(YEARS - |fractions| + 1, o requires 0 <= o < YEARS - |fractions| + 1 =>
      Simulate(b, fractions, o, |fractions|).portfolio)
  }

  /** The same, for a path driven by an allocation policy. */
  ghost function EndValuesGeneral(b: Backtest, policy: Policy): (vs: seq<real>)
    requires Valid(b) && |b.realExpenses| <= YEARS
    ensures |vs| == YEARS - |b.realExpenses| + 1
    ensures forall o :: 0 <= o < |vs| ==> vs[o] == SimulateGeneral(b, policy, o, |b.realExpenses|).portfolio
  {
    seq(YEARS - |b.realExpenses| + 1, o requires 0 <= o < YEARS - |b.realExpenses| + 1 =>
      SimulateGeneral(b, policy, o, |b.realExpenses|).portfolio)
  }

  /** Scans every start offset with a fixed allocation sequence; aborts at
      the first run reaching the ceiling. */
  method WorstYear(b: Backtest, fractions: seq<real>) returns (r: ScanOutcome)
    requires Valid(b) && |fractions| == |b.realExpenses| <= YEARS
    ensures r == Assess(EndValues(b, fractions))
  {
    ghost var values := EndValues(b, fractions);
    var t := Tracker(None, None);
    var count := YEARS - |b.realExpenses| + 1;
    for offset := 0 to count
      invariant t == Scan(values[..offset])
      invariant forall j :: 0 <= j < offset ==> values[j] < CEILING
    {
      var value := SingleRun(b, fractions, offset);
      if value >= CEILING {
        assert FirstBlowup(values) == offset;
        return Blowup(offset, value);
      }
      ScanExtends(values, offset);
      t := Track(t, offset, value);
    }
    assert values[..count] == values;
    assert FirstBlowup(values) == |values|;
    r := Found(ToYear(t.worst.value), if t.second.Some? then Some(ToYear(t.second.value)) else None);
  }

  /** Scans every start offset with an allocation policy. */
  method WorstYearGeneral(b: Backtest, policy: Policy) returns (r: ScanOutcome)
    requires Valid(b) && |b.realExpenses| <= YEARS
    ensures r == Assess(EndValuesGeneral(b, policy))
  {
    ghost var values := EndValuesGeneral(b, policy);
    var t := Tracker(None, None);
    var count := YEARS - |b.realExpenses| + 1;
    for offset := 0 to count
      invariant t == Scan(values[..offset])
      invariant forall j :: 0 <= j < offset ==> values[j] < CEILING
    {
      var value := SingleRunGeneral(b, policy, offset);
      if value >= CEILING {
        assert FirstBlowup(values) == offset;
        return Blowup(offset, value);
      }
      ScanExtends(values, offset);
      t := Track(t, offset, value);
    }
    assert values[..count] == values;
    assert FirstBlowup(values) == |values|;
    r := Found(ToYear(t.worst.value), if t.second.Some? then Some(ToYear(t.second.value)) else None);
  }
}
