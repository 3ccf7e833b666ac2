/** The step-by-step reference simulation the engine is checked against:
    a test-only object that advances one year per call and applies the
    blended return in its textbook form. */
module Reference {
  import opened Series
  import opened Engine

  /** The fixed inputs of a reference simulation: expense schedules, the
      percentage tables, the stock fractions and the start offset. */
  datatype Scenario = Scenario(
    realExpenses: seq<real>,
    nominalExpenses: seq<real>,
    stonks: seq<real>,
    bonds: seq<real>,
    inflation: seq<real>,
    stockFractions: seq<real>,
    yearOffset: nat)

  /** The scenario can be simulated for `k` years. */
  predicate Covers(sc: Scenario, k: nat)
  {
    k <= |sc.realExpenses| && k <= |sc.nominalExpenses| && k <= |sc.stockFractions| &&
    sc.yearOffset + k <= |sc.stonks| && sc.yearOffset + k <= |sc.bonds| &&
    sc.yearOffset + k <= |sc.inflation| &&
    forall y :: sc.yearOffset <= y < sc.yearOffset + k ==> sc.inflation[y] != -100.0
  }

  /** The blended return in textbook form: the stock part grows by the stock
      return and the bond part by the bond return. */
  function Blend(stockPercent: real, bondPercent: real, fraction: real): real
  {
    (1.0 + stockPercent / 100.0) * fraction + (1.0 + bondPercent / 100.0) * (1.0 - fraction)
  }

  /** Year `i` of the reference simulation. */
  function ReferenceStep(sc: Scenario, i: nat, s: State): (t: State)
    requires Covers(sc, i + 1) && s.inflationFactor != 0.0
    ensures t.inflationFactor != 0.0
  {
    var y := sc.yearOffset + i;
    NonZeroProduct(s.inflationFactor, 1.0 + sc.inflation[y] / 100.0);
    var afterExpenses := s.portfolio - (sc.realExpenses[i] + sc.nominalExpenses[i] / s.inflationFactor);
    State(afterExpenses * Blend(sc.stonks[y], sc.bonds[y], sc.stockFractions[i]),
          s.inflationFactor * (1.0 + sc.inflation[y] / 100.0))
  }

  lemma NonZeroProduct(a: real, b: real)
    requires a != 0.0 && b != 0.0
    ensures a * b != 0.0
  {
  }

  /** The reference state after `k` calls to OneIteration. */
  function ReferenceRun(sc: Scenario, startPortfolio: real, k: nat): (s: State)
    requires Covers(sc, k)
    ensures s.inflationFactor != 0.0
    decreases k
  {
    if k == 0 then State(startPortfolio, 1.0)
    else ReferenceStep(sc, k - 1, ReferenceRun(sc, startPortfolio, k - 1))
  }

  /** The engine's delta form of the blended return equals the textbook form. */
  lemma BlendIsDeltaForm(b: Backtest, stonks: seq<real>, bonds: seq<real>, inflationPercent: seq<real>, y: nat, fraction: real)
    requires BuiltFrom(b, stonks, bonds, inflationPercent) && y < YEARS
    ensures b.bondReturn[y] + fraction * b.deltaReturn[y] == Blend(stonks[y], bonds[y], fraction)
  {
  }

  /** The engine's path over `k` years equals `k` reference iterations,
      provided the backtest was built from the scenario's tables and agrees
      with it on the first `k` expenses and fractions (the backtest may hold
      only a prefix of the scenario's schedule). */
  lemma {:induction false} EngineMatchesReference(b: Backtest, fractions: seq<real>, sc: Scenario, k: nat)
    requires Valid(b) && BuiltFrom(b, sc.stonks, sc.bonds, sc.inflation) && Covers(sc, k)
    requires k <= |b.realExpenses| && k <= |fractions| && sc.yearOffset + k <= YEARS
    requires forall i :: 0 <= i < k ==>
      b.realExpenses[i] == sc.realExpenses[i] && b.nominalExpenses[i] == sc.nominalExpenses[i] &&
      fractions[i] == sc.stockFractions[i]
    ensures Simulate(b, fractions, sc.yearOffset, k) == ReferenceRun(sc, b.startPortfolio, k)
    decreases k
  {
    if k > 0 {
      var i := k - 1;
      assert Covers(sc, i);
      EngineMatchesReference(b, fractions, sc, i);
      StepMatchesReference(b, sc, i, fractions[i], Simulate(b, fractions, sc.yearOffset, i));
    }
  }

  /** One engine year equals one reference year from the same state. */
  lemma StepMatchesReference(b: Backtest, sc: Scenario, i: nat, fraction: real, s: State)
    requires Valid(b) && BuiltFrom(b, sc.stonks, sc.bonds, sc.inflation) && Covers(sc, i + 1)
    requires i < |b.realExpenses| && sc.yearOffset + i < YEARS && s.inflationFactor != 0.0
    requires b.realExpenses[i] == sc.realExpenses[i] && b.nominalExpenses[i] == sc.nominalExpenses[i]
    requires fraction == sc.stockFractions[i]
    ensures Step(b, sc.yearOffset, i, fraction, s) == ReferenceStep(sc, i, s)
  {
    var y := sc.yearOffset + i;
    BlendIsDeltaForm(b, sc.stonks, sc.bonds, sc.inflation, y, fraction);
    var withdrawn := b.nominalExpenses[i] / s.inflationFactor + b.realExpenses[i];
    assert withdrawn == sc.realExpenses[i] + sc.nominalExpenses[i] / s.inflationFactor;
    assert b.inflation[y] == 1.0 + sc.inflation[y] / 100.0;
  }

  /** The case the equivalence test exercises: a backtest holding exactly
      the first `n` years of the scenario's schedule, run over `n` years. */
  lemma PrefixMatchesReference(b: Backtest, sc: Scenario, n: nat)
    requires Valid(b) && BuiltFrom(b, sc.stonks, sc.bonds, sc.inflation)
    requires Covers(sc, |sc.stockFractions|) && n <= |sc.stockFractions| && sc.yearOffset + n <= YEARS
    requires b.realExpenses == sc.realExpenses[..n] && b.nominalExpenses == sc.nominalExpenses[..n]
    ensures Covers(sc, n)
    ensures Simulate(b, sc.stockFractions[..n], sc.yearOffset, n) == ReferenceRun(sc, b.startPortfolio, n)
  {
    EngineMatchesReference(b, sc.stockFractions[..n], sc, n);
  }

  /** The test-only simulator: fixed inputs, and a year counter, portfolio
      and inflation factor that each call to OneIteration advances. */
  class SimpleBacktest {
    const realExpenses: seq<real>
    const nominalExpenses: seq<real>
    const stonks: seq<real>
    const bonds: seq<real>
    const inflation: seq<real>
    const stockFractions: seq<real>
    const yearOffset: nat
    var i: nat
    var portfolio: real
    var inflationFactor: real

    function Inputs(): Scenario
    {
      Scenario(realExpenses, nominalExpenses, stonks, bonds, inflation, stockFractions, yearOffset)
    }

    ghost predicate Valid()
      reads this
    {
      |realExpenses| == |nominalExpenses| == |stockFractions| &&
      |stonks| == YEARS && |bonds| == YEARS &&
      |stockFractions| < YEARS && yearOffset < YEARS - |stockFractions| &&
      i <= |stockFractions| && inflationFactor != 0.0
    }

    constructor (
      startPortfolio: real, realExpenses: seq<real>, nominalExpenses: seq<real>,
      stonks: seq<real>, bonds: seq<real>, inflation: seq<real>,
      stockFractions: seq<real>, yearOffset: nat)
      requires |realExpenses| == |nominalExpenses| && |stockFractions| == |realExpenses|
      requires |stonks| == YEARS && |bonds| == YEARS
      requires |stockFractions| <= YEARS && yearOffset < YEARS - |stockFractions|
      ensures Valid()
      ensures Inputs() == Scenario(realExpenses, nominalExpenses, stonks, bonds, inflation, stockFractions, yearOffset)
      ensures i == 0 && portfolio == startPortfolio && inflationFactor == 1.0
    {
      this.realExpenses := realExpenses;
      this.nominalExpenses := nominalExpenses;
      this.stonks := stonks;
      this.bonds := bonds;
      this.inflation := inflation;
      this.stockFractions := stockFractions;
      this.yearOffset := yearOffset;
      i := 0;
      portfolio := startPortfolio;
      inflationFactor := 1.0;
    }

    /** Simulates year `i` and moves to the next year. */
    method OneIteration()
      requires Valid() && i < |stockFractions|
      requires yearOffset + i < |inflation| && inflation[yearOffset + i] != -100.0
      modifies this
      ensures Valid() && i == old(i) + 1
      ensures Covers(Inputs(), i) ==>
        State(portfolio, inflationFactor) == ReferenceStep(Inputs(), old(i), old(State(portfolio, inflationFactor)))
    {
      portfolio := portfolio - (realExpenses[i] + nominalExpenses[i] / inflationFactor);
      portfolio := portfolio * ((1.0 + stonks[yearOffset + i] / 100.0) * stockFractions[i]
        + (1.0 + bonds[yearOffset + i] / 100.0) * (1.0 - stockFractions[i]));
      NonZeroProduct(inflationFactor, 1.0 + inflation[yearOffset + i] / 100.0);
      inflationFactor := inflationFactor * (1.0 + inflation[yearOffset + i] / 100.0);
      i := i + 1;
    }
  }

  /** The engine side of one comparison: a backtest built from the first
      `n` years of the scenario's schedule, run over those `n` years, ends
      where `n` reference iterations do. */
  method EnginePrefixRun(sc: Scenario, startPortfolio: real, n: nat) returns (value: real)
    requires |sc.stonks| == YEARS && |sc.bonds| == YEARS && |sc.inflation| == YEARS
    requires forall y :: 0 <= y < YEARS ==> sc.inflation[y] != -100.0
    requires Covers(sc, |sc.stockFractions|) && n <= |sc.stockFractions| && sc.yearOffset + n <= YEARS
    ensures Covers(sc, n) && value == ReferenceRun(sc, startPortfolio, n).portfolio
  {
    var backtest := New(startPortfolio, sc.realExpenses[..n], sc.nominalExpenses[..n], sc.stonks, sc.bonds, sc.inflation);
    value := SingleRun(backtest, sc.stockFractions[..n], sc.yearOffset);
    PrefixMatchesReference(backtest, sc, n);
  }

  /** The equivalence test: for every prefix length, a backtest built from
      that prefix of the schedule ends where the reference simulator is after
      the same number of iterations (exactly, over the reals). */
  method Compare(
    realExpenses: seq<real>, nominalExpenses: seq<real>, stockFractions: seq<real>, startYear: nat,
    stonks: seq<real>, bonds: seq<real>, inflationPercent: seq<real>)
    returns (actual: seq<real>, reference: seq<real>)
    requires |realExpenses| == |nominalExpenses| == |stockFractions|
    requires |stonks| == YEARS && |bonds| == YEARS && |inflationPercent| == YEARS
    requires forall y :: 0 <= y < YEARS ==> inflationPercent[y] != -100.0
    requires FIRST_YEAR <= startYear && |stockFractions| <= YEARS
    requires startYear - FIRST_YEAR < YEARS - |stockFractions|
    ensures |actual| == |stockFractions| && actual == reference
    ensures Covers(Scenario(realExpenses, nominalExpenses, stonks, bonds, inflationPercent, stockFractions, startYear - FIRST_YEAR), |stockFractions|)
    ensures forall k :: 0 <= k < |reference| ==>
      reference[k] == ReferenceRun(Scenario(realExpenses, nominalExpenses, stonks, bonds, inflationPercent, stockFractions, startYear - FIRST_YEAR), 1000.0, k + 1).portfolio
  {
    var startPortfolio := 1000.0;
    var yearOffset := startYear - FIRST_YEAR;
    ghost var sc := Scenario(realExpenses, nominalExpenses, stonks, bonds, inflationPercent, stockFractions, yearOffset);
    assert Covers(sc, |stockFractions|);
    var simple := new SimpleBacktest(startPortfolio, realExpenses, nominalExpenses,
      stonks, bonds, inflationPercent, stockFractions, yearOffset);
    actual, reference := [], [];
    for i := 0 to |stockFractions|
      invariant simple.Valid() && simple.Inputs() == sc && simple.i == i
      invariant State(simple.portfolio, simple.inflationFactor) == ReferenceRun(sc, startPortfolio, i)
      invariant actual == reference && |reference| == i
      invariant forall k :: 0 <= k < i ==> reference[k] == ReferenceRun(sc, startPortfolio, k + 1).portfolio
    {
      var value := EnginePrefixRun(Scenario(realExpenses, nominalExpenses, stonks, bonds, inflationPercent, stockFractions, yearOffset), startPortfolio, i + 1);
      ghost var before := State(simple.portfolio, simple.inflationFactor);
      simple.OneIteration();
      assert State(simple.portfolio, simple.inflationFactor) == ReferenceStep(sc, i, before);
      actual := actual + [value];
      reference := reference + [simple.portfolio];
    }
  }
}
