/** The backtest engine: per-year return multipliers precomputed from the
    historical tables, and the simulation of one portfolio path. */
module Engine {
  import opened Series

  /** A backtest: a start portfolio, an expense schedule (real expenses are
      in constant currency, nominal ones in start-year currency), and per
      historical year the bond multiplier, the stock-minus-bond return, and
      the inflation multiplier. Read-only once built. */
  datatype Backtest = Backtest(
    startPortfolio: real,
    realExpenses: seq<real>,
    nominalExpenses: seq<real>,
    bondReturn: seq<real>,
    deltaReturn: seq<real>,
    inflation: seq<real>)

  /** The shape every backtest has once built. The inflation multipliers
      are non-zero, so deflating a nominal expense never divides by zero. */
  predicate Valid(b: Backtest)
  {
    |b.realExpenses| == |b.nominalExpenses| &&
    |b.bondReturn| == YEARS && |b.deltaReturn| == YEARS && |b.inflation| == YEARS &&
    forall y :: 0 <= y < YEARS ==> b.inflation[y] != 0.0
  }

  /** `b` holds the multipliers derived from percentage tables. */
  predicate BuiltFrom(b: Backtest, stonks: seq<real>, bonds: seq<real>, inflationPercent: seq<real>)
  {
    |b.bondReturn| == |b.deltaReturn| == |b.inflation| == YEARS &&
    |stonks| == YEARS && |bonds| == YEARS && |inflationPercent| == YEARS &&
    forall y :: 0 <= y < YEARS ==>
      b.bondReturn[y] == 1.0 + bonds[y] / 100.0 &&
      b.deltaReturn[y] == (stonks[y] - bonds[y]) / 100.0 &&
      b.inflation[y] == 1.0 + inflationPercent[y] / 100.0
  }

  /** Builds a backtest: converts the stock and bond percentage tables into
      a bond multiplier and a stock-minus-bond delta for every historical
      year, and the inflation table into multipliers. */
  method New(
    startPortfolio: real, realExpenses: seq<real>, nominalExpenses: seq<real>,
    stonks: seq<real>, bonds: seq<real>, inflationPercent: seq<real>)
    returns (b: Backtest)
    requires |realExpenses| == |nominalExpenses|
    requires |stonks| == YEARS && |bonds| == YEARS && |inflationPercent| == YEARS
    requires forall y :: 0 <= y < YEARS ==> inflationPercent[y] != -100.0
    ensures Valid(b) && BuiltFrom(b, stonks, bonds, inflationPercent)
    ensures b.startPortfolio == startPortfolio
    ensures b.realExpenses == realExpenses && b.nominalExpenses == nominalExpenses
  {
    var deltaReturn: seq<real> := [];
    var bondReturn: seq<real> := [];
    for i := 0 to YEARS
      invariant |bondReturn| == |deltaReturn| == i
      invariant forall y :: 0 <= y < i ==>
        bondReturn[y] == 1.0 + bonds[y] / 100.0 && deltaReturn[y] == (stonks[y] - bonds[y]) / 100.0
    {
      bondReturn := bondReturn + [1.0 + bonds[i] / 100.0];
      deltaReturn := deltaReturn + [(stonks[i] - bonds[i]) / 100.0];
    }
    var inflation: seq<real> := [];
    for i := 0 to YEARS
      invariant |inflation| == i
      invariant forall y :: 0 <= y < i ==> inflation[y] == 1.0 + inflationPercent[y] / 100.0
    {
      inflation := inflation + [1.0 + inflationPercent[i] / 100.0];
    }
    b := Backtest(startPortfolio, realExpenses, nominalExpenses, bondReturn, deltaReturn, inflation);
  }

  /** The state a path carries from one year to the next. */
  datatype State = State(portfolio: real, inflationFactor: real)

  /** One simulated year `i` of a path starting at historical offset
      `offset`: withdraw the deflated nominal and the real expense, apply
      the blended return for stock fraction `fraction`, compound inflation. */
  function Step(b: Backtest, offset: nat, i: nat, fraction: real, s: State): (t: State)
    requires Valid(b) && i < |b.realExpenses| && offset + i < YEARS
    requires s.inflationFactor != 0.0
    ensures t.inflationFactor != 0.0
  {
    var y := offset + i;
    var afterExpenses := s.portfolio - (b.nominalExpenses[i] / s.inflationFactor + b.realExpenses[i]);
    State(afterExpenses * (b.bondReturn[y] + fraction * b.deltaReturn[y]), s.inflationFactor * b.inflation[y])
  }

  /** The state after the first `k` years of a path driven by a fixed
      sequence of stock fractions. */
  function Simulate(b: Backtest, fractions: seq<real>, offset: nat, k: nat): (s: State)
    requires Valid(b) && k <= |fractions| && k <= |b.realExpenses| && offset + k <= YEARS
    ensures s.inflationFactor != 0.0
    decreases k
  {
    if k == 0 then State(b.startPortfolio, 1.0)
    else Step(b, offset, k - 1, fractions[k - 1], Simulate(b, fractions, offset, k - 1))
  }

  /** Runs one path over the whole expense schedule from historical offset
      `offset` and returns the final portfolio (negative means ruin). */
  method SingleRun(b: Backtest, fractions: seq<real>, offset: nat) returns (portfolio: real)
    requires Valid(b) && |fractions| == |b.realExpenses| && offset + |fractions| <= YEARS
    ensures portfolio == Simulate(b, fractions, offset, |fractions|).portfolio
  {
    portfolio := b.startPortfolio;
    var inflationFactor := 1.0;
    for i := 0 to |fractions|
      invariant State(portfolio, inflationFactor) == Simulate(b, fractions, offset, i)
    {
      var expenses := b.nominalExpenses[i] / inflationFactor + b.realExpenses[i];
      portfolio := portfolio - expenses;
      portfolio := portfolio * (b.bondReturn[offset + i] + fractions[i] * b.deltaReturn[offset + i]);
      inflationFactor := inflationFactor * b.inflation[offset + i];
    }
  }

  /** An allocation policy: the stock fraction for the current portfolio
      value and the number of years left. */
  type Policy = (real, nat) -> real

  /** The state after the first `k` years of a path whose stock fraction is
      chosen each year by `policy`. */
  function SimulateGeneral(b: Backtest, policy: Policy, offset: nat, k: nat): (s: State)
    requires Valid(b) && k <= |b.realExpenses| && offset + k <= YEARS
    ensures s.inflationFactor != 0.0
    decreases k
  {
    if k == 0 then State(b.startPortfolio, 1.0)
    else
      var s := SimulateGeneral(b, policy, offset, k - 1);
      Step(b, offset, k - 1, policy(s.portfolio, |b.realExpenses| - (k - 1)), s)
  }

  /** Runs one path whose allocation is decided year by year by `policy`. */
  method SingleRunGeneral(b: Backtest, policy: Policy, offset: nat) returns (portfolio: real)
    requires Valid(b) && offset + |b.realExpenses| <= YEARS
    ensures portfolio == SimulateGeneral(b, policy, offset, |b.realExpenses|).portfolio
  {
    portfolio := b.startPortfolio;
    var inflationFactor := 1.0;
    for i := 0 to |b.realExpenses|
      invariant State(portfolio, inflationFactor) == SimulateGeneral(b, policy, offset, i)
    {
      var yearsLeft := |b.realExpenses| - i;
      var stockFraction := policy(portfolio, yearsLeft);
      var expenses := b.nominalExpenses[i] / inflationFactor + b.realExpenses[i];
      portfolio := portfolio - expenses;
      portfolio := portfolio * (b.bondReturn[offset + i] + stockFraction * b.deltaReturn[offset + i]);
      inflationFactor := inflationFactor * b.inflation[offset + i];
    }
  }

  /** A policy that ignores the portfolio value and reads the fraction for
      the year from a fixed sequence gives the same path as that sequence. */
  lemma {:induction false} FixedPolicyAgrees(b: Backtest, policy: Policy, fractions: seq<real>, offset: nat, k: nat)
    requires Valid(b) && |fractions| == |b.realExpenses| && k <= |fractions| && offset + k <= YEARS
    requires forall p: real, left: nat :: 1 <= left <= |fractions| ==> policy(p, left) == fractions[|fractions| - left]
    ensures SimulateGeneral(b, policy, offset, k) == Simulate(b, fractions, offset, k)
    decreases k
  {
    if k > 0 {
      FixedPolicyAgrees(b, policy, fractions, offset, k - 1);
      var s := Simulate(b, fractions, offset, k - 1);
      assert policy(s.portfolio, |fractions| - (k - 1)) == fractions[k - 1];
    }
  }

  /** The product of a sequence of multipliers. */
  function Compound(m: seq<real>): real
    decreases |m|
  {
    if |m| == 0 then 1.0 else Compound(m[..|m| - 1]) * m[|m| - 1]
  }

  /** After `k` years the inflation factor is the product of the `k`
      inflation multipliers from the start offset, whatever the allocation
      and the expenses. */
  lemma {:induction false} InflationCompounds(b: Backtest, fractions: seq<real>, offset: nat, k: nat)
    requires Valid(b) && k <= |fractions| && k <= |b.realExpenses| && offset + k <= YEARS
    ensures Simulate(b, fractions, offset, k).inflationFactor == Compound(b.inflation[offset..offset + k])
    decreases k
  {
    if k > 0 {
      InflationCompounds(b, fractions, offset, k - 1);
      assert b.inflation[offset..offset + k][..k - 1] == b.inflation[offset..offset + k - 1];
    }
  }
}
