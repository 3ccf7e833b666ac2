/** The fixed-allocation versus bond-tent comparison script: a retirement
    path without inflation, its ending value for every start year, the
    start-year filter, the first-lowest search, and the two allocation
    schedules it compares. */
module BondTent {
  import opened Series
  import opened Scanning
  import Engine
  import Reference
  import WorstYearScan

  const LENGTH: nat := 30
  const INITIAL_PORTFOLIO: real := 1000000.0
  const WITHDRAWL_RATE: real := 0.04
  const FIXED_AA_STOCKS: real := 0.70
  const BOND_TENT_START_STOCKS: real := 0.5
  const BOND_TENT_END_STOCKS: real := 1.0
  const BOND_TENT_YEARS: nat := 15

  /** The same withdrawal every year of the retirement. */
  const EXPENSES: seq<real> := seq(LENGTH, _ => INITIAL_PORTFOLIO * WITHDRAWL_RATE)

  /** The fixed allocation: the same stock fraction every year. */
  const FIXED_AA: seq<real> := seq(LENGTH, _ => FIXED_AA_STOCKS)

  /** The inflation-adjusted stock and bond returns in percent, one entry
      per calendar year from FIRST_YEAR. */
  datatype Market = Market(stocks: seq<real>, bonds: seq<real>)

  /** List indexing as the script's language does it: a negative index
      counts from the end. */
  function At(s: seq<real>, i: int): real
    requires -|s| <= i < |s|
  {
    if i < 0 then s[|s| + i] else s[i]
  }

  /** Table `t` has an entry for each of the `n` calendar years from
      `startYear`. */
  predicate Spans(t: seq<real>, startYear: int, n: nat)
  {
    n == 0 || (-|t| <= startYear - FIRST_YEAR && startYear - FIRST_YEAR + n <= |t|)
  }

  /** Every stock fraction lies in [0, 1]. */
  predicate Fractions(fs: seq<real>)
  {
    forall k :: 0 <= k < |fs| ==> 0.0 <= fs[k] <= 1.0
  }

  /** The growth of one calendar year for stock fraction `f`: the stock
      part earns the stock return, the rest the bond return. */
  function Growth(m: Market, year: int, f: real): real
    requires Spans(m.stocks, year, 1) && Spans(m.bonds, year, 1)
  {
    f * (1.0 + At(m.stocks, year - FIRST_YEAR) / 100.0) +
      (1.0 - f) * (1.0 + At(m.bonds, year - FIRST_YEAR) / 100.0)
  }

  /** What `retirement` demands of its arguments: one expense per year and
      fractions in [0, 1] (both asserted), and table entries for every
      year of the path. */
  predicate Feasible(m: Market, startYear: int, fractions: seq<real>, expenses: seq<real>)
  {
    |expenses| == |fractions| && Fractions(fractions) &&
    Spans(m.stocks, startYear, |fractions|) && Spans(m.bonds, startYear, |fractions|)
  }

  /** The portfolio after the first `k` years of the path starting in
      `startYear`: each year withdraw the expense, then grow. */
  function Balance(m: Market, startYear: int, fractions: seq<real>, expenses: seq<real>, initial: real, k: nat): real
    requires Feasible(m, startYear, fractions, expenses) && k <= |fractions|
    decreases k
  {
    if k == 0 then initial
    else
      var before := Balance(m, startYear, fractions, expenses, initial, k - 1);
      (before - expenses[k - 1]) * Growth(m, startYear + k - 1, fractions[k - 1])
  }

  /** The year-end portfolio values of the path. */
  function Trajectory(m: Market, startYear: int, fractions: seq<real>, expenses: seq<real>, initial: real): (t: seq<real>)
    requires Feasible(m, startYear, fractions, expenses)
    ensures |t| == |fractions|
  {
    seq(|fractions|, k requires 0 <= k < |fractions| => Balance(m, startYear, fractions, expenses, initial, k + 1))
  }

  /** Entry `k` of the trajectory is the previous entry (the initial
      portfolio for the first) less the expense of year `k`, grown by that
      year's blended return. */
  lemma TrajectoryRecurrence(m: Market, startYear: int, fractions: seq<real>, expenses: seq<real>, initial: real, k: nat)
    requires Feasible(m, startYear, fractions, expenses) && k < |fractions|
    ensures var t := Trajectory(m, startYear, fractions, expenses, initial);
      t[k] == ((if k == 0 then initial else t[k - 1]) - expenses[k]) * Growth(m, startYear + k, fractions[k])
  {
    var t := Trajectory(m, startYear, fractions, expenses, initial);
    var before := Balance(m, startYear, fractions, expenses, initial, k);
    assert t[k] == Balance(m, startYear, fractions, expenses, initial, k + 1);
    assert t[k] == (before - expenses[k]) * Growth(m, startYear + k, fractions[k]);
    assert k > 0 ==> t[k - 1] == before;
  }

  /** Simulates a retirement starting in `startYear` and records the
      portfolio at the end of every year. */
  method Retirement(startYear: int, fractions: seq<real>, expenses: seq<real>, initialPortfolio: real, m: Market)
    returns (nestEgg: seq<real>)
    requires Feasible(m, startYear, fractions, expenses)
    ensures nestEgg == Trajectory(m, startYear, fractions, expenses, initialPortfolio)
  {
    ghost var t := Trajectory(m, startYear, fractions, expenses, initialPortfolio);
    var portfolio := initialPortfolio;
    nestEgg := [];
    for year := startYear to startYear + |fractions|
      invariant portfolio == Balance(m, startYear, fractions, expenses, initialPortfolio, year - startYear)
      invariant nestEgg == t[..year - startYear]
    {
      portfolio := portfolio - expenses[year - startYear];
      var stockF := fractions[year - startYear];
      portfolio := portfolio * (stockF * (1.0 + At(m.stocks, year - FIRST_YEAR) / 100.0) +
        (1.0 - stockF) * (1.0 + At(m.bonds, year - FIRST_YEAR) / 100.0));
      nestEgg := nestEgg + [portfolio];
    }
  }

  /** Without nominal expenses the engine's path from the same start year
      ends where the script's does: the blended return and the engine's
      bond-plus-delta form agree, and deflating a zero expense withdraws
      nothing. */
  lemma {:induction false} RetirementMatchesEngine(
    b: Engine.Backtest, m: Market, inflationPercent: seq<real>, startYear: int, fractions: seq<real>, k: nat)
    requires Engine.Valid(b) && Engine.BuiltFrom(b, m.stocks, m.bonds, inflationPercent)
    requires |fractions| == |b.realExpenses| && forall i :: 0 <= i < |fractions| ==> b.nominalExpenses[i] == 0.0
    requires FIRST_YEAR <= startYear && startYear - FIRST_YEAR + |fractions| <= YEARS
    requires Feasible(m, startYear, fractions, b.realExpenses) && k <= |fractions|
    ensures Balance(m, startYear, fractions, b.realExpenses, b.startPortfolio, k) ==
      Engine.Simulate(b, fractions, startYear - FIRST_YEAR, k).portfolio
    decreases k
  {
    if k > 0 {
      RetirementMatchesEngine(b, m, inflationPercent, startYear, fractions, k - 1);
      YearMatchesEngine(b, m, inflationPercent, startYear, fractions, k);
    }
  }

  /** If the two paths agree after `k - 1` years, they agree after `k`. */
  lemma YearMatchesEngine(
    b: Engine.Backtest, m: Market, inflationPercent: seq<real>, startYear: int, fractions: seq<real>, k: nat)
    requires Engine.Valid(b) && Engine.BuiltFrom(b, m.stocks, m.bonds, inflationPercent)
    requires |fractions| == |b.realExpenses| && FIRST_YEAR <= startYear && startYear - FIRST_YEAR + |fractions| <= YEARS
    requires Feasible(m, startYear, fractions, b.realExpenses) && 0 < k <= |fractions|
    requires b.nominalExpenses[k - 1] == 0.0
    requires Balance(m, startYear, fractions, b.realExpenses, b.startPortfolio, k - 1) ==
      Engine.Simulate(b, fractions, startYear - FIRST_YEAR, k - 1).portfolio
    ensures Balance(m, startYear, fractions, b.realExpenses, b.startPortfolio, k) ==
      Engine.Simulate(b, fractions, startYear - FIRST_YEAR, k).portfolio
  {
    var y := startYear - FIRST_YEAR + k - 1;
    GrowthIsBlend(m, startYear + k - 1, fractions[k - 1]);
    Reference.BlendIsDeltaForm(b, m.stocks, m.bonds, inflationPercent, y, fractions[k - 1]);
  }

  /** For a calendar year inside the tables, the script's growth is the
      blended return of that year's stock and bond entries. */
  lemma GrowthIsBlend(m: Market, year: int, f: real)
    requires FIRST_YEAR <= year && Spans(m.stocks, year, 1) && Spans(m.bonds, year, 1)
    ensures Growth(m, year, f) == Reference.Blend(m.stocks[year - FIRST_YEAR], m.bonds[year - FIRST_YEAR], f)
  {
  }

  /** The start years the script compares: from FIRST_YEAR, every year
      whose `LENGTH`-year retirement ends within a table of `years`
      entries, in order. */
  function StartYears(years: nat): (ys: seq<int>)
    ensures forall k :: 0 <= k < |ys| ==> ys[k] == FIRST_YEAR + k
    ensures forall y :: y in ys <==> FIRST_YEAR <= y && y + LENGTH <= FIRST_YEAR + years
  {
    var n := if years + 1 >= LENGTH then years + 1 - LENGTH else 0;
    var ys := seq(n, k requires 0 <= k < n => FIRST_YEAR + k);
    forall y | FIRST_YEAR <= y && y + LENGTH <= FIRST_YEAR + years
      ensures y in ys
    {
      assert ys[y - FIRST_YEAR] == y;
    }
    ys
  }

  /** The ending portfolio of the retirement from every start year, with
      the script's expenses and initial portfolio. */
  method EndValues(fractions: seq<real>, m: Market) returns (result: seq<real>)
    requires |fractions| == LENGTH && Fractions(fractions) && |m.bonds| == |m.stocks|
    ensures |result| == |StartYears(|m.stocks|)|
    ensures forall k :: 0 <= k < |result| ==>
      result[k] == Balance(m, StartYears(|m.stocks|)[k], fractions, EXPENSES, INITIAL_PORTFOLIO, LENGTH)
  {
    var startYears := StartYears(|m.stocks|);
    result := [];
    for i := 0 to |startYears|
      invariant |result| == i
      invariant forall k :: 0 <= k < i ==>
        result[k] == Balance(m, startYears[k], fractions, EXPENSES, INITIAL_PORTFOLIO, LENGTH)
    {
      var nestEgg := Retirement(startYears[i], fractions, EXPENSES, INITIAL_PORTFOLIO, m);
      result := result + [At(nestEgg, -1)];
    }
  }

  /** Over full-length tables, the script's ending value for every start
      year is the engine's ending value at the matching offset, for an
      engine built from the same returns with the script's expenses as
      real expenses and no nominal ones. */
  lemma EndValuesMatchEngine(b: Engine.Backtest, m: Market, inflationPercent: seq<real>, fractions: seq<real>)
    requires Engine.Valid(b) && Engine.BuiltFrom(b, m.stocks, m.bonds, inflationPercent)
    requires b.startPortfolio == INITIAL_PORTFOLIO && b.realExpenses == EXPENSES
    requires forall i :: 0 <= i < LENGTH ==> b.nominalExpenses[i] == 0.0
    requires |fractions| == LENGTH && Fractions(fractions)
    ensures var ys := StartYears(|m.stocks|);
      var vs := WorstYearScan.EndValues(b, fractions);
      |ys| == |vs| &&
      forall k :: 0 <= k < |ys| ==>
        Balance(m, ys[k], fractions, EXPENSES, INITIAL_PORTFOLIO, LENGTH) == vs[k]
  {
    var ys := StartYears(|m.stocks|);
    forall k | 0 <= k < |ys|
      ensures Balance(m, ys[k], fractions, EXPENSES, INITIAL_PORTFOLIO, LENGTH) ==
        WorstYearScan.EndValues(b, fractions)[k]
    {
      RetirementMatchesEngine(b, m, inflationPercent, ys[k], fractions, LENGTH);
    }
  }

  /** The positions, in order, of the start years within [minYear, maxYear]. */
  ghost function Kept(startYears: seq<int>, minYear: int, maxYear: int): (ks: seq<nat>)
    ensures forall j :: 0 <= j < |ks| ==> ks[j] < |startYears|
    decreases |startYears|
  {
    if |startYears| == 0 then []
    else
      var n := |startYears| - 1;
      Kept(startYears[..n], minYear, maxYear) + (if minYear <= startYears[n] <= maxYear then [n] else [])
  }

  /** Kept lists only positions whose year is in range, in increasing
      order, so there are at most as many as there are start years. */
  lemma {:induction false} KeptSound(startYears: seq<int>, minYear: int, maxYear: int)
    ensures var ks := Kept(startYears, minYear, maxYear);
      |ks| <= |startYears| &&
      (forall j :: 0 <= j < |ks| ==> minYear <= startYears[ks[j]] <= maxYear) &&
      (forall j, l :: 0 <= j < l < |ks| ==> ks[j] < ks[l])
    decreases |startYears|
  {
    if |startYears| > 0 {
      var n := |startYears| - 1;
      var prefix := startYears[..n];
      KeptSound(prefix, minYear, maxYear);
      var ks := Kept(startYears, minYear, maxYear);
      var pk := Kept(prefix, minYear, maxYear);
      assert forall j :: 0 <= j < |pk| ==> ks[j] == pk[j] && startYears[pk[j]] == prefix[pk[j]];
    }
  }

  /** Kept lists every position whose year is in range. */
  lemma {:induction false} KeptComplete(startYears: seq<int>, minYear: int, maxYear: int)
    ensures forall i :: 0 <= i < |startYears| && minYear <= startYears[i] <= maxYear ==>
      i in Kept(startYears, minYear, maxYear)
    decreases |startYears|
  {
    if |startYears| > 0 {
      var n := |startYears| - 1;
      var prefix := startYears[..n];
      KeptComplete(prefix, minYear, maxYear);
      var ks := Kept(startYears, minYear, maxYear);
      var pk := Kept(prefix, minYear, maxYear);
      forall i | 0 <= i < |startYears| && minYear <= startYears[i] <= maxYear
        ensures i in ks
      {
        if i < n {
          assert prefix[i] == startYears[i];
          var j :| 0 <= j < |pk| && pk[j] == i;
          assert ks[j] == i;
        }
      }
    }
  }

  /** The entries of `target` whose start year lies in [minYear, maxYear],
      in their original order. */
  method Restrict<T>(target: seq<T>, startYears: seq<int>, minYear: int, maxYear: int) returns (result: seq<T>)
    requires |target| == |startYears|
    ensures |result| == |Kept(startYears, minYear, maxYear)| <= |target|
    ensures forall j :: 0 <= j < |result| ==> result[j] == target[Kept(startYears, minYear, maxYear)[j]]
  {
    result := [];
    for i := 0 to |startYears|
      invariant |result| == |Kept(startYears[..i], minYear, maxYear)|
      invariant forall j :: 0 <= j < |result| ==> result[j] == target[Kept(startYears[..i], minYear, maxYear)[j]]
    {
      assert startYears[..i + 1][..i] == startYears[..i];
      if startYears[i] >= minYear && startYears[i] <= maxYear {
        result := result + [target[i]];
      }
    }
    assert startYears[..|startYears|] == startYears;
    KeptSound(startYears, minYear, maxYear);
  }

  /** The lowest value and the year paired with its first occurrence. */
  method Lowest<Y>(values: seq<real>, years: seq<Y>) returns (low: real, lowYear: Y)
    requires |values| == |years| && |values| > 0
    ensures exists k :: IsWorst(values, k) && low == values[k] && lowYear == years[k]
  {
    low := values[0];
    lowYear := years[0];
    ghost var at := 0;
    for i := 0 to |values|
      invariant 0 <= at < |values| && (at < i || at == 0)
      invariant low == values[at] && lowYear == years[at]
      invariant forall j :: 0 <= j < i ==> low <= values[j]
      invariant forall j :: 0 <= j < at ==> low < values[j]
    {
      if values[i] < low {
        low := values[i];
        lowYear := years[i];
        at := i;
      }
    }
    assert IsWorst(values, at);
  }

  /** The stock fraction of glide-path year `year`: a straight line from
      `start` rising by equal steps for `years` years, then `end`. */
  function TentFraction(start: real, end: real, years: nat, year: nat): real
  {
    if year < years then start + (end - start) / (years as real) * (year as real) else end
  }

  /** Builds the bond-tent schedule of `length` years. */
  method BuildBondTent(length: nat, start: real, end: real, years: nat) returns (tent: seq<real>)
    ensures |tent| == length
    ensures forall year :: 0 <= year < length ==> tent[year] == TentFraction(start, end, years, year)
  {
    tent := [];
    for year := 0 to length
      invariant |tent| == year
      invariant forall y :: 0 <= y < year ==> tent[y] == TentFraction(start, end, years, y)
    {
      if year < years {
        tent := tent + [start + (end - start) / (years as real) * (year as real)];
      } else {
        tent := tent + [end];
      }
    }
  }

  /** A rising glide path stays between its two ends and starts at `start`. */
  lemma TentBounds(start: real, end: real, years: nat, year: nat)
    requires start <= end
    ensures start <= TentFraction(start, end, years, year) <= end
    ensures years > 0 && year == 0 ==> TentFraction(start, end, years, year) == start
  {
    if year < years {
      var step := (end - start) / (years as real);
      assert 0.0 <= step;
      assert step * (years as real) == end - start;
      assert step * (year as real) <= step * (years as real);
    }
  }

  /** A rising glide path never lowers the stock fraction from one year to
      a later one. */
  lemma TentMonotone(start: real, end: real, years: nat, y1: nat, y2: nat)
    requires start <= end && y1 <= y2
    ensures TentFraction(start, end, years, y1) <= TentFraction(start, end, years, y2)
  {
    TentBounds(start, end, years, y1);
    if y2 < years {
      var step := (end - start) / (years as real);
      assert 0.0 <= step;
      assert step * (y1 as real) <= step * (y2 as real);
    }
  }

  /** Both schedules the script compares are valid retirement allocations
      of `LENGTH` years. */
  lemma ScriptAllocationsValid(tent: seq<real>)
    requires |tent| == LENGTH
    requires forall y :: 0 <= y < LENGTH ==>
      tent[y] == TentFraction(BOND_TENT_START_STOCKS, BOND_TENT_END_STOCKS, BOND_TENT_YEARS, y)
    ensures Fractions(tent) && Fractions(FIXED_AA) && |FIXED_AA| == LENGTH
  {
    forall y | 0 <= y < LENGTH
      ensures 0.0 <= tent[y] <= 1.0
    {
      TentBounds(BOND_TENT_START_STOCKS, BOND_TENT_END_STOCKS, BOND_TENT_YEARS, y);
    }
  }
}
