# Retirement backtest: a Dafny model

This project models the core of a retirement-portfolio backtester and proves properties of it. The backtester has two parts.

**The Rust engine** (`backtest/src/lib.rs`) works over historical stock, bond and inflation tables that cover the calendar years 1871 to 2020.
- It turns the percentage tables into per-year multipliers.
- It simulates one retirement path. Each year it withdraws real and deflated nominal expenses, then grows the rest by a stock/bond blend.
- For every feasible start year it records where the path ends, and keeps the worst and second-worst results.
- It searches a grid of parameter vectors for the allocation whose worst start year ends highest. The grid is enumerated by an odometer over real-valued ranges.

**The Python comparison script** (`bond_tent_vs_fixed.py`) runs the same kind of path without inflation.
- It returns the whole year-by-year trajectory.
- It collects the ending value for every start year.
- It filters results by start year and finds the first lowest value.
- It builds the two schedules it compares: a fixed 70% stock allocation, and a "bond tent" glide path that rises from 50% to 100% stocks over 15 years.

The model is organised in modules:
- `Series` (`series.dfy`): the first table year and the number of years.
- `Odometer` (`odometer.dfy`):
  - the ranges;
  - the reference successor function `Advance`;
  - the in-place `Update` on an array;
  - a termination measure;
  - the grid as the odometer's orbit.
- `Engine` (`engine.dfy`):
  - the `Backtest` record and its construction;
  - the path simulation as a fold (`Simulate`, `SimulateGeneral`);
  - the loop methods proved equal to those folds.
- `Reference` (`reference.dfy`): the test-only step-by-step simulator (a class with mutable fields) and the equivalence test.
- `Scanning` (`scanning.dfy`):
  - the worst/second-worst tracker with strict `<`;
  - the ceiling check that aborts a scan;
  - their specification.
- `WorstYearScan` (`worst_year.dfy`): the worst-year loops.
- `GridSearch` (`grid_search.dfy`): the best-allocation search, and its specification as a fold over the grid.
- `BondTent` (`bond_tent.dfy`): the Python script.

Numbers are Dafny `real`, which stands in for `f64`.
- The `+inf` starting sentinels of the worst-year scans, and the `usize::MAX` year that goes with them, are modelled as `Option.None`. So is the `-inf` sentinel of the best-allocation search, which goes with year 0 and an empty vector.
- A Rust `assert!` on the inputs becomes a `requires`.
- The `value < 1e12` assertion inside the scans is modelled as an explicit outcome: `Blowup` in a scan, `Aborted` in the search. So this error path is modelled rather than excluded.

## Model

| member | source | states |
|---|---|---|
| Odometer.Starts | backtest/src/lib.rs:488-490 | the first vector holds every range's start, one per range |
| Odometer.Advance | backtest/src/lib.rs:287-304 | the successor of a vector has the same length (its behaviour is pinned down by the four lemmas below) |
| Odometer.AdvanceAtPivot | backtest/src/lib.rs:289-301 | when `i` is the last dimension with room (below `end - step/2`), the step does not wrap. The new vector keeps every earlier index, sets index `i` to `min(old + step, end)`, which is `<= end`, and resets every later index to its start. Such an `i` is unique |
| Odometer.AdvanceWithoutPivot | backtest/src/lib.rs:289-303 | when no dimension has room, the step wraps and every index is reset to its start |
| Odometer.WrapsIffNoRoom | backtest/src/lib.rs:289-303 | the counter wraps exactly when every dimension is at or past `end - step/2` |
| Odometer.PivotExists | backtest/src/lib.rs:289-301 | a step that does not wrap has a pivot, so with `AdvanceAtPivot` a step that returns false changes the vector around exactly one index |
| Odometer.Update | backtest/src/lib.rs:287-304 | the in-place reverse loop leaves the array equal to `Advance(...).next` and returns `Advance(...).wrapped` |
| Odometer.AdvanceStaysInRange | backtest/src/lib.rs:292-299 | the successor of an in-range vector is in range: the clamp keeps each value `<= end` |
| Odometer.AdvanceDecreases | backtest/src/lib.rs:498-514 | every step that does not wrap strictly lowers a natural-number measure, so the search loop ends (given positive steps and non-empty ranges) |
| Odometer.Traversal | backtest/src/lib.rs:498-514 | the vectors visited from a given vector start with that vector |
| Odometer.Grid | backtest/src/lib.rs:485-514 | the search visits the all-starts vector first |
| Odometer.TraversalShape | backtest/src/lib.rs:498-514 | every visited vector is in range. Each one is followed by its non-wrapping successor, and the last one is the only vector whose successor wraps |
| Odometer.GridStep | backtest/src/lib.rs:511-513 | grid vector `n` is in range. Its advance wraps exactly when it is the last grid vector; otherwise the advance gives vector `n + 1` |
| Odometer.LastVectorNearEnd | backtest/src/lib.rs:291-303 | in the last grid vector every dimension lies within half a step below its end, not necessarily at it |
| Odometer.EndSkipped | backtest/src/lib.rs:291-303 | for 0..1 by 0.3 the odometer goes 0.6 to 0.9 and then wraps |
| Odometer.EndNeverVisited | backtest/src/lib.rs:498-514 | for 0..1 by 0.3 the search visits exactly 0, 0.3, 0.6 and 0.9, so it never visits the end value 1 |
| Engine.New | backtest/src/lib.rs:316-348 | the built backtest holds, for every historical year, `1 + bonds/100`, `(stonks - bonds)/100` and `1 + inflation/100`. It keeps the inputs, and its inflation multipliers are non-zero |
| Engine.Step | backtest/src/lib.rs:354-365 | one year keeps the inflation factor non-zero, so the next deflation is defined |
| Engine.Simulate | backtest/src/lib.rs:350-376 | the path state after `k` years has a non-zero inflation factor |
| Engine.SingleRun | backtest/src/lib.rs:350-376 | the loop returns the portfolio of the fold `p' = (p - (nominal/infl + real)) * (bond + f * delta)`, with `infl' = infl * inflation`, starting from the start portfolio and 1.0 |
| Engine.SimulateGeneral | backtest/src/lib.rs:378-416 | the state after `k` years of a policy-driven path has a non-zero inflation factor |
| Engine.SingleRunGeneral | backtest/src/lib.rs:378-416 | the loop returns the portfolio of the fold in which the policy chooses each year's fraction from the current portfolio and the years left |
| Engine.FixedPolicyAgrees | backtest/src/lib.rs:378-416 | a policy that reads the fraction from a fixed sequence by years left gives exactly the fixed-sequence path |
| Engine.InflationCompounds | backtest/src/lib.rs:365 | after `k` years the inflation factor is the product of the `k` inflation multipliers from the start offset |
| Reference.SimpleBacktest.constructor | backtest/src/lib.rs:21-52 | the simulator starts at year 0, with the start portfolio and inflation factor 1, holding the given inputs |
| Reference.SimpleBacktest.OneIteration | backtest/src/lib.rs:58-69 | one call advances the year counter and applies the textbook reference step to the portfolio and the inflation factor |
| Reference.ReferenceStep | backtest/src/lib.rs:58-69 | a reference year keeps the inflation factor non-zero |
| Reference.ReferenceRun | backtest/src/lib.rs:58-69 | `k` reference iterations keep the inflation factor non-zero |
| Reference.BlendIsDeltaForm | backtest/src/lib.rs:62-65 | the textbook blend `(1+s/100)*f + (1+b/100)*(1-f)` equals the engine's `bond_return + f * delta_return` |
| Reference.StepMatchesReference | backtest/src/lib.rs:58-69 | one engine year equals one reference year from the same state |
| Reference.EngineMatchesReference | backtest/src/lib.rs:92-105 | the engine path over `k` years equals `k` reference iterations |
| Reference.PrefixMatchesReference | backtest/src/lib.rs:92-101 | a backtest built from the first `n` years of the schedule ends where `n` reference iterations do |
| Reference.EnginePrefixRun | backtest/src/lib.rs:92-101 | building a backtest from the prefix and running it gives the `n`-iteration reference portfolio |
| Reference.Compare | backtest/src/lib.rs:72-106 | for every prefix length the engine's end portfolio equals the reference simulator's, exactly over the reals, and both equal the reference fold |
| Scanning.TrackPreserves | backtest/src/lib.rs:428-436 | one strict-`<` tracker update keeps it holding the worst and second-worst of the values seen, earliest index first on ties |
| Scanning.ScanSummarizes | backtest/src/lib.rs:423-437 | scanning all values yields the minimum at its first index and, among the other indices, the minimum at its first index; each is present exactly when there are enough values |
| Scanning.FirstBlowup | backtest/src/lib.rs:426-427 | the first index whose value is `>= 1e12` (or the length): every earlier value is below the ceiling |
| Scanning.AssessCharacterized | backtest/src/lib.rs:418-444 | a scan aborts exactly when some run reaches 1e12, at the first such run. Otherwise it reports the worst run and the second-worst among the others, with the earliest start year on ties, as calendar years (offset + 1871). The second entry exists exactly when there are at least two start years. Negative values are ordinary results |
| WorstYearScan.EndValues | backtest/src/lib.rs:425-426 | one end value per start offset `0..=YEARS-L`, each the simulated fixed-fraction path |
| WorstYearScan.EndValuesGeneral | backtest/src/lib.rs:456-457 | one end value per start offset, each the simulated policy-driven path |
| WorstYearScan.WorstYear | backtest/src/lib.rs:418-445 | the loop's result is `Assess` of the end values at every offset |
| WorstYearScan.WorstYearGeneral | backtest/src/lib.rs:447-477 | the same for a policy-driven path |
| GridSearch.Outcomes | backtest/src/lib.rs:499-501 | one worst-year outcome per grid vector |
| GridSearch.ChooseKeepsMaximum | backtest/src/lib.rs:502-509 | a search that did not abort returns some visited vector. Its worst value is `>=` that of every visited vector, and no earlier vector reaches it (strict `>` keeps the first on ties). The second-worst entry it returns is that vector's own |
| GridSearch.ChooseStopsAtBlowup | backtest/src/lib.rs:499-501 | an aborted search stopped at a vector whose scan blew up, and every earlier vector scanned cleanly |
| GridSearch.AbortIsFinal | backtest/src/lib.rs:499-501 | once the search has aborted, later vectors change nothing |
| GridSearch.ChooseExtends | backtest/src/lib.rs:502-509 | a running search takes in the next clean vector by the strict-`>` replacement |
| GridSearch.ChooseAbortsAt | backtest/src/lib.rs:499-501 | a running search that meets a blown-up scan ends aborted at that vector |
| GridSearch.BestFractions | backtest/src/lib.rs:479-522 | the loop's result is the search fold over the odometer's grid and its scan outcomes |
| BondTent.Trajectory | bond_tent_vs_fixed.py:98-110 | one year-end value per year of the path |
| BondTent.TrajectoryRecurrence | bond_tent_vs_fixed.py:100-109 | entry `k` is entry `k-1` (the initial portfolio for `k = 0`) minus `expenses[k]`, times `f*(1+s/100) + (1-f)*(1+b/100)` for year `start_year + k` |
| BondTent.Retirement | bond_tent_vs_fixed.py:87-110 | the loop returns that trajectory, given equal lengths and fractions in [0, 1] |
| BondTent.RetirementMatchesEngine | bond_tent_vs_fixed.py:98-110 | with no nominal expenses, the script's path ends where the engine's `Simulate` does from the matching offset |
| BondTent.YearMatchesEngine | bond_tent_vs_fixed.py:102-107 | agreement after `k-1` years carries over to `k` years |
| BondTent.GrowthIsBlend | bond_tent_vs_fixed.py:105-107 | the script's yearly growth is the textbook blend of that year's table entries |
| BondTent.StartYears | bond_tent_vs_fixed.py:113-118 | the start years are consecutive from 1871, and are exactly the years whose `LENGTH`-year retirement fits in the table |
| BondTent.EndValues | bond_tent_vs_fixed.py:121-125 | one entry per start year, each the last trajectory value of that start year |
| BondTent.EndValuesMatchEngine | bond_tent_vs_fixed.py:121-125 | over tables of exactly `YEARS` (150) entries, the script's ending values equal the engine's per-offset ending values for the same returns and expenses |
| BondTent.Kept | bond_tent_vs_fixed.py:150-152 | the kept positions index into the start years |
| BondTent.KeptSound | bond_tent_vs_fixed.py:150-152 | kept positions are strictly increasing and have start years within `[min_year, max_year]`; there are at most as many as there are entries |
| BondTent.KeptComplete | bond_tent_vs_fixed.py:150-152 | every position whose start year is within `[min_year, max_year]` is kept |
| BondTent.Restrict | bond_tent_vs_fixed.py:147-153 | the result is `target` at exactly the kept positions, in order; it is no longer than `target` |
| BondTent.Lowest | bond_tent_vs_fixed.py:156-164 | for a non-empty list, `(low, low_year)` is `(values[k], years[k])` for the first `k` attaining the minimum, and `low` is `<=` every value |
| BondTent.BuildBondTent | bond_tent_vs_fixed.py:76-84 | the schedule has `length` entries: the linear formula `start + (end-start)/years*year` before `years`, and `end` after |
| BondTent.TentBounds | bond_tent_vs_fixed.py:77-84 | a rising glide path stays within `[start, end]` and begins at `start` |
| BondTent.TentMonotone | bond_tent_vs_fixed.py:77-84 | a rising glide path never lowers the stock fraction |
| BondTent.ScriptAllocationsValid | bond_tent_vs_fixed.py:75-84 | the bond tent and the fixed allocation are both `LENGTH` fractions in [0, 1], so they pass the asserts in `retirement` |

## Left out

- IEEE-754 rounding: arithmetic is exact over the reals, so the equivalence test asserts equality instead of a `1e-3` tolerance. The odometer's half-step tolerance is an exact comparison.
- The historical tables are parameters of length `YEARS` rather than literal constants. `Backtest::new` reads the global inflation table; here the table is an argument of `Engine.New`.
- An inflation rate of exactly -100% is excluded. It would make a deflation divide by zero, which gives an infinity or a NaN in `f64` and is undefined over the reals.
- Odometer termination: the source never checks its ranges. The search requires positive steps and `start <= end` (`WellFormed`); with other ranges the source may loop forever.
- GridSearch.BestFractions requires the allocation mapping to produce one fraction per expense year for every vector, not only for the visited ones. The source panics on a visited vector that breaks this.
- WorstYearScan.WorstYear does not model `usize::MAX + FIRST_YEAR`. When the schedule spans all `YEARS` there is one start offset and no second-worst run. The source then adds 1871 to `usize::MAX`, which panics in a debug build and wraps in a release build. The model reports no second entry (`None`).
- WorstYearScan.WorstYearGeneral does not model `usize::MAX + FIRST_YEAR` either. When there is a single start offset, the source adds 1871 to the `usize::MAX` sentinel, which panics in a debug build and wraps in a release build. The model reports no second entry (`None`).
- The post-loop `assert!(worst_year <= YEARS)` is not modelled. It always holds, because the first offset always replaces the `+inf` sentinel.
- The `verbose` printing in `single_run` and `single_run_general` is not modelled. That includes `expense_ratio` and `allowable`, which only feed the output.
- `print_fractions` and `find_best_ranges` are not modelled: they are diagnostics and timing.
- The external fraction mapping and allocation policies are uninterpreted function parameters.
- BondTent.Retirement requires every table index to be within the table. The source raises an index error otherwise, and a negative index (a start year before 1871) counts from the end of the list, as `At` models.
- BondTent.EndValues uses the script's fixed `EXPENSES` and `INITIAL_PORTFOLIO`, as the script does. Its table lengths are the length of the stock table.
- BondTent.EndValuesMatchEngine applies only to tables of exactly `YEARS` entries, because the engine's backtest is built over `YEARS` historical years. The script's own tables have 151 entries, so the script has one more start year than the engine. The agreement for that table length is not stated.
- BondTent.Lowest requires a non-empty list. The source raises an index error on an empty list.
- The plotting (`plot`, `imgfname`, `colors`), the disabled `if False:` block and the top-level calls that draw and save figures are not modelled.
- Odometer.LastVectorNearEnd does not state that each dimension's last value is its `end`. A range is naturally read as running up to `end`, but the code stops within half a step of it, which can be below it (`Odometer.EndNeverVisited`). The model follows the code.
