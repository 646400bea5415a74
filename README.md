# CSP solver dashboard: data aggregation core

The dashboard loads a JSON document of solver-competition results. It takes the
records of its "table" section; each record is one run of a constraint solver
(`name`) on one problem instance of a `family`, with a `status` (SAT, UNSAT, UNKNOWN,
…), a `time` and a number of variables. From these records it derives the data of
six views:

- the per-solver average time, drawn as bars in ascending order of that time;
- the status distribution;
- the per-solver success rates;
- a complexity-versus-time scatter plot of at most 500 points;
- a radar of four fixed solvers over the first six families;
- a heatmap of every solver against the first eight families.

This project models those computations in Dafny and proves what each one returns.

How JavaScript constructs are modelled:

- Records are values (`Results.Record`).
- `parseFloat` yields an `Option<real>`: `None` stands for NaN, so `time < 10000` is false for it.
- `Array.prototype.filter` is `Collections.Filter`.
- `slice(0, n)` is `Collections.Take`.
- `[...new Set(xs)]` is `Collections.Distinct`, the first-occurrence order.
- `Object.keys` of an object filled key by key is mirrored by a sequence of keys kept beside the dictionary.

The three aggregators loop over the records while updating dictionaries. The
radar's nested `forEach` passes fill a dictionary of dictionaries; the heatmap's
push cells onto a list. Each of these is a Dafny `method` with `while` loops over
local `map`s or sequences. Its `ensures` ties the result
to a specification function, and lemmas then state what that function means. The
expressions (`find`, projections, `sort`, `filter`/`slice`, `filter`/`reduce`) are
functions.

Modules:

- `Collections`: filter, take, distinct and first occurrence.
- `Results`: records and `getValidResults`.
- `AverageTime`, `StatusTally`, `SuccessRate`: the three aggregators.
- `BarChart`: the sort.
- `Scatter`: the scatter plot.
- `SolverFamily`: the cell mean and the leading families.
- `Radar`, `Heatmap`: the radar chart and the heatmap.

## Model

| member | source | states |
|---|---|---|
| Results.ValidResults | src/main.js:11-14 | the data of the first section tagged "table"; the empty sequence when no section is tagged "table" |
| Collections.Distinct | src/main.js:204 | `[...new Set(xs)]` has no duplicates and holds exactly the values of `xs` |
| Collections.DistinctKeepsFirstOccurrenceOrder | src/main.js:204 | the distinct values come out in the order of their first occurrence |
| Collections.DistinctIsUnique | src/main.js:204 | any duplicate-free sequence with the same values in first-occurrence order equals `Distinct`, so these properties fully specify it |
| Collections.FilterMembers | src/main.js:200-201 | `filter` keeps exactly the elements that satisfy the predicate |
| Collections.FilterAppend | src/main.js:200-201 | filtering a concatenation concatenates the filters |
| Collections.TakeOfFilterIsFilterOfPrefix | src/main.js:200-202 | cutting a filtered sequence after `n` elements gives the filter of some leading part of the input |
| AverageTime.AverageTimeBySolver | src/main.js:17-34 | the loop over the records that fills `solverTimes`, `solverCounts` and their key order returns exactly `AverageTimes(data)` |
| AverageTime.AccumulateStep | src/main.js:21-28 | one `forEach` step: a qualifying record adds its time and 1 to its own solver, creating the key on first sight; a record that does not qualify changes nothing |
| AverageTime.TimeCountPositive | src/main.js:24-26 | a solver's count is positive exactly when one of its records has a time below 10000 |
| AverageTime.QualifyingSolversHaveCounts | src/main.js:24-30 | the keys of `solverTimes` are exactly the solvers with a positive count |
| AverageTime.QualifyingSolversAreDistinctNames | src/main.js:24-30 | `Object.keys(solverTimes)` lists the distinct names of the qualifying records, in the order in which they first occur |
| AverageTime.AverageTimesListing | src/main.js:30-33 | each solver with a qualifying record is listed exactly once, no other solver is listed, and the order is first occurrence |
| AverageTime.AverageTimeBounds | src/main.js:32 | each average lies between any lower and upper bound of that solver's qualifying times, and below 10000 |
| AverageTime.AverageTimeBelowThreshold | src/main.js:24-32 | every listed average is below 10000, with no bounds asked of the caller |
| AverageTime.SolverMeanBounds | src/main.js:32 | the sum divided by the count of a solver is bounded by its smallest and largest qualifying times, and is below 10000 |
| AverageTime.TimeSumBelowThreshold | src/main.js:24-25 | a sum of qualifying times is below 10000 times their count |
| AverageTime.ExcludedRecordAddsNothing | src/main.js:23-24 | a record with an unparseable time, or one of at least 10000, leaves every sum, every count and the aggregate unchanged wherever it is inserted |
| AverageTime.TimeAppend | src/main.js:21-28 | the sums and counts over two concatenated record sequences add up |
| StatusTally.StatusCounts | src/main.js:37-45 | the result has exactly the keys SAT, UNSAT and UNKNOWN; each counts the records with that status; together they count the records with a known status |
| StatusTally.KnownBucketsCountKnownRecords | src/main.js:40-42 | the three buckets together count exactly the records whose status is one of the three keys |
| SuccessRate.SuccessRateBySolver | src/main.js:48-66 | the loop that fills `solverStats` and its key order returns exactly `SuccessRates(data)` |
| SuccessRate.TallyStep | src/main.js:51-58 | one `forEach` step creates the solver's zeroed tally on first sight, then bumps its status bucket and its total |
| SuccessRate.StatsOfCounts | src/main.js:56-57 | a solver's tally has one bucket per known status counting its records with that status, and a total equal to its record count plus its records whose status is the string "total" |
| SuccessRate.StatsOfTotalPositive | src/main.js:53-57 | every solver that occurs in the data has a total of at least one, so no division is by zero |
| SuccessRate.StatsOfKnownShare | src/main.js:56-57 | the three buckets never exceed the total, and fill it exactly when every record of the solver has a known status |
| SuccessRate.RatePercentages | src/main.js:62-64 | the three percentages lie in [0, 100]; they add up to at most 100, and to exactly 100 iff the buckets fill the total |
| SuccessRate.SuccessRatesMeaning | src/main.js:48-66 | every solver of the data appears once, in first-appearance order; each rate is that status's record count over the total, times 100, within [0, 100]; the three sum to 100 iff all the solver's records carry a known status |
| BarChart.Insert | src/main.js:70-72 | inserting into a sorted sequence keeps it sorted and adds exactly that element |
| BarChart.SortByAverage | src/main.js:70-72 | the result is sorted by ascending average time and is a permutation of the input |
| BarChart.SortByAverageIsStable | src/main.js:70-72 | entries with equal averages keep their relative order, as the stable `Array.prototype.sort` promises |
| BarChart.PerformanceBarsOrder | src/main.js:70-72 | the bars are the per-solver averages, sorted ascending, a permutation of the aggregate, with ties in aggregator order |
| Scatter.ScatterPoints | src/main.js:200-202 | at most 500 points, each with a time below 10000 and a positive variable count |
| Scatter.ScatterPointsArePrefixOfPlottable | src/main.js:200-202 | the points are the plottable records of a leading part of the data; all plottable records when at most 500 exist, else exactly 500 |
| Scatter.ScatterSolvers | src/main.js:204 | the legend solvers have no duplicates and are exactly the names of the drawn points |
| Scatter.ScatterSolversInFirstPointOrder | src/main.js:204 | the legend lists solvers in the order of their first points |
| SolverFamily.CellMean | src/main.js:322-330 | the cell mean is absent exactly when the solver has no qualifying record on the family |
| SolverFamily.CellMeanIsFamilyAverage | src/main.js:322-330 | the cell mean equals the per-solver average of `getAverageTimeBySolver` taken over that family's records alone |
| SolverFamily.CellTotals | src/main.js:322-329 | the `reduce` sum and the length of `filtered` equal the per-solver sum and count over the family's records |
| SolverFamily.CellMeanBounds | src/main.js:326-329 | a cell mean lies between the smallest and largest times it averages |
| SolverFamily.CellMeanBelowThreshold | src/main.js:326-329 | a cell mean is below 10000 |
| SolverFamily.LeadingFamilies | src/main.js:315 | the first `n` distinct families: duplicate-free, `min(n, distinct)` of them, a prefix of the distinct families, each from some record |
| SolverFamily.LeadingFamiliesInFirstOccurrenceOrder | src/main.js:315 | the leading families come in the order of their first records |
| Radar.AtLeastZero | src/main.js:344 | `Math.max(0, x)` is non-negative, at least `x`, and either `x` or 0 |
| Radar.RadarScoreMeaning | src/main.js:322-344 | a pair without a qualifying record scores 0; otherwise 100 - mean/100; a score is positive iff the pair has a qualifying record; with non-negative times every score is in [0, 100] |
| Radar.FamilyRadar | src/main.js:315-344 | the families are the first six; `solverFamilyAvg` has exactly the four top solvers as keys, each row exactly the families, holding 100 - time/100 with 10000 for an empty pair; each plotted value is that pair's radar score |
| Radar.ScoreRowGrows | src/main.js:321-332 | one inner `forEach` step adds the current family with its score and keeps every earlier entry |
| Heatmap.SolverFamilyHeatmap | src/main.js:374-391 | the axes are every distinct solver and the first eight families; the pushed cells are `Grid`, row after row |
| Heatmap.GridLayout | src/main.js:377-391 | the grid holds one cell per (solver, family) pair; cell `i * families + j` is solver `i`, family `j` and that pair's cell mean, `null` exactly when the pair has no qualifying record |
| Heatmap.GridCell | src/main.js:378-389 | the cell of solver `i` and family `j` sits at position `i` times the family count plus `j` and holds that pair's cell mean |
| Heatmap.HeatmapAxes | src/main.js:374-375 | the solvers are duplicate-free and are exactly the names of the data; there are `min(8, distinct)` families; the grid has `solvers * families` cells |

## Left out

- Rendering: Chart.js and D3 drawing, scales, colours, legends and tooltips are not modelled. Neither are DOM access, the `init` function that builds the layout and calls the six renderers, or the CSS and JSON imports. The JSON document is a parameter (`Results.ValidResults`) and the records are parameters of every function.
- Floating point: times and variable counts are exact reals. There is no IEEE rounding, and infinities are not modelled; `parseFloat` results are given as `Option<real>`, with `None` for NaN.
- `Object.keys` ordering: JavaScript lists integer-like keys (a solver named "42") first, in numeric order. The model keeps pure insertion order. Keys that collide with `Object.prototype` members (`constructor`, `__proto__`) are treated as ordinary keys.
- SuccessRate.Stats: a status other than SAT, UNSAT, UNKNOWN or "total" creates an extra property on the solver's tally. Nothing reads that property, so it is not kept. The "total" status, which bumps `total` twice, is modelled.
- Radar.FamilyRadar: builds each solver's row in a local map and stores it when the row is complete. The source assigns the empty object first and writes into it through the outer dictionary. The two produce the same final state.
- BarChart.SortByAverage: models `Array.prototype.sort` as a stable insertion sort. The engine's actual algorithm is not modelled; the result is the same, because a stable sort under a given comparator has one result.
