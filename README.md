# Retirement calculator — a Dafny model of its projection and chart arithmetic

The retirement calculator (`app.js`) projects a savings balance year by year under
a low and a high annual return rate, and draws both projections on a canvas chart.
This project models:

- **The projection engine** (`computeGrowth`), module `Projection` in
  `projection.dfy`. A running total starts at the current savings. For every year
  index `i` in `0..years`, the engine first records a snapshot: age, total,
  contributions, growth and inflation-adjusted total. Only then does it advance
  the total by one year. The annual cadence takes one step,
  `(t + c) * (1 + r)`. The monthly cadence takes twelve steps,
  `(t + c) * (1 + r/12)`. The method `ComputeGrowth` keeps the source's loops:
  an outer year loop that appends to the snapshot sequence, and the year
  advance. The year advance is the method `AdvanceYear`, which holds the inner
  twelve-month loop and the annual step. `ComputeGrowth` is proved equal to the
  pure specification `Project`,
  which is built from `TotalAt`, `ContributedAt` and `SnapshotAt`. The lemmas
  about the projection are stated about that specification.
- **The calculation step** (`calculate`), module `Calculator` in
  `calculator.dfy`. It runs the age check and then the rate-order check, and
  returns one outcome per rejection. Otherwise it runs the projection once per
  rate, with every other argument shared.
- **The chart geometry** (`drawChart` without the canvas), module `Chart` in
  `chart.dfy`. This covers the axis maximum rounded up to 100000, the horizontal
  step with its divide-by-zero guard, and the `getX`/`getY` coordinate maps. It
  also covers the five gridlines, the band polygon (high totals forwards, then
  low totals backwards), the contribution area, the four stroked polylines and
  the choice of age labels. The band path and the label pass are methods with
  the source's loops, proved against pure specifications.

Money and rates are exact reals. `Math.pow(1 + inflation, i)` is the recursive
`Pow`. `Math.ceil` is built from `real.Floor`. JavaScript's `Math.floor(n / 6)`
on a non-negative length is Dafny's `n / 6`.

`AnnualExample` works the annual case of 10000 saved and 5000 a year at 7%,
with 3% inflation. The total at index 2 is (16050 + 5000) × 1.07 = 22523.5.

## Model

| member | source | states |
|---|---|---|
| `Projection.ComputeGrowth` | app.js:29-50 | The loop returns exactly the specified projection `Project(...)`: `years + 1` snapshots, snapshot `i` recorded before the `i`-th year step. The first snapshot is the untouched savings, with growth 0 and real total equal to the savings. |
| `Projection.ProjectionShape` | app.js:34-47 | Every projection has `years + 1` snapshots, and snapshot `i` has age `currentAge + i`. Contributions are `currentSavings + yearly * i`, with yearly = 12 × contribution when monthly. Growth is total minus contributions. Consecutive totals follow the one-year step (one annual step or twelve month steps). With zero inflation the real total equals the total. |
| `Projection.Pow` | app.js:37 | The inflation factor is non-zero for a non-zero base and positive for a positive base, so the real-total division is defined. |
| `Projection.PowOne` | app.js:37 | `1^i = 1` for every year index. |
| `Projection.NoInflationRealTotal` | app.js:37-38 | With zero inflation, a snapshot's real total is its nominal total. |
| `Projection.MonthStepsAtLeast` | app.js:42-44 | With non-negative balance, contribution and rate, `m` month steps add at least `m` contributions. |
| `Projection.YearStepAtLeast` | app.js:41-47 | Under the same conditions, one year adds at least one year's contributions, under either cadence. |
| `Projection.TotalAtLeastContributed` | app.js:35-47 | With non-negative savings, contribution and rate, the total at every index is at least the contributed figure, and both are non-negative. |
| `Projection.TotalNonDecreasing` | app.js:34-48 | With non-negative savings, contribution and rate, the total is non-decreasing in the year index. |
| `Projection.AdvanceYear` | app.js:41-47 | The year advance of the loop body, the twelve-month loop at `r/12` or the single annual step, ends exactly at the specified one-year step `YearStep`. |
| `Projection.MonthStepMonotone` | app.js:43 | One month step is monotone in the balance and in the rate, for rates of at least -100%. |
| `Projection.MonthStepsMonotone` | app.js:42-44 | Month steps are monotone in the starting balance and in the rate, for rates of at least -100%. |
| `Projection.YearStepMonotone` | app.js:41-47 | A year step is monotone in the starting balance and in the rate, for rates of at least -100%, under either cadence. |
| `Projection.TotalMonotoneInRate` | app.js:41-47 | Two runs that differ only in rate, both with non-negative money and a lower rate of at least -100%: the lower rate's total is non-negative and never above the higher rate's total at the same index. |
| `Projection.MonthStepsPrincipalOnly` | app.js:42-44 | Without contributions, `m` month steps multiply the balance by `(1 + r/12)^m`. |
| `Projection.YearStepPrincipalOnly` | app.js:41-47 | Without contributions, one year multiplies the balance by the yearly factor: `(1 + r/12)^12` when monthly, `1 + r` when annual. |
| `Projection.YearFactorCompounds` | app.js:41-47 | The yearly factor is the factor by which one contribution-free year scales every balance. |
| `Projection.TotalPrincipalOnly` | app.js:34-47 | Without contributions, when a year scales every balance by `f`, the total at index `i` is the savings times `f^i`. With `YearFactorCompounds`, the two cadences differ only through their yearly factors. |
| `Projection.Bernoulli` | app.js:43 | `(1 + x)^n >= 1 + n x` for `x >= -1`, strictly for `n >= 2` and `x != 0`. This is the inequality behind the monthly factor. |
| `Projection.MonthlyFactorExceedsAnnual` | app.js:41-47 | For every rate, `(1 + r/12)^12 >= 1 + r`, with equality exactly when `r = 0`. So the monthly factor is strictly larger for every other rate. |
| `Projection.PowEvenNonNegative` | app.js:43 | An even power of any base is non-negative. This covers the monthly factor below -1200%, where `1 + r/12` is negative. |
| `Projection.PowVersusOne` | app.js:37 | Powers of a non-negative base stay on the same side of 1 as the base, strictly for a positive exponent. |
| `Projection.PowStrictlyMonotone` | app.js:37-43 | A positive power keeps strict order between non-negative bases. |
| `Projection.CadencesDiffer` | app.js:41-47 | With positive savings, no contributions and a non-zero rate of at least -100%, the monthly total is strictly above the annual total at every index from 1 on. |
| `Projection.RealTotalAtMostTotal` | app.js:37-38 | Under non-negative inflation, a non-negative total's real total lies between 0 and the total. |
| `Projection.SnapshotNonNegative` | app.js:34-39 | With non-negative money, a rate of at least -100% and inflation above -100%, every snapshot's total, contributions and real total are non-negative. |
| `Projection.AnnualExample` | app.js:34-47 | The worked annual example: totals 10000, 16050 and 22523.5; contributions 10000, 15000 and 20000; inflation factor 1.0609 at index 2. |
| `Calculator.Calculate` | app.js:52-74 | Rejects exactly when an age is 0 or the retirement age is not after the current age. Otherwise it rejects exactly when the high rate is below the low rate. Otherwise it returns `years = retirementAge - currentAge >= 1` and the two projections. They have equal lengths `years + 1` and agree on age and contributions at every index. When the low rate is at least -100%, every low total is non-negative and at most the high total. |
| `Calculator.ScenarioPair` | app.js:72-74 | Projections that differ only in rate have the same length and agree on ages and contributions at every index. For a lower rate of at least -100%, the low totals are non-negative and never above the high totals. |
| `Chart.MaxOf` | app.js:113 | The result is at least every value of a non-empty list and equal to one of them. |
| `Chart.MaxTotal` | app.js:113 | The result is at least every total of the run and equal to one of them. |
| `Chart.MaxTotalIs` | app.js:113 | A total that bounds every total of the run and is reached by one of them is the run's maximum. |
| `Chart.MaxOfAtMost` | app.js:113 | A bound on every value of a non-empty list bounds its maximum. |
| `Chart.Ceil` | app.js:114 | The least integer not below `x`. |
| `Chart.NiceMax` | app.js:114 | The axis maximum is never 0 and is at least the largest value. It is 1 exactly when the largest value is in (-100000, 0], that is, when the ceiling is 0. Otherwise it is a whole multiple of 100000 less than 100000 above the largest value. It is positive whenever the largest value is above -100000. |
| `Chart.XStep` | app.js:115 | For `n >= 2` the step times `n - 1` is the chart width. For `n == 1` it is the chart width (divisor 1, no division by zero). For `n == 0` it is minus the width. |
| `Chart.XEndpoints` | app.js:115-117 | `getX(0)` is the left padding, and for `n >= 2`, `getX(n - 1)` is the left padding plus the chart width. |
| `Chart.YEndpoints` | app.js:118 | `getY(0)` is the bottom of the plot and `getY(niceMax)` is its top. |
| `Chart.GetYOrder` | app.js:118 | With a positive axis maximum, larger values are drawn higher. Values between 0 and the maximum land between the top and bottom of the plot. |
| `Chart.GridLines` | app.js:126-129 | Five gridlines whose values run from 0 to the axis maximum in steps of a quarter of it. |
| `Chart.GridLinesOnScale` | app.js:126-129 | Each gridline's y is the y that `getY` gives its labelled value. |
| `Chart.BandPath` | app.js:138-144 | The forward pass over the high run and the backward pass over the low run trace exactly `BandPolygon`: the high vertices in order, then the low vertices in reverse. |
| `Chart.BandShape` | app.js:138-144 | For aligned runs, the band has `2n` vertices. Its two joins are vertical: the first and last vertices share x = left padding, and the two middle vertices share an x. When low totals are at most high totals, each high vertex lies directly above its low partner. |
| `Chart.BandEdgesAreLines` | app.js:139-175 | The band's first half is exactly the stroked high line, and its second half reversed is exactly the stroked low line. |
| `Chart.ContributionArea` | app.js:149-153 | The area's two closing vertices sit at `getY(0)`, so the area is closed along the line where value 0 is drawn. They have the same x as the first and last contribution vertices. Between them the area is exactly the contributions polyline. |
| `Chart.StrokedLines` | app.js:157-197 | The four stroked lines have one vertex per snapshot of their run. Vertex `i` is `(getX(i), getY(v))`, where `v` is the high total, the low total, the high real total or the low contributions. |
| `Chart.BandInPlot` | app.js:113-143 | Take aligned runs with non-negative low totals, each at most its high total, and the axis maximum computed from the high run. Then the maximum is positive and covers every high total, and every band vertex lies vertically inside the plot. |
| `Chart.ValueInPlot` | app.js:118 | With a positive axis maximum, a value is drawn between the top and bottom of the plot exactly when it lies in `[0, niceMax]`. |
| `Chart.PolylineInPlot` | app.js:157-197 | A stroked line stays inside the plot exactly when all of its values lie in `[0, niceMax]`. |
| `Chart.AreaInPlot` | app.js:149-153 | The contribution area stays inside the plot exactly when the contributions line does. |
| `Chart.SeriesInPlot` | app.js:138-197 | When every total, high real total and contribution lies in `[0, niceMax]`, the band, the contribution area and all four stroked lines lie inside the plot. |
| `Chart.LinesInPlot` | app.js:113-197 | Take the two runs `calculate` draws, with non-negative money, `0 <= low rate <= high rate` and non-negative inflation. Then the axis maximum the chart takes from the high totals is positive, and the band, the area and all four lines lie inside the plot. |
| `Chart.DeflationLeavesPlot` | app.js:113-182 | As written: 100000 saved, nothing added, rate 0% and -50% inflation for one year. The axis maximum is 100000, the high real total at index 1 is 200000, and its vertex is drawn above the top of the plot. |
| `Chart.NegativeRateLeavesPlot` | app.js:113-153 | As written: nothing saved, 100000 a year at -50% for two years, no inflation. The totals peak at 75000 and the axis maximum is 100000. The contributions at index 2 are 200000, so the contribution area leaves the plot. |
| `Chart.PlotMax` | app.js:113-114 | The corrected axis maximum: the largest plotted value, rounded up as the chart rounds. It is non-zero, covers both totals, the high real totals and the contributions, and is positive when the first high total is non-negative. |
| `Chart.PlotMaxAgrees` | app.js:113-114 | When no plotted value exceeds the largest high total, the corrected maximum equals the chart's. |
| `Chart.PlotMaxUnchangedWithoutDeflation` | app.js:113-114 | Under the conditions of `LinesInPlot`, the corrected maximum equals the chart's for every pair of runs. |
| `Chart.PlotMaxKeepsLinesInPlot` | app.js:113-197 | With the corrected maximum, non-negative money, rates of at least -100% in order and inflation above -100%, the axis maximum is positive and the band, the area and all four lines lie inside the plot. |
| `Chart.LabelInterval` | app.js:203 | The label stride is at least 1. It is 1 for fewer than 12 snapshots. Otherwise it is `floor(n / 6)`, with `6k <= n < 6(k + 1)`. |
| `Chart.LabelsUpToSpec` | app.js:203-208 | The labels are exactly the indices `i` with `i % stride == 0` or `i == n - 1`, in increasing order. Each label carries its snapshot's age and `getX(i)`. |
| `Chart.XAxisLabels` | app.js:203-208 | The label pass over the low run emits exactly the specified label list. |
| `Chart.EndsLabelled` | app.js:203-205 | For a non-empty run, the first label is index 0 and the last label is the last index. |

## Left out

- Input formatting listeners and locale comma insertion (app.js:1-9): DOM event wiring and locale formatting.
- `setFrequency` (app.js:13-19): a global and CSS classes; its effect is the `isMonthly` parameter.
- `parseMoney`, `parseInt` and `parseFloat` on DOM fields (app.js:21-23, 53-60): parsing is not modelled. The money inputs are non-negative reals, as `parseMoney` produces. Ages are integers. A NaN age, which `!currentAge` also rejects, is not representable.
- `formatMoney` (app.js:25-27) and every `textContent`/`classList`/`alert` write in `calculate` (app.js:63, 68, 76-92): presentation. The rejections are the `InvalidAges`/`InvalidRates` outcomes.
- All canvas calls: `devicePixelRatio`, `getBoundingClientRect`, `scale`, `clearRect`, colours, fonts, dashes, `stroke`/`fill` (app.js:96-111 and every `ctx.*` call). The surface width is the parameter of `ChartWidth`. The drawn paths are modelled as vertex lists, and the drawing order of the layers is not modelled.
- IEEE-754 behaviour: rounding, and NaN and Infinity from the `|| 0` / `|| 1` fallbacks. The model uses exact reals. The gap between the monthly factor `(1 + r/12)^12` and the annual factor `1 + r` exists in exact arithmetic too. `MonthlyFactorExceedsAnnual` proves it for the yearly factors at every non-zero rate. `CadencesDiffer` proves it for the totals at every non-zero rate of at least -100%.
- Projection.ComputeGrowth: requires `inflationRate != -1`. At -100% inflation the inflation factor `Math.pow(0, i)` is 1 at index 0 but 0 from index 1 on. From there the source's real total is Infinity, -Infinity for a negative total, or NaN for a zero total. Exact reals cannot represent these values.
- Calculator.Calculate: requires `inflationRate != -1` for the same reason, since it runs `ComputeGrowth`.
- Chart.MaxTotal: requires a non-empty run. `Math.max` of no values is -Infinity. `calculate` always passes at least two snapshots.
- Chart.MaxOf: requires a non-empty list, as `MaxTotal` does.
- Chart.PlotMax: requires two runs of equal, non-zero length, which is what `calculate` passes.
- Chart.GridLinesOnScale: stated for a non-zero axis maximum, which is what `NiceMax` always returns. `getY` divides by the axis maximum.

## Findings

| source | as written | input that shows it | evidently intended | confidence | as-written member | corrected member |
|---|---|---|---|---|---|---|
| app.js:113-182 | The axis maximum is taken from the high totals alone. Under deflation the high real total exceeds the high total and is drawn above the plot. | savings 100000, contribution 0, rates 0%, inflation -50%, 1 year: axis maximum 100000, real total 200000 | An axis maximum that covers every plotted series | not executed | `Chart.DeflationLeavesPlot` | `Chart.PlotMaxKeepsLinesInPlot` (with `Chart.PlotMax`) |
| app.js:113-197 | The same axis maximum. Under a negative rate the contributions exceed the totals, so the contributions line and area are drawn above the plot. | savings 0, contribution 100000 a year, rates -50%, no inflation, 2 years: axis maximum 100000, contributions 200000 | An axis maximum that covers every plotted series | not executed | `Chart.NegativeRateLeavesPlot` | `Chart.PlotMaxKeepsLinesInPlot` (with `Chart.PlotMax`) |
