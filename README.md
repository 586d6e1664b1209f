# Take-rate pricing calculator: verified model of the calculation core

The pricing calculator page projects net revenue over a 36-month horizon
under three take-rate scenarios. Scenario 1 applies a static percentage.
Scenarios 2 and 3 are stepped schedules: a list of rates plus a list of
period lengths. This project models the part of the page that computes
numbers:

- **Period padding.** The user's period lengths get one extra period,
  `months - sum(periods)`. That remainder may be zero or negative.
- **`generate_stepped_take_rate`.** For each month `1..months` it finds the
  first cumulative period boundary that the month does not exceed and
  appends the rate at that index. A month with no such boundary gets no
  entry. A matched index with no rate raises an index error.
- **The table and its revenue columns.** Gross revenue is constant. Net
  revenue per month is `gross * (rate / 100)`. The cumulative series is the
  running total of net revenue. The summary table sums net revenue over the
  rows whose Month is at most 3, 6, 12, 24 and 36.

The model is split into four modules:

- `Schedule` (`schedule.dfy`) holds the padding and the generator.
  `PadPeriods` and `GenerateSteppedTakeRate` are imperative methods with the
  source's loops: a summing loop, then two nested loops with an early
  `break`. Each is proved equal to a pure specification (`Pad`,
  `SteppedSchedule`), and the properties are lemmas about those
  specifications.
- `Revenue` (`revenue.dfy`) holds the column arithmetic as functions over
  sequences of reals.
- `Calculator` (`calculator.dfy`) runs one whole recomputation of the page
  (`Project`). It builds the monthly table and fails, as `pd.DataFrame`
  does, when its columns differ in length.
- `Defaults` (`defaults.dfy`) works the page's default inputs through the
  model.

The source raises an exception on an index error or on columns of unequal
length. The model returns `Failure` in those cases (see `results.dfy`).

Three behaviours of the code shape the model:

- A month past every boundary gets no entry at all (`app.py:51-54`), so a
  schedule can be shorter than the horizon. `PaddingCoversEveryMonth`
  proves that the padding prevents this: after padding, every month up to
  the horizon has a matching boundary.
- The code never compares the lengths of the rate and period lists. It
  fails only when a month's first matching index has no rate (`app.py:53`).
  The model has exactly that error (`IndexOutOfRange`), reported for the
  first such month.
- The remainder period is appended whatever its sign (`app.py:39-40`).
  `OverrunRemainderHarmless` proves that a zero or negative remainder
  changes nothing.

## Model

| member | source | states |
|---|---|---|
| `Schedule.CumSumIsPrefixSums` | app.py:49 | `np.cumsum(periods)` has, at index `i`, the sum of periods `0..i` |
| `Schedule.CumSumNonDecreasing` | app.py:49 | With no negative period, the boundaries never go down |
| `Schedule.PadPeriods` | app.py:38-44 | The padding step keeps the user's periods, appends exactly one period and makes the list sum to `months` (equal to `Pad`) |
| `Schedule.PadEndsAtHorizon` | app.py:39-40 | After padding, the periods sum to `months` whatever the remainder's sign, and the boundaries are the user's own followed by `months` itself |
| `Schedule.FirstMatch` | app.py:51-54 | The inner loop's stopping index is the smallest `i` with `m <= cum[i]`; None means `m` exceeds every boundary |
| `Schedule.SteppedSchedule` | app.py:47-55 | A successful schedule has at most `months` entries, and none when `months <= 0` |
| `Schedule.GenerateSteppedTakeRate` | app.py:47-55 | The nested loops with `break` compute exactly `SteppedSchedule` over `np.cumsum(periods)`, including the index error at the first month whose matching index has no rate |
| `Schedule.FailureSticks` | app.py:53 | Once a month raises, the whole call raises with that month's error |
| `Schedule.ScheduleEntries` | app.py:50-54 | A successful schedule holds, in order, the rate at the first matching index for months 1, 2, ...; it stops exactly at the first month with no matching boundary |
| `Schedule.ScheduleDrawsFromRates` | app.py:53 | Every entry of a successful schedule is one of the given rates |
| `Schedule.ScheduleSucceedsIff` | app.py:53 | The generator succeeds if and only if every month up to the horizon that has a first matching index finds a rate at that index |
| `Schedule.ScheduleFailure` | app.py:53 | A failure names a month in `1..months` whose first matching index is at least `len(take_rates)`, and every earlier month succeeded |
| `Schedule.EnoughRatesSucceed` | app.py:53 | With at least as many rates as boundaries, the generator never fails |
| `Schedule.ScheduleLength` | app.py:50-54 | A successful schedule has at most `months` entries, and exactly `months` if and only if some boundary is at least `months` |
| `Schedule.FirstMatchMonotone` | app.py:51-54 | A later month never stops at an earlier boundary index. This holds for any periods, not only positive ones |
| `Schedule.RateFillsItsBlock` | app.py:49-54 | With non-negative periods, rate `i` is chosen for month `m` if and only if `cum[i-1] < m <= cum[i]` (just `m <= cum[0]` for `i = 0`) |
| `Schedule.ScheduleBlock` | app.py:49-55 | With non-negative periods and a rate for each, every month in block `i` (after boundary `i-1`, up to boundary `i`) gets rate `i` in the generated schedule |
| `Schedule.MatchSurvivesAppend` | app.py:51-54 | Appending a boundary never changes a month that an earlier boundary already matched, since the first match wins |
| `Schedule.ScheduleDependsOnMatchesOnly` | app.py:50-54 | Two boundary lists with the same first match for every month give the same schedule |
| `Schedule.PaddingCoversEveryMonth` | app.py:39-54 | After padding, every month up to the horizon has a matching boundary. A successful schedule then has exactly `months` entries, and having more rates than user periods guarantees success |
| `Schedule.OverrunRemainderHarmless` | app.py:39-54 | When the user's periods already reach the horizon, every month matches an earlier boundary. The zero or negative remainder then leaves the schedule unchanged |
| `Revenue.NetRevenueBounds` | app.py:70-72 | `gross * (rate / 100)` is non-negative for non-negative gross and rate, and at most gross when the rate is at most 100 |
| `Revenue.Cumulative` | app.py:83 | `cumsum()` has one entry per row, and entry `i` is the total of net revenue over rows `0..i` |
| `Revenue.WindowIsPrefixTotal` | app.py:157-161 | Over the Month column 1..n, the rows with Month `<= b` are the first `b` rows (none for `b <= 0`, all for `b >= n`) |
| `Revenue.WindowMatchesCumulative` | app.py:157-173 | The window total for `b` equals the cumulative series at month `b`. A window reaching the horizon is the grand total, which is also the cumulative series' last entry |
| `Revenue.WindowMonotone` | app.py:157-173 | With non-negative net revenue, a larger window never totals less, whatever the Month column holds |
| `Revenue.SummaryNonDecreasing` | app.py:154-173 | With non-negative net revenue, a scenario's summary totals satisfy 3 <= 6 <= 12 <= 24 <= 36 months |
| `Revenue.SummaryAgreesWithCumulative` | app.py:154-173 | Over 36 months, each summary total is the cumulative series at its window's last month, and the 36-month total is the grand total |
| `Calculator.MakeFrame` | app.py:61-69 | The table builds if and only if every column is `months` long (otherwise a column-length error). A built table holds the given columns next to the Month column 1..months |
| `Calculator.ProjectFailsOnlyOnIndex` | app.py:39-69 | A projection succeeds if and only if both stepped schedules succeed. Because of the padding, building the table never fails on column lengths |
| `Calculator.ProjectWithEnoughRates` | app.py:39-58 | More rates than user periods in both stepped scenarios guarantees a projection |
| `Calculator.ScenariosIndependent` | app.py:57-97 | Of two successful projections with the same gross revenue and static rate, the static scenarios agree. A stepped scenario with the same rates and periods agrees too, whatever the other stepped scenario's inputs |
| `Calculator.EvaluateConsistent` | app.py:70-97 | For any horizon, one scenario's net revenue is `gross * (rate / 100)` row by row, its cumulative series is the running total at every month, and each summary entry totals the rows up to its window. Over 36 months each summary entry is the cumulative value at its window's last month, and the 36-month entry is the grand total |
| `Calculator.ProjectionConsistent` | app.py:57-173 | In a successful projection, each of the three scenarios has net, cumulative and summary series computed as above from the table's gross column and that scenario's own rate column. The gross column is the constant gross revenue, scenario 1's rates are the static rate and scenarios 2 and 3 use the two generated schedules |
| `Calculator.ProjectionNonNegative` | app.py:13-72 | With non-negative gross, static rate and stepped rates, all net revenue is non-negative and every summary row is non-decreasing |
| `Defaults.DefaultPadding` | app.py:23-40 | The default periods 3 and 12 are padded with 21, giving the boundaries 3, 15 and 36 |
| `Defaults.DefaultSchedule` | app.py:22-58 | With the default periods, any three rates fill months 1-3, 4-15 and 16-36 with the first, second and third rate |
| `Defaults.DefaultStaticScenario` | app.py:157-161 | 6000 a month at 20% nets 1200 a month and totals 3600, 7200, 14400, 28800 and 43200 |
| `Defaults.DefaultSecondSteppedScenario` | app.py:168-173 | 6000 a month at 35% for months 1-3 and 25% for months 4-15 totals 6300 over 3 months and 19800 over 12 |
| `Defaults.DefaultProjection` | app.py:12-28 | The default page projects successfully, with the static, first stepped and second stepped figures above |

## Left out

- The page's widgets, sidebar, expanders, tabs and `st.dataframe` / `st.plotly_chart` output (`app.py:7-28`, `app.py:75`, `app.py:114`, `app.py:151`, `app.py:175-180`). They are interface and I/O. Their input values are parameters of `Project`, and the widgets' bounds (gross at least 0, static rate between 0 and 100) appear as lemma premises.
- Building the Plotly figures (`app.py:77-151`). It only renders the series. The cumulative series those charts plot is modelled (`Cumulative`).
- Parsing the text inputs with `split(',')`, `float` and `int` (`app.py:31-36`). The parsed lists are inputs to the model.
- `round()` and the `"${:,.2f}"` currency formatting of the summary table (`app.py:157-173`). These are display formatting on floats; the model keeps the unrounded totals.
- Floating-point arithmetic. Rates and revenue are exact reals, so float rounding in `rate / 100`, in the products and in the running sums is not captured. Period lengths and boundaries are unbounded integers, so a 64-bit overflow in `np.cumsum` is not captured either.
- The DataFrame as a library object (`app.py:61-69`). It is modelled as a record of columns whose only behaviour is the equal-length check.
- Partial results. When either stepped schedule raises its index error, the source aborts the whole page and `Project` returns a `Failure` for the whole projection; no scenario's figures exist then (`ProjectFailsOnlyOnIndex`). Independence of the scenarios is stated only for successful projections (`ScenariosIndependent`).
