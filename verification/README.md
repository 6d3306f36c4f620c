# Sustainability dashboard: data layer in Dafny

The sustainability dashboard has two independent React views. Beneath the rendering, each holds a small amount of data logic, and this project models that logic:

- The **chart view** (`src/components/Dashboard.jsx`) keeps a list of daily records. It narrows the list to an inclusive `[start, end]` window of ISO date strings, but only when both bounds are chosen. It also keeps a dark-mode flag. The flag is read from client storage, flipped by a button, and written back as `"true"` / `"false"`.
- The **card view** (`src/Dashboard.jsx`) generates a series of mock daily records ending today. Its cards show the total emissions, the total savings and the rounded mean air-quality index. Its bar chart shows the last seven records.

Modules:

- `LexOrder` (`lex_order.dfy`) models JavaScript's `<` on strings. It proves that `<=` is a total order.
- `Records` (`records.dfy`) holds the daily record. The record is generic in its date. The chart view uses date strings. The generator uses UTC day numbers.
- `DateFilter` (`date_filter.dfy`) holds the window state, the two date inputs and the filtering effect.
- `Theme` (`theme.dfy`) holds the theme flag, its string encoding, storage, and the mount/click session.
- `MockSeries` (`mock_series.dfy`) is `generateMockData`. The clock readings (one per record, as the code calls `Date.now()` inside the per-record callback) and the random draws are parameters.
- `Summary` (`summary.dfy`) covers `aggregateData`, its `reduce` loops, and `slice(-7)`.
- `CardView` (`card_view.dfy`) combines the generator with the cards and the bar chart.

Two behaviours of the code worth knowing:

- **Average of an empty list.** `aggregateData` runs on the empty initial data, divides `0 / 0` and gets `NaN`. The model keeps `NaN` as its own `Average` case rather than substituting a number.
- **Date bounds.** The filter is switched off only when a bound is the empty string. Any other string, well-formed date or not, is used as a bound and compared as a string.

## Model

| member | source | states |
|---|---|---|
| LexOrder.LexLt | sustainability-dashboard/src/components/Dashboard.jsx:105 | string `<`: a proper prefix is below the longer string, and nothing is below the empty string |
| LexOrder.LexLe | sustainability-dashboard/src/components/Dashboard.jsx:105 | `a <= b`, evaluated as `!(b < a)`, holds exactly when the strings are equal or `a < b` |
| LexOrder.LexLtCharacterization | sustainability-dashboard/src/components/Dashboard.jsx:105 | both directions of the string `<` rule: `a < b` if and only if `a` is a proper prefix of `b` or the first differing character of `a` is the smaller |
| LexOrder.LexLtAtFirstDifference | sustainability-dashboard/src/components/Dashboard.jsx:105 | string `<` holds when both strings agree up to a position and the first has the smaller character there |
| LexOrder.LexLtTrichotomy | sustainability-dashboard/src/components/Dashboard.jsx:105 | any two date strings are equal, or one is strictly before the other |
| LexOrder.LexLeTransitive | sustainability-dashboard/src/components/Dashboard.jsx:105 | `a <= b` and `b <= c` give `a <= c`; the window test relies on this |
| LexOrder.LexLeAntisymmetric | sustainability-dashboard/src/components/Dashboard.jsx:105 | two strings that are each `<=` the other are equal |
| LexOrder.LexLeTotal | sustainability-dashboard/src/components/Dashboard.jsx:105 | of any two strings, one is `<=` the other |
| LexOrder.IsoDatesExample | sustainability-dashboard/src/components/Dashboard.jsx:105 | "2025-01-05" < "2025-01-10"; the tenth is not `<=` the fifth |
| DateFilter.InRange | sustainability-dashboard/src/components/Dashboard.jsx:105 | the test `date >= start && date <= end`; any date it admits forces `start <= end` |
| DateFilter.Active | sustainability-dashboard/src/components/Dashboard.jsx:102 | `start && end` is true exactly when both bounds are non-empty strings |
| DateFilter.FilterByDates | sustainability-dashboard/src/components/Dashboard.jsx:104-106 | every kept record satisfies `start <= date <= end`; the result is an order-preserving subsequence of the input and no longer than it |
| DateFilter.FilterCounts | sustainability-dashboard/src/components/Dashboard.jsx:104-106 | each in-window record occurs in the result exactly as often as in the input; every other record occurs zero times |
| DateFilter.FilterComplete | sustainability-dashboard/src/components/Dashboard.jsx:104-106 | completeness: every input record inside the window is in the result |
| DateFilter.FilterConcat | sustainability-dashboard/src/components/Dashboard.jsx:104-106 | filtering `a + b` equals filtering `a` followed by filtering `b` |
| DateFilter.FilterKeepsInRange | sustainability-dashboard/src/components/Dashboard.jsx:104-106 | a list lying wholly inside the window comes back unchanged |
| DateFilter.FilterIdempotent | sustainability-dashboard/src/components/Dashboard.jsx:104-106 | filtering an already filtered list with the same window changes nothing |
| DateFilter.FilterReversedIsEmpty | sustainability-dashboard/src/components/Dashboard.jsx:105 | when `end < start`, no record passes |
| DateFilter.FilteredData | sustainability-dashboard/src/components/Dashboard.jsx:101-111 | with either bound empty, the output is the input itself; with both set, every record shown lies in the window; the output is always a subsequence of the input |
| DateFilter.FilteredDataExact | sustainability-dashboard/src/components/Dashboard.jsx:102-107 | with both bounds set, a record is shown if and only if it is in the data and inside the window |
| DateFilter.FilteredDataIdempotent | sustainability-dashboard/src/components/Dashboard.jsx:101-111 | re-running the effect on its own output gives the same list |
| DateFilter.FilteredDataReversedIsEmpty | sustainability-dashboard/src/components/Dashboard.jsx:102-107 | with both bounds set and `end < start`, the view is empty |
| DateFilter.InitialRangeShowsAll | sustainability-dashboard/src/components/Dashboard.jsx:25 | the initial `{ start: "", end: "" }` state shows all data |
| DateFilter.SetStart | sustainability-dashboard/src/components/Dashboard.jsx:146 | the start input sets `start` and leaves `end` as it was |
| DateFilter.SetEnd | sustainability-dashboard/src/components/Dashboard.jsx:162 | the end input sets `end` and leaves `start` as it was |
| DateFilter.BoundUpdatesCommute | sustainability-dashboard/src/components/Dashboard.jsx:146-162 | editing start then end gives the same window as editing end then start |
| DateFilter.ClearingABoundShowsAll | sustainability-dashboard/src/components/Dashboard.jsx:101-111 | clearing either date input shows the unfiltered data |
| DateFilter.ExampleWindow | sustainability-dashboard/src/components/Dashboard.jsx:104-106 | a window from the fifth to the tenth of January keeps only the record of the seventh, out of the first, seventh and twelfth |
| DateFilter.ExampleReversedWindow | sustainability-dashboard/src/components/Dashboard.jsx:102-107 | the window "2025-01-10" to "2025-01-05" shows nothing, for any data |
| Theme.Toggle | sustainability-dashboard/src/components/Dashboard.jsx:132 | the button always changes the flag |
| Theme.ToggleTwice | sustainability-dashboard/src/components/Dashboard.jsx:132 | two clicks restore the flag |
| Theme.Encode | sustainability-dashboard/src/components/Dashboard.jsx:91 | the stored text is "true" or "false", and it is "true" exactly when the flag is dark |
| Theme.Persist | sustainability-dashboard/src/components/Dashboard.jsx:91 | writing stores "true"/"false" under `darkMode` and leaves every other key as it was |
| Theme.Load | sustainability-dashboard/src/components/Dashboard.jsx:22-24 | a missing key loads as light |
| Theme.PersistLoadRoundTrip | sustainability-dashboard/src/components/Dashboard.jsx:22-24 | loading after writing the flag (line 91) gives the flag back, whatever else storage holds |
| Theme.OnlyTrueLoadsDark | sustainability-dashboard/src/components/Dashboard.jsx:23 | any stored text other than exactly "true" loads as light |
| Theme.Mount | sustainability-dashboard/src/components/Dashboard.jsx:22-24 | at mount the flag is the loaded one, and after the first effect storage agrees with it |
| Theme.Click | sustainability-dashboard/src/components/Dashboard.jsx:132 | a click flips the flag, and the persisting effect leaves storage agreeing with the new flag |
| Theme.ClicksKeepConsistent | sustainability-dashboard/src/components/Dashboard.jsx:91 | storage keeps agreeing with the flag over any number of clicks; after n clicks the flag is flipped n mod 2 times |
| Theme.ReloadRestoresTheme | sustainability-dashboard/src/components/Dashboard.jsx:91 | after mounting and any number of clicks, a reload shows the theme that was showing |
| MockSeries.JsRound | sustainability-dashboard/src/Dashboard.jsx:12-14 | `Math.round` returns the integer within one half of its argument, with halves going up |
| MockSeries.UtcDay | sustainability-dashboard/src/Dashboard.jsx:11 | the UTC day of a timestamp is the day whose millisecond span contains it |
| MockSeries.UtcDayShift | sustainability-dashboard/src/Dashboard.jsx:11 | subtracting k whole days of milliseconds moves the date k days earlier |
| MockSeries.MockRecord | sustainability-dashboard/src/Dashboard.jsx:11-14 | record i is dated `days - i - 1` days before its own clock reading; with draws in [0, 1) its fields lie in [50, 150], [100, 300] and [50, 200] |
| MockSeries.GenerateMockData | sustainability-dashboard/src/Dashboard.jsx:9-16 | exactly `days` records; record i is dated `days - i - 1` days before the clock reading taken for it; the last record carries the day of the last reading |
| MockSeries.UtcDayMonotone | sustainability-dashboard/src/Dashboard.jsx:11 | a later timestamp never falls on an earlier UTC day |
| MockSeries.GeneratedDatesIncrease | sustainability-dashboard/src/Dashboard.jsx:10-11 | with clock readings that never go backwards, the dates strictly increase |
| MockSeries.GeneratedDatesContiguous | sustainability-dashboard/src/Dashboard.jsx:10-11 | when all clock readings fall on one UTC day, each date is one day after the previous, the first is `days - 1` days before that day and the last is that day |
| MockSeries.MidnightSkipsADay | sustainability-dashboard/src/Dashboard.jsx:10-11 | as written, two records generated with readings either side of UTC midnight are dated day -1 and day 1, skipping day 0 |
| MockSeries.GenerateMockDataOneReading | sustainability-dashboard/src/Dashboard.jsx:9-16 | with one clock reading for the whole series, the dates are consecutive days ending on the day of that reading |
| MockSeries.SelectableWindows | sustainability-dashboard/src/Dashboard.jsx:74-79 | the selector's initial 30 days is one of its options 7, 30 and 90, and every option is at least a week |
| MockSeries.GeneratedFieldsInRange | sustainability-dashboard/src/Dashboard.jsx:12-14 | for draws in [0, 1): emissions in [50, 150], savings in [100, 300], AQI in [50, 200] |
| Summary.Sum | sustainability-dashboard/src/Dashboard.jsx:51-53 | the total of no records is the `reduce` seed 0, and a total of non-negative values is non-negative |
| Summary.SumConcat | sustainability-dashboard/src/Dashboard.jsx:51-52 | the total of a concatenation is the sum of the two totals |
| Summary.Reduce | sustainability-dashboard/src/Dashboard.jsx:51-53 | the left-to-right `reduce` starting at 0 ends at the sum of the field |
| Summary.SumPermutation | sustainability-dashboard/src/Dashboard.jsx:51-52 | a total is the same for any reordering of the records |
| Summary.SumBounds | sustainability-dashboard/src/Dashboard.jsx:51-53 | if every value lies in [lo, hi], the total lies in [n·lo, n·hi] |
| Summary.RoundedMean | sustainability-dashboard/src/Dashboard.jsx:53 | `Math.round(s / n)` for n > 0 gives the integer nearest the mean, with halves going up |
| Summary.RoundedMeanBounds | sustainability-dashboard/src/Dashboard.jsx:53 | the rounded mean of a total in [n·lo, n·hi] lies in [lo, hi] |
| Summary.Aggregate | sustainability-dashboard/src/Dashboard.jsx:50-54 | empty data gives totals 0 and a `NaN` average; otherwise the average is the integer nearest the mean AQI |
| Summary.AggregateData | sustainability-dashboard/src/Dashboard.jsx:50-54 | the three `reduce` passes and the rounding produce exactly `Aggregate` |
| Summary.AggregatePermutation | sustainability-dashboard/src/Dashboard.jsx:50-54 | reordering the records changes none of the three cards |
| Summary.AverageWithinBounds | sustainability-dashboard/src/Dashboard.jsx:53 | for non-empty data with every AQI in [lo, hi], the average card lies in [lo, hi] |
| Summary.AggregateExample | sustainability-dashboard/src/Dashboard.jsx:50-54 | the two days (100, 200, 50) and (50, 100, 150) give totals 150 and 300 and an average of 100 |
| Summary.Slice | sustainability-dashboard/src/Dashboard.jsx:139 | `slice(start)` returns a suffix; a negative start keeps at most `-start` records and a start past the end keeps none |
| Summary.BarChartData | sustainability-dashboard/src/Dashboard.jsx:139 | `slice(-7)` has length min(7, n) and is the suffix of the data |
| CardView.GeneratedStatsInRange | sustainability-dashboard/src/Dashboard.jsx:50-56 | for a generated series of `days` records, emissions total in [50·days, 150·days], savings total in [100·days, 300·days], average AQI in [50, 200] (`NaN` when days = 0) |
| CardView.GeneratedBarChartIsLastWeek | sustainability-dashboard/src/Dashboard.jsx:139 | when all clock readings fall on one UTC day, the bar chart of a generated series shows min(7, days) consecutive days ending on that day |
| CardView.OneReadingBarChartIsLastWeek | sustainability-dashboard/src/Dashboard.jsx:139 | with one clock reading for the series, the bar chart shows min(7, days) consecutive days ending today |
| CardView.SelectableWindowsFillBarChart | sustainability-dashboard/src/Dashboard.jsx:139 | for every window the selector offers, the bar chart holds exactly seven bars |

## Findings

| source | as written | input that shows it | evidently intended | confidence | as-written member | corrected member |
|---|---|---|---|---|---|---|
| sustainability-dashboard/src/Dashboard.jsx:10-11 | `Date.now()` is read inside the per-record callback, so each record is dated from its own clock reading | `days = 2` with readings 86399999 ms and 86400000 ms, either side of UTC midnight: the records are dated day -1 and day 1, and day 0 is missing | one clock reading for the whole series, so the dates are consecutive days ending today | low likelihood (generation must straddle UTC midnight); not executed | MockSeries.MidnightSkipsADay | MockSeries.GenerateMockDataOneReading |

## Left out

- Rendering: the JSX trees, `getChartOptions`, the chart refs and their `.update()` calls, the fixed pie-chart data, and all chart-library wiring. These are presentation, not data logic.
- DOM and storage side effects: the `dark` class, the body colour, and the `localStorage` calls themselves. Storage is modelled as a map from keys to strings, so only the encoding and the read-back are modelled.
- The simulated fetch of the card view: the `setTimeout` delay, `async`/`await`, the loading flag and its `finally`, and the overlapping-fetch ordering. These are asynchronous timing, not sequential logic.
- The `Number(e.target.value)` conversion of the days selector is also left out; the window is taken as a natural number.
- The card view's own dark-mode flag. It starts `false`, flips with the same negation as `Theme.Toggle`, toggles a DOM class and is never persisted.
- `Math.random` and `Date.now` are parameters: one `Draw` and one clock reading per record. The draws are exact reals, so floating-point rounding of `x * 100 + 50` is not modelled.
- `toISOString().split('T')[0]` is not modelled as text. A generated record carries the UTC day number that this string would name, and `RangeError` for timestamps beyond ±8.64e15 ms is not modelled.
- LexOrder.LexLt: compares Unicode scalar values. JavaScript compares UTF-16 code units, so the two orders can differ only for characters outside the Basic Multilingual Plane, which ISO dates do not contain.
- MockSeries.GenerateMockData: requires one draw and one clock reading per record, and a natural-number `days`. JavaScript would also accept a negative or fractional `days`, but the selector offers only 7, 30 and 90 (and 30 at start).
- The static records file that the chart view loads is not part of this model. The filter is stated for arbitrary lists, so the file's contents do not matter. The chart view names its numeric fields `carbon` and `energy`, while the card view uses `carbonEmissions` and `energySavings`. The filter reads only `date`, so one record type serves both.
- The sidebar component is pure presentation. Its only logic is an open/closed boolean flip, the same negation as the theme toggle.
- MockSeries.GeneratedDatesContiguous: promises consecutive days only when every clock reading falls on one UTC day; a series generated across UTC midnight skips a day (see Findings).
- CardView.GeneratedBarChartIsLastWeek: promises consecutive days ending today only under the same one-day condition on the clock readings.
