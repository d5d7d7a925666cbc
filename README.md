# SpaceX launch dashboard: chart data

This project models the data side of the SpaceX launch records dashboard
(`capstone/spacex_dash_app.py`). The dashboard loads a table of launches
once. Each launch has a launch site, a payload mass in kg, an outcome class
(1 for success, 0 for failure) and a booster version category. Two callbacks
turn the table and the user's selections into chart data:

- `get_pie_chart(entered_site)` feeds the proportion chart.
  - With the wildcard `'all'`, the chart gets the outcome column as values and
    the site column as names. The chart library sums the values of equal
    names, so each site's slice is that site's number of successes.
  - With a specific site, the callback counts that site's rows per distinct
    outcome value, in ascending outcome order (`value_counts().sort_index()`).
- `get_scatter_plot(entered_site, payload_slider)` feeds the
  payload/outcome scatter chart.
  - It first keeps the rows whose payload lies in the slider's range, both
    ends included.
  - With the wildcard it plots those rows.
  - With a specific site it discards that result and plots every row of the
    site instead. The payload range therefore has no effect once a site is
    chosen. The model keeps this behaviour exactly as written.

Both callbacks are pure expressions over the table, and the model follows
that form. The table is a `seq<Record>` value (module `LaunchTable`). The
callbacks are functions (modules `PieChart` and `ScatterChart`), and their
properties are lemmas. Because the table is an immutable value passed to
functions, neither callback can change it. For the same reason, calling a
callback twice with the same inputs gives the same chart data.

The selector is the raw string the drop-down hands over. The wildcard is
the value `"all"`, tested with `==` exactly as the source does. The drop-down's
options and the slider's domain (0 to 10000 kg in steps of 1000, initially
[2000, 8000]) are in module `Controls`. The callbacks accept any string and
any range, so these domains are not preconditions. They are used only by
the lemma about the initial view.

The functions that do the computing:

- `LaunchTable.AtSite` is the site mask of line 147. `LaunchTable.InBand` is
  the payload mask of line 143.
- `LaunchTable.Filter` applies a mask as `df[mask]` does.
  `LaunchTable.SiteRows` and `LaunchTable.PayloadBand` apply the two masks.
- `ScatterChart.ScatterSubset` models lines 143-147. It computes the payload
  band first, then keeps it for the wildcard or replaces it with the site's rows.
- `PieChart.Bump` counts one more row into an ascending list of (outcome,
  count) slices. `PieChart.Tally` folds it over a table's rows, which models
  `value_counts().sort_index()` at line 110.
- `PieChart.PieForSite` applies `Tally` to one site's rows (line 110).
- `PieChart.PieAll` models lines 101-107. It builds the map from each site to
  the sum of its outcomes, as the chart library's summing of equal names does.
- `PieChart.GetPieChart` and `ScatterChart.GetScatterPlot` are the two
  callbacks. Each pairs the chart data with its title.

Files: `launch_table.dfy` (records, row masks, counting), `controls.dfy`
(the input controls), `pie_chart.dfy`, `scatter_chart.dfy`.

## Model

| member | source | states |
|---|---|---|
| `LaunchTable.Filter` | capstone/spacex_dash_app.py:143-147 | A boolean-mask selection keeps a row exactly when it is in the table and the mask accepts it. It is never longer than the table. |
| `LaunchTable.FilterMultiplicity` | capstone/spacex_dash_app.py:143-147 | A kept row occurs in the selection exactly as often as in the table. A rejected row does not occur at all. |
| `LaunchTable.FilterIsOrderedSelection` | capstone/spacex_dash_app.py:143-147 | The selection is the table read at strictly ascending positions, and those positions are exactly the rows the mask accepts. So nothing is reordered, duplicated or altered. |
| `LaunchTable.SiteRows` | capstone/spacex_dash_app.py:147 | The rows of a site are exactly the table's rows whose `Launch Site` equals the selector. |
| `LaunchTable.PayloadBand` | capstone/spacex_dash_app.py:143 | The band keeps exactly the rows with `lo <= payload <= hi`. Both ends are included. |
| `LaunchTable.FilterNone` | capstone/spacex_dash_app.py:143-147 | A mask that rejects every row selects nothing. |
| `LaunchTable.SiteRowsAbsent` | capstone/spacex_dash_app.py:147 | A site with no launch in the table has no rows. |
| `LaunchTable.SumClassCountsSuccesses` | capstone/spacex_dash_app.py:102-106 | When outcomes are 0 or 1, summing the outcome column gives the number of successes. This is what the title 'Total Successes' promises. |
| `PieChart.BumpOrdered` | capstone/spacex_dash_app.py:110 | Counting one more row keeps the outcome counts strictly ascending by outcome. |
| `PieChart.BumpCounts` | capstone/spacex_dash_app.py:110 | Counting one more row with outcome `c` adds one to the count for `c` and leaves every other count unchanged. |
| `PieChart.TallyCorrect` | capstone/spacex_dash_app.py:110 | `value_counts().sort_index()` lists each distinct outcome once, in strictly ascending order. Each count is the number of rows with that outcome, no count is zero, and the counts sum to the number of rows. |
| `PieChart.PieForSiteSlices` | capstone/spacex_dash_app.py:110 | A site's pie has exactly the site's distinct outcome values as keys, strictly ascending. Each count equals the number of the site's rows with that outcome, and the counts sum to the site's row count. |
| `PieChart.PieForAbsentSite` | capstone/spacex_dash_app.py:110 | A site absent from the table gets no slices. |
| `PieChart.PieForSingleOutcome` | capstone/spacex_dash_app.py:110 | A site whose launches all share one outcome gets a single slice holding all of them. |
| `PieChart.PieForSiteBinary` | capstone/spacex_dash_app.py:110-118 | With 0/1 outcomes a site's pie has at most two slices, taken from 0 and 1. When both are present, 0 comes before 1. |
| `PieChart.PieAllSlices` | capstone/spacex_dash_app.py:101-107 | The wildcard pie has one entry per distinct launch site of the table. Each entry is the sum of `class` over that site's rows. |
| `PieChart.SumAtKey` | capstone/spacex_dash_app.py:102-105 | A map's total can be split at any one of its keys. Used to total the wildcard pie. |
| `PieChart.PieAllTotal` | capstone/spacex_dash_app.py:101-107 | The wildcard pie's entries sum to the sum of the whole outcome column, i.e. to the table's total successes. |
| `PieChart.PieAllAgreesWithSitePie` | capstone/spacex_dash_app.py:101-116 | With 0/1 outcomes, a site's entry in the wildcard pie equals the count of the success slice in that site's own pie. |
| `PieChart.PieTitle` | capstone/spacex_dash_app.py:106-116 | The wildcard title is the fixed 'Total Successes by Launch Site'. A site's title ends with the selector verbatim. |
| `PieChart.PieTitleRoundTrip` | capstone/spacex_dash_app.py:106-116 | The selector can be read back from the pie title, so no two selectors share a title. |
| `PieChart.GetPieChart` | capstone/spacex_dash_app.py:100-130 | Only the wildcard gives per-site totals. They have one entry per site of the table, each the sum of `class` over that site's rows. Any other selector gives exactly the site's distinct outcomes, strictly ascending. Each count is the number of the site's rows with that outcome, and the counts sum to the site's row count. The title is the pie title of the selector. |
| `ScatterChart.ScatterTitle` | capstone/spacex_dash_app.py:145-148 | The wildcard title is fixed. A site's title starts with the misspelt 'Correclation' and ends with the selector verbatim. |
| `ScatterChart.ScatterTitleRoundTrip` | capstone/spacex_dash_app.py:145-148 | The selector can be read back from the scatter title. The misspelling keeps a site named 'all Sites' apart from the wildcard. |
| `ScatterChart.GetScatterPlot` | capstone/spacex_dash_app.py:142-156 | The wildcard plots exactly the rows with payload in [lo, hi]. A specific site plots exactly its own rows. The title is the scatter title of the selector. |
| `ScatterChart.ScatterIsOrderedSelection` | capstone/spacex_dash_app.py:143-147 | For every selection, the plotted rows are an ordered selection of the table: nothing is added, duplicated, reordered or altered. |
| `ScatterChart.ScatterForAllSites` | capstone/spacex_dash_app.py:143-145 | With the wildcard, the plotted rows are exactly those with `lo <= payload <= hi`, in table order. |
| `ScatterChart.ScatterForSite` | capstone/spacex_dash_app.py:143-148 | With a specific site, the plotted rows are exactly the site's rows, in table order, whatever the payload range. |
| `ScatterChart.ScatterIgnoresRangeForSite` | capstone/spacex_dash_app.py:143-147 | With a specific site, changing the slider does not change the plotted rows. |
| `ScatterChart.ScatterPlotsOutOfRangeLaunch` | capstone/spacex_dash_app.py:143-147 | Concrete instance of that quirk. A 9600 kg KSC LC-39A launch is plotted for its site under the initial range [2000, 8000], but not for the wildcard. |
| `ScatterChart.ScatterForAbsentSite` | capstone/spacex_dash_app.py:147 | A site absent from the table plots nothing. |
| `ScatterChart.ScatterForEmptyRange` | capstone/spacex_dash_app.py:143 | With the wildcard, a range with `lo > hi` plots nothing. |
| `ScatterChart.ScatterInitialView` | capstone/spacex_dash_app.py:33-81 | The drop-down's initial value is the wildcard, which is one of its options. The slider starts on a range it can report. So the first scatter plots exactly the launches of 2000 to 8000 kg. |

## Left out

- Dash application construction, layout, callback registration and server start-up (lines 15-94, 96-99, 133-141, 160-161). These are UI plumbing run by the framework.
- Reading `spacex_launch_dash.csv` (line 10). The table is a parameter of every function instead.
- `max_payload` and `min_payload` (lines 11-12). Nothing reads them.
- Figure construction by the charting library: colours, `update_traces(sort=False)`, slice and legend order (lines 102-118, 149-155). The model stops at the data handed to the chart. For the wildcard pie, slice order is the library's choice, so that data is a map from site to total.
- The commented-out debug prints (lines 122-129).
- The one-element list around the scatter figure (line 156).
- The site pie hands the chart its counts under the column name `class` (lines 110-115). That name comes from `value_counts()` keeping the Series name, which pandas 1.x does. In pandas 2.x the column is named `count`, so `values='class'` would no longer name the counts. The model follows the pandas 1.x naming, matching the era of the `dash_html_components` imports at lines 4-5.
- Payload is an integer number of kg, not a float, and missing values (NaN) are not modelled. The callbacks only compare payloads and never compute with them.
- A cleared drop-down, which would hand the callbacks `None` instead of a string, is not modelled. It would behave like a site absent from the table, with `None` in the titles.
- `ScatterChart.ScatterTitle`: the wildcard title is stated as `"Correlation" + TitleMiddle + "all Sites"`, where `TitleMiddle` is `" between Payload and Success for "`. That is the same string as the source's literal. It is written in parts because the verifier compares long literals character by character only at great cost.
