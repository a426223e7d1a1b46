# SpaceX launch dashboard: row selection

A Dafny model of the logic inside the launch dashboard `spacex-dash-app.py`.
The dashboard reads a table of launches once. Each row has a launch site, a
payload mass in kg, a booster version category and an outcome `class` (1 for
success, 0 for failure). It shows two charts driven by two controls: a site
dropdown and a payload range slider.

- The **pie callback** (`update_pie_chart`) gets the whole table when the
  dropdown holds `"ALL"`, and otherwise only the rows of the selected site. The
  payload slider is not one of its inputs.
- The **scatter callback** (`update_scatter`) first keeps the rows whose payload
  lies in the closed slider range `[low, high]`. Then, unless the dropdown holds
  `"ALL"`, it keeps only the selected site's rows. Each remaining row becomes a
  point (payload, class, booster category), in table order.
- The **dropdown** offers `"All Sites"` (value `"ALL"`), then one option per
  distinct launch site, in order of first appearance (pandas `unique()`).
- The **slider** starts at the smallest and largest payload of the table.

The model is pure: the table is an immutable `seq<LaunchRecord>`. Indexing a
table with a boolean mask becomes `Sequences.Where`. Its contract says the
result is a subsequence of the table, in order, and keeps every copy of each
row the mask accepts and no other row.

Files:
- `wrappers.dfy`: `Option`.
- `sequences.dfy`: subsequences, mask selection, first-seen de-duplication.
- `launches.dfy`: the launch record and the payload bounds of the table.
- `dashboard.dfy`: the two masks, the rows for each chart, the dropdown options.
- `properties.dfy`: lemmas relating these, plus worked cases.

The site selection is `Option<string>`. `None` is a cleared dropdown, which
the callbacks receive as `None`. It is not `"ALL"`, and the site mask compares
it with every row as false, so both charts then get no rows. A name is compared
with `"ALL"` as a plain string, as in the source. So a launch site literally
named `"ALL"` could never be selected on its own.
`OfferedSitesPartitionTable` therefore requires that no site has that name.

The scatter callback applies the payload mask before the site mask, and
`ScatterSiteIsBothMasks` proves that the order does not change the result.

## Model

| member | source | states |
|---|---|---|
| Sequences.Where | spacex-dash-app.py:96-97 | boolean-mask indexing keeps rows in order (a subsequence); each row's multiplicity is unchanged when the mask accepts it and zero otherwise |
| Sequences.Unique | spacex-dash-app.py:30 | `unique()` yields no duplicates and exactly the values that occur in the column |
| Sequences.UniqueFirstSeenOrder | spacex-dash-app.py:30 | `unique()` lists values in order of their first occurrence in the column |
| Launches.Sites | spacex-dash-app.py:30 | the `Launch Site` column: one entry per row, in row order, each the row's site |
| Launches.PayloadBounds | spacex-dash-app.py:13-14 | column min and max: defined exactly when the table has rows; every payload lies between them; both are attained by some row |
| Dashboard.FilterByPayload | spacex-dash-app.py:96-97 | a row survives exactly when `low <= payload <= high`, both bounds inclusive; order kept, nothing added |
| Dashboard.FilterBySite | spacex-dash-app.py:110 | a row survives exactly when its site equals the selected name; order kept; a cleared (`None`) selection keeps no row |
| Dashboard.ScatterRows | spacex-dash-app.py:93-110 | scatter rows are the table rows in payload range and, unless `"ALL"`, at the selected site, in table order |
| Dashboard.ScatterPoints | spacex-dash-app.py:101-117 | one point per scatter row, in order, carrying its payload, class and booster category |
| Dashboard.PieRows | spacex-dash-app.py:67-83 | whole table for `"ALL"`; otherwise exactly the selected site's rows, as many as the site column holds that name, and none for a cleared selection |
| Dashboard.SiteRowCount | spacex-dash-app.py:78 | the site mask keeps as many rows as the site column's count of that name |
| Dashboard.DropdownOptions | spacex-dash-app.py:29-30 | `"All Sites"`/`"ALL"` first; then each site of the table exactly once, label equal to value, in first-seen order; nothing else |
| DashboardProperties.PointRangeKeepsExactPayload | spacex-dash-app.py:96-97 | the range `[v, v]` keeps exactly the rows whose payload is `v` |
| DashboardProperties.InvertedRangeSelectsNothing | spacex-dash-app.py:94-97 | `low > high` yields no rows and no scatter points for any site, without error |
| DashboardProperties.StartupRangeKeepsEveryRow | spacex-dash-app.py:48 | with the slider at its start-up value `[min, max]`, the payload mask keeps the whole table, and with `"ALL"` both charts get the whole table |
| DashboardProperties.ScatterAllSitesIsPayloadMask | spacex-dash-app.py:99-107 | with `"ALL"` the scatter rows are the payload-masked rows, with no site restriction |
| DashboardProperties.ScatterSiteIsBothMasks | spacex-dash-app.py:108-110 | with a concrete site the scatter rows are the payload mask followed by the site mask, equal to the two masks in the other order |
| DashboardProperties.SiteMaskIdempotent | spacex-dash-app.py:110 | applying the site mask twice equals applying it once |
| DashboardProperties.UnknownSiteSelectsNothing | spacex-dash-app.py:76-78 | a site no row has, or a cleared dropdown, yields empty pie rows and empty scatter rows |
| DashboardProperties.ScatterRefinesPie | spacex-dash-app.py:67-110 | for the same site selection, scatter rows are the pie rows restricted by the payload range; the slider never affects the pie rows |
| DashboardProperties.OfferedSitesHaveRows | spacex-dash-app.py:29-30 | every site option the dropdown offers selects at least one pie row |
| DashboardProperties.OfferedSitesPartitionTable | spacex-dash-app.py:30 | the pie rows of the distinct sites together count every table row exactly once |
| DashboardProperties.ExampleScatter | spacex-dash-app.py:93-118 | worked case: with `"ALL"` and range `[4000, 10000]`, the points are (5000, 0) and (9000, 1), in that order |
| DashboardProperties.ExamplePie | spacex-dash-app.py:76-83 | worked case: the pie rows for site A are A's two rows |
| DashboardProperties.ExampleDropdown | spacex-dash-app.py:29-30 | worked case: the options are All Sites, A, B |

## Left out

- Reading `spacex_launch_dash.csv` (line 10) is file I/O. The table is a parameter.
- Building the Dash app, its layout and its components is left out (lines 17-56). So are the slider's fixed min, max, step and marks (lines 45-50) and `app.run` (lines 124-125).
- Registering the callbacks with the Dash runtime is left out (lines 63-66, 88-92). This is the framework's reactive dispatch.
- Dashboard.PieRows: only the rows handed to the pie chart are modelled. The chart's own aggregation happens inside plotly, whose code is not part of this model. In `"ALL"` mode it sums `class` per site, and in single-site mode it counts rows per class.
- Figure construction and chart titles (`px.pie`, `px.scatter`) are left out. They are plotting-library calls.
- Payloads are integers in kg. The table library's floating-point payloads are left out, including missing (NaN) payloads, which fail both comparisons.
- Dashboard.ScatterRows: takes the slider value as a pair. The source unpacks a two-element list and would raise on any other length, which the slider never sends.
- Dashboard.DropdownOptions: the option's `label` key is the field `labelText`, because `label` is a Dafny keyword.
