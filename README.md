# Doctor performance dashboard: the filter-and-aggregate step

The dashboard (`app.py`) holds a table of consultations in memory. Each row has:

- a doctor;
- a consultation date;
- a Feedback score;
- an Outcome (Successful, Ongoing or Unsuccessful);
- a Response Time in minutes;
- a Revenue amount;
- a 0/1 Retention flag.

Whenever the user changes the doctor dropdown or the date range, `update_dashboard` does three things:

1. It filters the table to rows whose date lies in the range, inclusive at both ends. If at least one doctor is selected, it also keeps only those doctors' rows.
2. It computes six summary figures from the resulting view.
3. It computes the grouped data for six charts.

The dropdown's options are the table's distinct doctors, in order of first appearance. The date picker starts at the table's earliest and latest dates.

This project models those computations as pure Dafny functions over `seq<Record>` and proves the following properties:

- what the filtered view contains;
- that the view agrees with the empty-selection rule;
- the bounds of the rates and means;
- that grouped counts and sums add up to the summary figures;
- that the per-doctor groupings contain exactly the doctors of the view;
- that each doctor's bar equals the summary computed with only that doctor selected.

Modules:

- `Wrappers` (wrappers.dfy): `Option`.
- `Sequences` (sequences.dfy): sequence tools.
  - `Filter` is the boolean-mask selection.
  - `Distinct` gives the first-appearance distinct values, as `Series.unique()` does.
  - `IsSubsequence` and `NoDup` support the proofs.
- `Ordering` (ordering.dfy): Python's string order and an insertion sort by it. `groupby("Doctor")` returns its groups with the keys sorted.
- `Consultations` (consultations.dfy): the row type, the numeric columns and their units, key columns, and selecting the rows of one key.
- `Aggregates` (aggregates.dfy): sums, means, and grouped counts, sums, means and shares. Also the conservation and recombination lemmas.
- `Filtering` (filtering.dfy): the filter state, the filtered view, the dropdown options and the default date range.
- `Dashboard` (dashboard.dfy): the summary figures, the chart data, and `UpdateDashboard`.

Representation:

- A date is an integer day number.
- Response Time and Revenue are integers in hundredths. `InUnits` turns a hundredths sum back into minutes or currency when a mean is taken.
- The total revenue and the per-doctor revenue sums stay in hundredths: the model's figure is 100 times the amount the dashboard shows.
- Feedback and Retention are plain integers.
- Means and percentages are exact `real`s.
- A mean over no rows is `None`, where pandas gives NaN.
- The doctor selection is `Option<seq<string>>`. Dash passes `None` before any choice is made and `[]` after the dropdown is cleared. `if selected_doctors:` treats both as "no doctor filter".
- Over an empty view pandas gives NaN for the mean Feedback, the mean Response Time and the Retention rate; the model returns `None` for these. The success rate is 0 there, because `.get("Successful", 0)` falls back to 0.

## Model

| member | source | states |
|---|---|---|
| Filtering.View | app.py:78-80 | the view as update_dashboard builds it, dates first and then doctors when a selection is active; its content is stated by ViewSpec and ViewIsOneFilter |
| Filtering.Admitted | app.py:78-80 | the combined row condition (date in [start, end], and the doctor picked when a selection is active); ViewSpec proves the view holds exactly the admitted rows |
| Dashboard.Summarize | app.py:83-88 | the six summary figures of a view; UpdateDashboard and EmptyView state their relations (count, undefined means, success-rate bounds, revenue conservation) |
| Dashboard.OutcomeShares | app.py:85 | `value_counts(normalize=True)` of Outcome, empty over no rows; SuccessRateValue states the Successful entry |
| Dashboard.SuccessRate | app.py:85 | the Successful share × 100, defaulting to 0; SuccessRateSpec states its value, bounds and both iff cases |
| Dashboard.Percent | app.py:87 | a fraction × 100, undefined stays undefined; used by the retention rate and the per-doctor retention bars |
| Dashboard.RetentionRate | app.py:87 | the Retention mean × 100; RetentionRateSpec states its value and bounds for 0/1 data |
| Dashboard.DoctorKeys | app.py:101-105 | the groupby("Doctor") keys: the view's doctors, distinct and sorted; DoctorKeysSpec states it |
| Dashboard.DoctorMeans | app.py:101-104 | groupby("Doctor")[column].mean(); DoctorLookup, DoctorBarsMatchSingleSelection, MeansWithinBounds and DoctorMeansRecombine state its values |
| Aggregates.Sum | app.py:88 | the column sum; SumBounds, SumOfFlags and GroupsPartition state its properties |
| Aggregates.MeanOf | app.py:84 | the column mean over a non-empty view, in column units; MeanBounds and MeanTimesCount state its properties |
| Aggregates.MeanTimesCount | app.py:84 | row count × mean gives back the column sum in column units |
| Consultations.Select | app.py:101-105 | the rows of one group; SelectNonEmpty and LookupGroups state its properties |
| Filtering.ViewSpec | app.py:78-80 | a row is in the view iff it is in the table, its date is in [start, end], and the selection is empty or missing or names its doctor; the view keeps table order and each row's multiplicity and adds nothing |
| Filtering.ViewIsOneFilter | app.py:78-80 | the two-step filter (dates, then doctors) equals one filter by the combined condition |
| Filtering.EmptySelection | app.py:79 | a missing or empty selection gives exactly the date-filtered table, the same view as selecting every doctor of the table |
| Filtering.ViewMonotone | app.py:78-83 | widening the date range or the selection keeps the old view as a subsequence of the new one, so the consultation count never decreases and never exceeds the table length |
| Filtering.DoctorOptions | app.py:30 | the options list each doctor of the table exactly once, only doctors of the table, in order of first appearance |
| Filtering.MinDate | app.py:40 | the earliest date is attained by some row and is at most every row's date |
| Filtering.MaxDate | app.py:41 | the latest date is attained by some row and is at least every row's date |
| Filtering.DefaultRange | app.py:40-41 | there is a default range exactly when the table is non-empty |
| Filtering.InitialViewIsTable | app.py:40-41 | with no selection and the default range, the view is the whole table |
| Dashboard.UpdateDashboard | app.py:76-105 | consultation count = view length ≤ table length; volume counts and outcome counts each add up to the count; per-doctor revenues add up to the total revenue; success rate in [0, 100]; all per-doctor charts have the view's sorted doctors as keys; each mean figure is undefined iff the count is 0 |
| Dashboard.SuccessRateSpec | app.py:85 | success rate = 100 × (#Successful) / (#rows), or 0 over no rows; it lies in [0, 100]; it is 0 iff no row is Successful; it is 100 iff there are rows and all are Successful |
| Dashboard.SuccessRateValue | app.py:85 | the normalised Outcome count looked up for Successful (0 when absent) is the Successful share of the rows |
| Dashboard.SuccessCount | app.py:85 | the Successful group is empty iff no row is Successful, and it is the whole view iff every row is |
| Dashboard.RetentionRateSpec | app.py:87 | with 0/1 values the retention rate is 100 × (#rows with Retention 1) / (#rows), in [0, 100], and undefined only over no rows |
| Dashboard.MeansWithinBounds | app.py:84-104 | if every admitted row's value lies in [lo, hi], the summary mean and every per-doctor mean lie in [lo, hi] (in the column's units) |
| Dashboard.DoctorKeysSpec | app.py:101-105 | the per-doctor keys are distinct, sorted in Python string order, and are exactly the doctors with at least one row in the view (no zero-filled groups) |
| Dashboard.DoctorGroupIsSingleSelection | app.py:78-101 | a doctor's group in the view equals the view filtered to that doctor alone over the same dates |
| Dashboard.DoctorIsPicked | app.py:79-80 | a doctor with rows in the view is one that an active selection names |
| Dashboard.SingleSelectionMask | app.py:79-80 | for such a doctor, selecting only that doctor admits exactly the admitted rows of that doctor |
| Dashboard.DoctorBarsMatchSingleSelection | app.py:101-105 | each doctor's satisfaction, response-time and revenue bars equal the summary figures with only that doctor selected, and the retention bar × 100 equals that retention rate; a doctor absent from the view has no bar |
| Dashboard.DoctorLookup | app.py:101-105 | a doctor's per-doctor mean and sum are the mean and sum over that doctor's rows; an absent doctor has neither |
| Dashboard.DoctorMeansRecombine | app.py:101 | the per-doctor means, weighted by row counts and divided by the row count, give back the mean of the view |
| Dashboard.FirstSeenKeysSpec | app.py:100-102 | the outcome and (day, doctor) keys are distinct and cover every row of the view |
| Dashboard.EmptyView | app.py:83-105 | over an empty view: count 0, every mean undefined, success rate 0, revenue 0, and every chart empty |
| Aggregates.Mean | app.py:84 | the mean is undefined exactly over no rows |
| Aggregates.MeanBounds | app.py:84 | the mean of values in [lo, hi] lies in [lo, hi] |
| Aggregates.SumBounds | app.py:88 | a sum of n values in [lo, hi] lies in [n·lo, n·hi] |
| Aggregates.SumOfFlags | app.py:87 | a 0/1 column sums to the number of rows holding 1 |
| Aggregates.RatioOfCount | app.py:85 | a count over a positive total is a fraction in [0, 1]; it is 0 only for a zero count and 1 only when the count equals the total |
| Aggregates.Lookup | app.py:85 | a key has an entry in a grouped table iff it is one of the table's keys |
| Aggregates.CountGroups | app.py:100-102 | one count per listed key, in the listed order |
| Aggregates.SumGroups | app.py:105 | one sum per listed key, in the listed order |
| Aggregates.MeanGroups | app.py:101-104 | one mean per listed key, in the listed order; every key must occur, so no group is empty |
| Aggregates.ShareGroups | app.py:85 | one share per listed key, in the listed order |
| Aggregates.LookupShare | app.py:85 | the share stored for a key is its row count over all rows, and an unlisted key has none |
| Aggregates.LookupGroups | app.py:101-105 | a listed key's count, sum and mean are those of its group, which is non-empty; an unlisted key has no entry |
| Aggregates.GroupMeansWithin | app.py:101-104 | when every row's value lies in [lo, hi], so does every group's mean |
| Aggregates.GroupsPartition | app.py:102-105 | with distinct keys covering every row, group sizes add up to the row count and group sums add up to the column sum |
| Aggregates.CountGroupsCons | app.py:102 | one more row adds one to the count total exactly when its key is listed |
| Aggregates.SumGroupsCons | app.py:105 | one more row adds its value to the sum total exactly when its key is listed |
| Aggregates.WeightedIsSum | app.py:101 | group size × group mean, summed over the groups, gives the sum of the grouped rows |
| Aggregates.MeanRecombine | app.py:101 | the count-weighted average of the group means is the overall mean |
| Consultations.SelectNonEmpty | app.py:101-105 | a key's group is non-empty exactly when the key occurs in the key column |
| Consultations.ProjectCovers | app.py:30 | every row's key appears in the key column |
| Sequences.FilterSpec | app.py:78-80 | a mask keeps exactly the rows satisfying it, in order, each as often as in the table |
| Sequences.FilterLength | app.py:85 | a mask keeps every row iff all satisfy it and none iff none do |
| Sequences.FilterFilter | app.py:78-80 | two successive masks equal one mask by their conjunction |
| Sequences.FilterWeaken | app.py:78-80 | a weaker mask keeps a supersequence |
| Sequences.Distinct | app.py:30 | `unique()`: each value once, only values of the input, in order of first appearance |
| Sequences.DistinctMembers | app.py:30 | `unique()` keeps exactly the values of the input |
| Ordering.Sort | app.py:101-105 | the sorted keys are a permutation of the input, sorted, and still duplicate-free |
| Ordering.Insert | app.py:101-105 | inserting into a sorted list adds the element and keeps it sorted |
| Ordering.SortMembers | app.py:101-105 | sorting keeps exactly the input's values |
| Ordering.LeqTotal | app.py:101-105 | Python's string order is total |
| Ordering.LeqTransitive | app.py:101-105 | Python's string order is transitive |
| Ordering.LeqAntisymmetric | app.py:101-105 | Python's string order is antisymmetric: two strings each at most the other are equal |

## Left out

- Loading the CSV and parsing dates (app.py:6-7) are file I/O. The model starts from a table of parsed rows with integer day numbers.
- The Dash layout, styling, logo and callback wiring (app.py:10-75) are presentation. So is the server launch.
- The model does not draw any figure. It models only the data each plotly figure is built from:
  - Per-doctor groupings are keyed by the view's doctors in sorted order.
  - The Outcome pie is modelled as row counts per Outcome. The volume bars are modelled as row counts per (day, doctor).
  - Plotly's own ordering of slices and bars, and its binning of the time axis, are not modelled.
- The `:.2f` string formatting of the metrics (app.py:90-97) is left out. So is how NaN would print.
- Floating-point rounding in pandas' `mean` and `sum` is not modelled. The model uses exact rationals and integer hundredths.
- Aggregates.Mean: over an empty view the model returns None. pandas returns NaN, which the dashboard prints as "nan".
- Dashboard.UpdateDashboard:
  - The outcome and (day, doctor) keys follow first appearance. `value_counts` orders by frequency instead, but order does not affect any figure.
  - Dates are compared as day numbers. A date-picker value carrying a time of day is not modelled.
- Filtering.DefaultRange: an empty table gives no default range. pandas would produce NaT bounds here.
- The synthetic data generator is not part of this model. It is random generation and a CSV write.
