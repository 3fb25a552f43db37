# Kiva dashboard: row selection and summaries

A Dafny model of the computational part of the Kiva loans dashboard
(`kivadashboard.py`), a single-page Streamlit app. The model covers:

- the sidebar's five cascading dropdowns;
- the two date sliders;
- the `filter` function that turns the sidebar state into the filtered view;
- the four summary cards;
- the five top-N rankings behind the region and partner charts;
- the "Top Partners Names" lookup table.

Modules follow the dashboard's pieces:

- `Wrappers` (wrappers.dfy): the optional value returned by lookups that can miss.
- `Seqs` (seqs.dfy): the two dataframe primitives used throughout.
  - `Keep` is an order-preserving filter, for boolean-mask indexing.
  - `Distinct` is `unique()`.
  - Lemmas let filters be merged and reordered.
- `Loans` (loans.dfy): the loan row and the five categorical columns, in the
  order the sidebar cascades through them.
- `Filtering` (filtering.dfy): selectors, each holding the sentinel `"All"` or
  a value, plus the `filter` function and its laws.
- `Sidebar` (sidebar.dfy): dropdown option lists, slider bounds, and the
  default selection.
- `Aggregation` (aggregation.dfy): the card sums and grouped totals.
  - `groupby(key)[col].sum()` is `GroupTotals`.
  - `value_counts()` is the grouped sum of 1 per row.
- `Ranking` (ranking.dfy): `sort_values(ascending=False).head(n)` over grouped
  totals, and the five charts' rankings.
- `PartnerNames` (partners.dfy): the partner id to first-name table.

Modelling choices:

- A day is an integer day number: the `.dt.date` of a parsed timestamp.
- Money amounts are natural numbers of cents. Counts are natural numbers.
- A dataframe is a `seq` of rows. A grouped series is a `map` from key to total.
- The selectors are plain strings compared against `"All"`, exactly as in the
  source. So a data value spelled `All` could not be singled out. The model
  keeps that behaviour.
- The rankings call `sort_values` with its default, unstable sort
  (kivadashboard.py:202, 213, 222, 239-240), which gives no order among equal
  totals, and the model promises none. `TopN` takes any largest remaining key.
  `Ranking.TopNTotalsAgree` shows this freedom only lets keys with equal totals
  trade places.
- `groupby('Partner ID').first()` orders its result by id. So the partner-name
  table is strictly increasing by id, which means one row per id.
- On an empty loans table, `min()`/`max()` give no date and the sliders cannot
  be built. `Sidebar.DateBounds` returns `None` for that case.
- The end slider's lower bound is the chosen start (kivadashboard.py:48). So
  `start <= end` always holds (`Sidebar.SliderAllows`, `Sidebar.SlidersReach`).

## Model

| member | source | states |
|---|---|---|
| `Filtering.Narrow` | kivadashboard.py:109-122 | one selector step keeps exactly the rows equal to the selected value, or every row when the selector is "All", with each row's multiplicity unchanged |
| `Filtering.FilterLoans` | kivadashboard.py:103-127 | a row is in the filtered view iff it is in the table, meets every non-"All" selector and has start <= disbursed day <= end; each kept row appears exactly as often as in the table, so nothing is fabricated or duplicated |
| `Filtering.FilterIsConjunction` | kivadashboard.py:104-125 | both branches of `filter` (the all-"All" copy and the five-step cascade) equal one order-preserving filter by the single conjunctive predicate |
| `Filtering.FilterIsSubsequence` | kivadashboard.py:103-127 | the filtered view is an order-preserving subsequence of the loans table |
| `Filtering.NarrowCommutes` | kivadashboard.py:109-122 | two equality selectors give the same rows in either order (for example country then sector, or sector then country) |
| `Filtering.FilterIdempotent` | kivadashboard.py:103-127 | filtering the filtered view again with the same selection changes nothing |
| `Filtering.NoCategoryIsWindow` | kivadashboard.py:104-125 | with all five selectors at "All", the view is exactly the rows whose disbursed day lies in [start, end], in table order |
| `Filtering.NarrowUpTo` | kivadashboard.py:24-39 | the sidebar's running `data` after the first k selectors holds exactly the table rows that pass those k selectors, with their multiplicities |
| `Filtering.NarrowUpToIsConjunction` | kivadashboard.py:24-39 | the k cascading narrowing steps equal one order-preserving filter by the conjunction of the first k selectors |
| `Filtering.CascadeThenWindow` | kivadashboard.py:109-125 | passing the whole cascade and the date window is exactly the conjunctive selection predicate, and with all selectors at "All" every row passes the cascade |
| `Seqs.Distinct` | kivadashboard.py:24 | `unique()` lists every value of the column, and only those, with no value twice |
| `Sidebar.Options` | kivadashboard.py:24-40 | a dropdown lists "All" first, then distinct values; every listed value occurs on some table row matching all selectors above it, and every such row's value is listed |
| `Sidebar.PickedOptionsKeepARow` | kivadashboard.py:24-40 | if each selector is picked from its own cascaded option list, at least one table row survives all five selectors |
| `Sidebar.Earliest` | kivadashboard.py:45 | the earliest disbursed day is the day of some row and no row is earlier |
| `Sidebar.Latest` | kivadashboard.py:46 | the latest disbursed day is the day of some row and no row is later |
| `Sidebar.DateBounds` | kivadashboard.py:45-46 | slider bounds exist iff the table is non-empty; then first <= last, both are attained, and every row's day lies between them |
| `Sidebar.SlidersReach` | kivadashboard.py:47-48 | the start slider ranges over [first, last] and the end slider over [chosen start, last], so a pair of positions is reachable iff first <= start <= end <= last (`SliderAllows`); then the window is never reversed |
| `Sidebar.DefaultSelection` | kivadashboard.py:24-48 | the initial sidebar state exists iff the table is non-empty; it has every selector at "All", start at the table's first day and end at its last day, which the sliders allow |
| `Sidebar.DefaultSelectionKeepsEverything` | kivadashboard.py:45-48 | the dashboard as first drawn filters to the whole table, unchanged and in order |
| `Aggregation.CardTotals` | kivadashboard.py:133-136 | the four card totals are non-negative and are all 0 when the filtered view is empty |
| `Aggregation.CardTotalsOne` | kivadashboard.py:133-136 | the cards of a one-row view are that row's `funded_amount`, `loan_amount`, `lender_count` and `borrower_count` |
| `Aggregation.CardTotalsConcat` | kivadashboard.py:133-136 | each card over two row blocks put together is the sum of the cards over each block; with `CardTotalsOne` and the empty view, each card is the sum of its own column |
| `Aggregation.CardsOfFilteredView` | kivadashboard.py:130-136 | each card over the filtered view is at most the same card over the whole table |
| `Aggregation.SumSplits` | kivadashboard.py:133-136 | a column sum splits exactly between the rows a filter keeps and the rows it drops |
| `Aggregation.KeepSumBound` | kivadashboard.py:133-136 | narrowing rows never raises the sum of a non-negative column |
| `Aggregation.GroupTotals` | kivadashboard.py:202 | the grouped sum has exactly the keys occurring in the view, each mapped to the sum of the column over that key's rows |
| `Aggregation.TotalsAddUp` | kivadashboard.py:202 | the totals of a distinct key list covering every row add up to the column's sum |
| `Aggregation.GroupsAddUpToCard` | kivadashboard.py:202 | the grouped totals over every key occurring in the view add up to the plain column sum, so grouping loses and double-counts no row |
| `Aggregation.RegionSlicesMatchLoanCard` | kivadashboard.py:134 | the per-region loan amounts, before any top-five cut, add up to the loan-amount card |
| `Ranking.TopN` | kivadashboard.py:202 | the result has min(n, number of keys) entries with distinct keys, each with its own total, non-increasing; no omitted key has a total above any kept entry |
| `Ranking.TopNTotalsAgree` | kivadashboard.py:202 | any two correct top-n cuts of the same totals have the same length and the same totals position by position; only keys with tied totals can differ |
| `Ranking.HasLargest` | kivadashboard.py:202 | every non-empty map of totals has a key whose total is at least every other |
| `Ranking.TopRegionsByLoanAmount` | kivadashboard.py:202 | the region pie is a correct top-5 of the regions' summed loan amounts in the view |
| `Ranking.TopRegionsByLenders` | kivadashboard.py:213 | the lender pie is a correct top-5 of the regions' summed lender counts |
| `Ranking.TopRegionsByCount` | kivadashboard.py:222 | the region bar chart is a correct top-15 of the regions' row counts |
| `Ranking.TopPartnersByLoanAmount` | kivadashboard.py:239 | a correct top-5 of the partners' summed loan amounts |
| `Ranking.TopPartnersByCount` | kivadashboard.py:240 | a correct top-5 of the partners' row counts |
| `PartnerNames.FirstName` | kivadashboard.py:248 | a name is found iff some partners row has the id, and then that (id, name) pair is a row of the table |
| `PartnerNames.FirstNameSnoc` | kivadashboard.py:248 | a row appended to the table changes the first name only of an id not seen before |
| `PartnerNames.FirstPerId` | kivadashboard.py:248 | `groupby(...).first()` gives one row per id, ids strictly increasing, with exactly the table's ids, each with the name of its first row |
| `PartnerNames.PartnerNameTable` | kivadashboard.py:242-252 | the partner table has one row per id, in increasing id order; its ids are exactly the partners-table ids in either top-5 list, and each name is the name on that id's first partners row |

## Left out

- Streamlit page setup, sidebar text, CSS, tabs, metric cards and dataframe
  display: these are rendering. The sliders enter only as the
  `Sidebar.SliderAllows` constraint on a selection.
- CSV loading and image loading: these are I/O. The two tables are parameters.
- Plotly chart construction, including the disbursed-date trend lines: these
  only draw rows and rankings that are already modelled.
- The yearly funded-amount line chart: its year bucketing comes from pandas
  datetime parsing, which is not modelled. Days are given already parsed.
- Floating-point amounts: amounts are whole numbers of cents.
- NaN keys and missing values: `groupby` and `value_counts` drop NaN keys, and
  `first()` skips NaN names. These are library behaviours; the model has no
  missing values.
- Seqs.Distinct: states the values and their distinctness, not pandas'
  first-appearance order. That order only affects how dropdown entries are
  arranged.
- Ranking.TopN: promises no order among equal totals. The source's default
  `sort_values` does not promise one either.
- Sidebar.DateBounds: an empty table makes the source raise while building the
  sliders. The model returns `None` instead of modelling the exception.
