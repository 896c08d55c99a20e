# Sales Overview dashboard page, modelled in Dafny

This project models the "Sales Overview" page of the Amazon sales dashboard
(`resources/amazon/dashboard/pages/sales_overview.py`). The page has two parts:

- **Loading.** It runs once, when the page module is imported. Every sale gets a
  `month` label `"YYYY-MM"` taken from its date. The distinct ship states, sorted,
  become the dropdown options, and the first option is preselected.
- **The `update_dashboard(state)` callback.** It returns a message when nothing
  is selected, or when the selected state has no rows. Otherwise it keeps the rows
  whose ship state equals the selection, ignoring case. From those rows it builds:
  - the six categories with the most units sold;
  - the revenue of each month;
  - the five most frequent order statuses;
  - a summary table: order count, total revenue, average order value, B2B share
    and top category.

Everything is a pure function of the sales rows and the selection. So the model
uses datatypes, functions and lemmas over `seq<Row>`.

Files and modules:

- `wrappers.dfy`, module `Wrappers`: `Option`, used for a missing cell or an
  absent selection.
- `text.dfy`, module `Text`: Python's ordering of `str` (`Less`), ASCII
  `str.upper`, `dropna()`, and `sorted(unique(...))` (`SortedDistinct`).
- `periods.dfy`, module `Periods`: dates and the `"YYYY-MM"` month label, with a
  proof that label order is calendar order.
- `grouping.dfy`, module `Grouping`: `groupby(...).sum()`, `value_counts()`
  (a group sum of ones) and the stable `nlargest(n)`.
- `sales_overview.dfy`, module `SalesOverview`: the rows, `Load`, `Subset`,
  the four views, `Update`, the lemmas that state what the views mean, and a
  worked example.

Modelling choices:

- The summary's numbers are exact: amounts are `real`, and the average and the
  B2B share are real divisions.
- The aggregated values in the rankings are `real`. Category quantities and
  status counts are whole numbers. Lemmas tie them to the `nat`-valued reference
  sums `QtyTotal` and `StatusCount`.
- An empty Plotly figure is modelled as an empty sequence of entries.
- Tie order in the category ranking follows the code. `groupby` hands
  `nlargest` its groups in ascending key order, and `nlargest` keeps the earlier
  of two equal values first. So categories with equal quantities come out in
  ascending name order, not in order of first appearance. `Grouping.SortDesc` is
  that stable sort. `Grouping.SortDescRanked` proves the resulting order: larger
  value first, then smaller key.
- When the selection matches no rows, the code returns the message
  "No data for selected state.", not a metrics table whose count is 0. The model
  follows the code.

## Model

| member | source | states |
|---|---|---|
| `Periods.Period` | resources/amazon/dashboard/pages/sales_overview.py:17 | the month label of a valid date has seven characters, with a dash after the four-digit year |
| `SalesOverview.PrepareRows` | resources/amazon/dashboard/pages/sales_overview.py:16-17 | every row keeps its sale, in order, and carries the month label of its own date |
| `Periods.PeriodOrder` | resources/amazon/dashboard/pages/sales_overview.py:17 | one month label sorts before another exactly when its month is earlier in the calendar |
| `Periods.PeriodSame` | resources/amazon/dashboard/pages/sales_overview.py:17 | two dates get the same month label exactly when they share year and month |
| `Periods.DigitsLess` | resources/amazon/dashboard/pages/sales_overview.py:17 | zero-padded numerals of one width compare as strings exactly as the numbers compare |
| `Text.Less` | resources/amazon/dashboard/pages/sales_overview.py:20 | Python's `str` order: a proper prefix sorts first, and no string sorts before one of its own prefixes |
| `Text.LessTransitive` | resources/amazon/dashboard/pages/sales_overview.py:20 | Python's string order is transitive |
| `Text.LessTotal` | resources/amazon/dashboard/pages/sales_overview.py:20 | any two different strings are ordered one way or the other |
| `Text.LessIrreflexive` | resources/amazon/dashboard/pages/sales_overview.py:20 | no string sorts before itself |
| `Text.DropMissing` | resources/amazon/dashboard/pages/sales_overview.py:20 | `dropna()` keeps exactly the present values, never more than the column holds |
| `Text.SortedDistinct` | resources/amazon/dashboard/pages/sales_overview.py:20 | `sorted(unique(...))` is strictly ascending and holds exactly the values of its input |
| `Text.AscendingUnique` | resources/amazon/dashboard/pages/sales_overview.py:20 | two strictly ascending lists with the same elements are equal, so the sorted option list is unique |
| `SalesOverview.StateOptions` | resources/amazon/dashboard/pages/sales_overview.py:20 | the options are strictly ascending and are exactly the ship states present in the table; missing states are dropped |
| `SalesOverview.StateOptionsUnique` | resources/amazon/dashboard/pages/sales_overview.py:20 | any strictly ascending list of the present states is the option list |
| `SalesOverview.DefaultState` | resources/amazon/dashboard/pages/sales_overview.py:21 | the default is none exactly when there are no options; otherwise it is an option that sorts before every other option |
| `SalesOverview.Load` | resources/amazon/dashboard/pages/sales_overview.py:15-21 | the loaded page has prepared rows, ascending options drawn from the present states, and a default that is the least present state, or none when no row has a state |
| `Text.Upper` | resources/amazon/dashboard/pages/sales_overview.py:56 | `str.upper()` keeps the length and leaves no lower-case ASCII letter |
| `Text.UpperEqual` | resources/amazon/dashboard/pages/sales_overview.py:56 | two strings have equal `upper()` exactly when they agree position by position up to ASCII case |
| `SalesOverview.MatchesIgnoringCase` | resources/amazon/dashboard/pages/sales_overview.py:56 | a row matches the selection exactly when its ship state is present and agrees with the selection letter by letter up to ASCII case; a missing state never matches |
| `SalesOverview.Subset` | resources/amazon/dashboard/pages/sales_overview.py:56 | the subset keeps every matching row of the table as many times as it occurs there and no other row, so its size is the table's number of matching rows |
| `SalesOverview.SubsetRevenue` | resources/amazon/dashboard/pages/sales_overview.py:56 | the subset's revenue is the revenue of exactly the table's matching rows |
| `SalesOverview.SubsetB2B` | resources/amazon/dashboard/pages/sales_overview.py:56 | the subset's B2B orders are exactly the table's matching B2B rows |
| `SalesOverview.SubsetIgnoresCase` | resources/amazon/dashboard/pages/sales_overview.py:56 | two selections with the same upper case select the same rows |
| `SalesOverview.UpdateIgnoresCase` | resources/amazon/dashboard/pages/sales_overview.py:52-58 | the dashboard depends on the selection only through its upper-case form |
| `SalesOverview.EarlyExits` | resources/amazon/dashboard/pages/sales_overview.py:53-58 | the two early exits show the same empty figures and differ only in their message; every notice the callback returns is one of the two |
| `SalesOverview.Update` | resources/amazon/dashboard/pages/sales_overview.py:52-85 | no selection (None or "") gives empty figures and "Please select a state."; no matching rows gives empty figures and the different message "No data for selected state."; otherwise the four views are computed from the subset |
| `SalesOverview.UpdateShowsMetrics` | resources/amazon/dashboard/pages/sales_overview.py:53-58 | a non-empty selection shows metrics exactly when some row of the table matches it |
| `SalesOverview.SummaryOfMatches` | resources/amazon/dashboard/pages/sales_overview.py:74-77 | the order count, total revenue, average and B2B share are those of exactly the table's matching rows: count, sum, sum / count and B2B count / count × 100 |
| `SalesOverview.OptionHasData` | resources/amazon/dashboard/pages/sales_overview.py:20-58 | choosing any non-empty dropdown option shows metrics, never the no-data message |
| `Grouping.GroupSum` | resources/amazon/dashboard/pages/sales_overview.py:65 | `groupby(...).sum()` has one entry per present key, keys strictly ascending, each holding its key's sum |
| `Grouping.GroupSumTotal` | resources/amazon/dashboard/pages/sales_overview.py:65 | the group sums add up to the total of all rows that have a key |
| `Grouping.SortDesc` | resources/amazon/dashboard/pages/sales_overview.py:61 | the stable descending sort is a permutation of its input |
| `Grouping.SortDescRanked` | resources/amazon/dashboard/pages/sales_overview.py:61 | the stable descending sort of groups in ascending key order orders them by value, then by key |
| `Grouping.NLargest` | resources/amazon/dashboard/pages/sales_overview.py:61 | `nlargest(n)` keeps min(n, size) entries, all from its input, and keeps all of them when there are at most n |
| `Grouping.NLargestRanked` | resources/amazon/dashboard/pages/sales_overview.py:61 | `nlargest(n)` is ranked, and every entry it drops ranks after the last entry it keeps |
| `Grouping.TopGroups` | resources/amazon/dashboard/pages/sales_overview.py:61 | a top-n group ranking has at most n distinct keys, each with its true sum, is ranked, leaves out no group that ranks above its last entry, and is empty exactly when no row has a key |
| `SalesOverview.CategorySums` | resources/amazon/dashboard/pages/sales_overview.py:61 | the category column's group sum for `c` is the units sold in `c`; the column has key `c` exactly when some row has category `c` |
| `SalesOverview.TopCategories` | resources/amazon/dashboard/pages/sales_overview.py:61 | the category ranking has at most 6 entries and is ranked by units, then by ascending name |
| `SalesOverview.TopCategoriesRanking` | resources/amazon/dashboard/pages/sales_overview.py:61 | at most 6 distinct categories, each present and with its units sold; non-increasing by units, ties in ascending name; any category left out has no more units than the sixth; empty exactly when every row lacks a category |
| `SalesOverview.MonthSums` | resources/amazon/dashboard/pages/sales_overview.py:65 | the month column's group sum for `m` is the revenue of month `m`; the column has key `m` exactly when some row is in month `m` |
| `SalesOverview.MonthlyRevenue` | resources/amazon/dashboard/pages/sales_overview.py:65 | the trend's month labels are strictly ascending and its values add up to the subset's revenue |
| `SalesOverview.MonthlyRevenueTrend` | resources/amazon/dashboard/pages/sales_overview.py:65 | one entry per month present, labels strictly ascending, each holding its month's revenue, all adding up to the subset's revenue |
| `SalesOverview.MonthlyRevenueChronological` | resources/amazon/dashboard/pages/sales_overview.py:17-65 | on prepared rows, one trend entry precedes another exactly when its month is earlier in the calendar |
| `SalesOverview.StatusSums` | resources/amazon/dashboard/pages/sales_overview.py:69 | the status column's group sum for `st` is the number of orders with status `st` |
| `SalesOverview.TopStatuses` | resources/amazon/dashboard/pages/sales_overview.py:69-70 | the status ranking has at most 5 entries and is ranked by count, then by ascending name |
| `SalesOverview.TopStatusesRanking` | resources/amazon/dashboard/pages/sales_overview.py:69-70 | at most 5 distinct statuses, each with its order count; non-increasing by count; any status left out has no more orders than the fifth; non-empty exactly when the subset is |
| `SalesOverview.Summarize` | resources/amazon/dashboard/pages/sales_overview.py:74-77 | total orders is the subset size; total revenue is the subset's revenue; average × count = total; B2B share × count = 100 × B2B orders, so it lies in [0, 100]; the top category is the label of the ranking passed in |
| `SalesOverview.TopCategoryLabel` | resources/amazon/dashboard/pages/sales_overview.py:78 | the top category is a category of the ranking, or "N/A" when the ranking is empty |
| `SalesOverview.TopCategoryIsBest` | resources/amazon/dashboard/pages/sales_overview.py:78 | the top category is the ranking's first entry and no category sold more units; it is "N/A" for an empty ranking and, when no category is literally "N/A", only then |
| `SalesOverview.TwoOrdersExample` | resources/amazon/dashboard/pages/sales_overview.py:52-78 | two NY orders, both "Shipped" (Books ×2 for 20 in 2023-01; Toys ×1 for 15, B2B, in 2023-02), selected as "ny", give the ranking Books 2, Toys 1; the trend 2023-01: 20, 2023-02: 15; the statuses Shipped 2; and 2 orders, revenue 35, average 17.5, B2B share 50, top category "Books" |

## Left out

- Reading the CSV (line 15) is left out. It is I/O. The model starts from rows
  that are already typed.
- Parsing dates with `pd.to_datetime` (line 16) is left out. Its failure on a
  malformed date is left out too. The model takes parsed dates: a year up to
  9999, a month from 1 to 12 and a day from 1 to 31. Whether the day exists in
  that month is the parser's job.
- Page registration, the layout, the dropdown widget and the `@callback` wiring
  (lines 8-12 and 24-51) are left out. The host calls `Update` with the
  selection.
- Building the Plotly figures (lines 62, 66, 71) is left out. Each figure is
  modelled by the series it plots.
- Building the `dbc.Table` and formatting currency and percentages with
  rounding (lines 80-83) are left out. They are presentation. The model returns
  exact values.
- Floating-point rounding in `sum` and `mean` is not modelled. Amounts are exact
  reals.
- `Text.Upper` upper-cases only the ASCII letters. Python's `str.upper` also maps
  other Unicode letters, sometimes to several characters. Those mappings are not
  modelled.
- `SalesOverview.TopStatuses` (and so `SalesOverview.TopStatusesRanking`) puts
  statuses with equal counts in ascending name order. That order is a choice of
  this model. `value_counts` sorts with an unstable quicksort, so pandas does not
  fix the order of equal counts. With a tie at fifth place, this order also
  decides which of the tied statuses is kept, not only the order shown.
- Only `ship_state` and `category` may be missing in the model. The columns
  `qty`, `amount_eu`, `status` and `B2B` are taken as always present. In pandas,
  `sum` and `mean` skip missing values, so with a missing amount or B2B flag
  `mean()` (lines 76-77) would divide by the number of present values, not by the
  number of rows; and `value_counts()` (line 69) would drop missing statuses.
- Because the selection is an `Option<string>`, a non-string dropdown value is
  not modelled.
