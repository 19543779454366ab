# Startup funding dashboard: filter-and-aggregate pipeline in Dafny

This project models the computational core of the Indian startup funding
dashboard (`app.py`). The dashboard loads a CSV of funding rounds and
coerces the amount and date columns. It drops unusable rows and derives
the sidebar's option lists and default year range. It then filters by city,
year, industry and (when present) investment type, and builds four views:
the top 10 startups, investors and industries by summed funding, and the
monthly funding trend.

Everything in the core is a pure transformation of a table, so the model is
made of datatypes, functions over `seq<Record>` and lemmas about them.

- `wrappers.dfy` (`Wrappers`): `Option`, the missing-or-present cell.
- `seqs.dfy` (`Seqs`): `Select`, the order-preserving selection behind a
  boolean mask, and the subsequence relation.
- `ordering.dfy` (`Ordering`): strict total orders, `SortedUnique`
  (`sorted(unique())`), and Python's string order `StrLess`.
- `records.dfy` (`Records`): the `Record` and `RawRecord` rows, coercion
  (`errors="coerce"`) and cleaning (`dropna`).
- `options.dfy` (`Options`): the option lists and the default year range.
- `filters.dfy` (`Filters`): the `Selection` and the filter.
- `aggregates.dfy` (`Aggregates`): group sums, the descending sort, the
  top-N views and the monthly trend.
- `dashboard.dfy` (`Dashboard`): the whole computation, the default
  selection and a worked example.

Modelling choices:

- Amounts are unbounded integers, so sums are exact. A missing amount adds
  nothing to a sum, as pandas' `sum` skips it.
- The amount and date parsers are parameters of type `string -> Option<...>`.
  Their details are not modelled.
- The sidebar selection is a plain input (`Selection`).
- The group keys are sorted as `groupby` sorts them. The ranking is an
  insertion sort by total. The source uses a non-stable sort, so no lemma
  states an order among equal totals.
- When no row has a date, the source fails at line 38: `int()` of a missing
  minimum. `YearBounds` and `DefaultSelection` return `None` there.

Behaviour of `app.py` that the model keeps:

- The default selection does not keep every usable row. Rows with no date,
  no industry, or (when that filter is active) no investment type are
  dropped. `DefaultSelectionKeeps` states exactly what is kept.
- An empty city or industry selection keeps nothing.
- An empty investment-type selection applies no filter at all.
- The ranked views take the groups in sorted key order (`groupby`) and then
  apply pandas' default sort, which is not stable, so no order among equal
  totals is fixed.

## Model

| member | source | states |
|---|---|---|
| Records.Coerce | app.py:19-20 | coercion keeps the number of rows and every text column; a row's amount or date is present iff its cell was present and parsed, and then equals the parse result |
| Records.Clean | app.py:21 | every cleaned row is an input row with amount, city and startup present, and every such input row is kept |
| Records.CleanSpec | app.py:21 | the cleaned table is an order-preserving subsequence of the input; every row in it has amount, city and startup present; every such input row is kept, with every copy, and no other row |
| Records.CleanIdempotent | app.py:21 | dropping unusable rows a second time removes nothing |
| Options.Present | app.py:34 | `dropna()` of a column: holds every present value of the column and nothing else |
| Options.ColumnOptions | app.py:34 | every option is a present value of the column, and every present value is an option |
| Options.CityOptions | app.py:34 | the city options are strictly ascending in Python string order and are exactly the present cities |
| Options.IndustryOptions | app.py:42 | the industry options are strictly ascending in Python string order and are exactly the present industries |
| Options.ColumnOptionsSpec | app.py:34-47 | each option list is strictly ascending in Python string order, hence duplicate-free, and contains exactly the non-missing values of its column |
| Options.InvestTypeOptions | app.py:46-50 | there is an investment-type option list exactly when the table has that column; it is strictly ascending in Python string order and holds exactly the present investment types |
| Options.YearBounds | app.py:38 | missing iff no row has a date; otherwise both bounds are years of some row, and every present year lies between them |
| Ordering.SortedUnique | app.py:34 | the result holds exactly the values of the input |
| Ordering.SortedUniqueAscending | app.py:34 | under a strict total order the result is strictly ascending |
| Ordering.StrLessIsStrictTotalOrder | app.py:34 | Python's code-point lexicographic string order is irreflexive, transitive and total |
| Filters.Filter | app.py:55-62 | every kept row is an input row meeting every active condition, and every input row meeting them is kept |
| Filters.FilterSelectsMatches | app.py:55-62 | the mask filter followed by the optional investment-type filter keeps exactly the rows meeting every active condition |
| Filters.FilterSound | app.py:55-62 | every kept row has a selected city, a present date whose year lies in the inclusive range, a present selected industry and, when that filter is active, a present selected investment type; the result is an order-preserving subsequence |
| Filters.FilterComplete | app.py:55-62 | every row that meets all active conditions is kept, with every copy; no other row is |
| Filters.FilterEmptySelection | app.py:55-58 | with no city or no industry selected the result is empty |
| Filters.EmptyInvestSelectionIgnored | app.py:61-62 | an absent column or an empty investment-type selection leaves the city/year/industry result unchanged |
| Filters.InvestFilterNarrows | app.py:61-62 | the investment-type step only removes rows from the city/year/industry result, keeping order |
| Filters.FilterIdempotent | app.py:55-62 | filtering the filtered table again with the same selection changes nothing |
| Aggregates.InsertDesc | app.py:84 | inserting into a non-increasing ranking keeps it non-increasing and adds exactly that entry |
| Aggregates.SortDesc | app.py:84 | `sort_values(ascending=False)`: the result is a permutation (same multiset) of the groups in non-increasing order of totals |
| Aggregates.RankedEntries | app.py:82-84 | there is one ranked group per present label |
| Aggregates.RankedDistinct | app.py:82-84 | no label is ranked twice |
| Aggregates.RankedComplete | app.py:82-84 | every label present in the rows is ranked |
| Aggregates.Ranked | app.py:82-84 | the grouped sums in non-increasing order; each entry carries the summed amount of its label's rows, and the label occurs |
| Aggregates.TopBySum | app.py:81-87 | `head(n)` of the ranking: at most `n` entries, non-increasing, each the summed amount of a label that occurs |
| Aggregates.TopStartups | app.py:81-87 | the startup view has at most 10 entries with distinct startups, largest sum first, each the summed amount of that startup's rows; a startup left out leaves the view full and sums to no more than any shown entry |
| Aggregates.TopInvestors | app.py:95-101 | the investor view has at most 10 entries with distinct investors, largest sum first, each the summed amount of that investor's rows; an investor left out leaves the view full and sums to no more than any shown entry |
| Aggregates.TopIndustries | app.py:123-129 | the industry view has at most 10 entries with distinct industries, largest sum first, each the summed amount of that industry's rows; an industry left out leaves the view full and sums to no more than any shown entry |
| Aggregates.TopBySumSpec | app.py:81-87 | a top-N view has at most `n` entries, distinct labels, non-increasing totals, and each total is the summed amount of the rows with that label |
| Aggregates.TopBySumOmitted | app.py:84-85 | a present label missing from the view means the view is full, and that label's sum is at most every shown entry's total |
| Aggregates.TopBySumIgnoresUnlabelled | app.py:95-101 | rows with a missing label (e.g. no investor) contribute to no entry: dropping them leaves the view unchanged |
| Aggregates.TotalsConserveAmount | app.py:110-111 | over distinct labels that cover every present label, the group totals add up to the summed amount of the labelled rows |
| Aggregates.MonthlyTrend | app.py:109-113 | the trend keys are in strictly chronological order, and each carries the summed amount of a month that occurs |
| Aggregates.MonthlyTrendSpec | app.py:109-113 | trend keys are strictly ascending (chronological); each key is a month that occurs and carries that month's summed amount; every month that occurs has an entry |
| Aggregates.MonthlyTrendConservesAmount | app.py:109-113 | the monthly totals add up to the summed amount of the rows with a date |
| Aggregates.MonthlyTrendTotal | app.py:109-113 | when every row has a date, the monthly totals add up to the total amount |
| Dashboard.LoadTable | app.py:19-21 | the loaded table is an order-preserving subsequence of the coerced CSV rows; every row is a coerced CSV row and usable, and every raw row with a startup, a city and a parseable amount is kept as coerced, with every copy of a repeated row |
| Dashboard.DefaultSelection | app.py:34-50 | the default selection exists iff some row has a date, as the slider needs a year range |
| Dashboard.DefaultInvestActive | app.py:46-62 | under the default selection, the investment-type filter is active iff the column exists and some row has a value in it |
| Dashboard.DefaultMatches | app.py:34-62 | under the default selection, a row passes iff it has a city, a date, an industry and, if that filter is active, an investment type |
| Dashboard.DefaultSelectionKeeps | app.py:34-62 | under the default selection, the filter equals selecting the rows kept by default (not the whole table) |
| Dashboard.EmptySelectionEmptyViews | app.py:55-132 | with no city or no industry selected, all four views are empty |
| Dashboard.ComputeViews | app.py:55-129 | the three ranked views of the filtered rows are top-10 views: distinct labels, largest first, with their summed amounts, and no omitted label sums to more than a shown one; the monthly trend is strictly chronological, has an entry for the month of every filtered row, each with that month's summed amount, and adds up to the filtered rows' total amount |
| Dashboard.ExampleIndustryOptions | app.py:42 | for the three-round example the industry options are ["Retail", "Tech"] |
| Dashboard.ExampleFilter | app.py:55-59 | selecting Pune, 2019-2019 and every industry keeps rounds A and B, in order |
| Dashboard.ExampleTopStartups | app.py:81-87 | for those rows the startup ranking is B (200) then A (100) |
| Dashboard.ExampleMonthlyTrend | app.py:109-113 | for those rows the trend is January 2019 (100) then February 2019 (200) |

## Left out

- CSV reading (app.py:17): the table is an input. Only the "Investment Type" column is treated as optional; the other columns are assumed to exist, and the source fails without them.
- All Streamlit UI, which is I/O: page setup, the "Show Raw Data" and "Show Full Filtered Data" checkboxes, the multiselects, the slider, `st.write`, `st.dataframe`, subheaders and columns (app.py:11-12, 26-31, 35, 39, 43, 48, 67-80, 94, 108, 122). The selection is a plain input, so the UI's guarantee that selections come from the option lists is not assumed.
- The row preview `head()` (app.py:68): display only.
- Chart drawing with matplotlib, seaborn and `st.pyplot` (app.py:88-90, 102-104, 115-118, 130-132): an external sink.
- The parsing rules of `pd.to_numeric` and `pd.to_datetime` (app.py:19-20): the parsers are opaque functions passed in.
- Period-to-string formatting of the trend keys (app.py:114): the keys stay `YearMonth` values.
- Floating point: amounts are integers, so rounding in float sums is not modelled.
- Aggregates.SortDesc: equal totals keep the order the insertion sort gives them. The source's non-stable sort fixes no order among equal totals, and no lemma relies on one.
- What Streamlit does with a one-year slider range (minimum equal to maximum): UI behaviour outside this model.
