# Inventory dashboard: status and KPI logic

The NISSILI inventory dashboard (`app.py`, a Streamlit script) reads one
`inventory` table and shows several things in English or Japanese:

- three sidebar filters: client, product and month;
- four KPIs: revenue, units sold, items needing restock and unique clients;
- a bar chart of units per product;
- a line chart of units per month;
- the current low-inventory list;
- a simulated e-mail alert.

This project models the logic under those views, stated over one
language-neutral schema (`Schema.Row`). A `Lang` value chooses only two
things: the "All"/"すべて" sentinel at the head of each filter list, and the
date layout that `pd.to_datetime` parses.

Modules, following the script from top to bottom:

- `Text`: Python's string order (`<` on `str`) as a total order, plus `s[:n]`
  and ASCII `str.lower()`.
- `Schema`: rows, (client, product) pairs, and the normalised restock flag.
- `Filters`: the filtering block. `ApplyFilters` narrows a copy of the table
  step by step, as the script reassigns `df_filtered`. It is proved equal to
  the pure conjunction `FilterRows`.
- `FilterOptions`: the sidebar lists, built as `sorted(unique(...))`.
- `Dates`: calendar dates, the Timestamp range, and the two parsers:
  - English: exact `YYYY-MM-DD`;
  - Japanese: strptime's `%Y年%m月%d日`, with optional leading zeros.

  The module also defines the `YYYY-MM` period key and proves the order
  lemmas that relate date texts to time.
- `Status`: `sort_values(date).groupby(pair).tail(1)`, the per-pair snapshot.
- `Restock`: the restock KPI, the low-stock list and the e-mail's product list.
- `Kpis`: revenue and units sums, and the distinct-client count over the
  unfiltered table.
- `Charts`: `groupby(key)[units].sum()` for products and for months. The month
  chart works from the date column after its in-place overwrite with parsed
  dates.
- `Dashboard`: one run of the script (`RenderDashboard`), and the lemmas that
  relate the KPI to the low-stock list across the date overwrite.

Two behaviours of the code are modelled as written and pinned down by lemmas.

**1. The KPI and the low-stock list can sort dates differently.**

- The restock KPI (app.py:198, 206) sorts the raw date text.
- The low-stock list (app.py:285, 294) sorts the parsed dates, because the
  chart code overwrote the date column in place in between (app.py:245, 260).
- For exact `YYYY-MM-DD` English text, and for zero-padded Japanese text,
  the two agree as long as both sorts put a pair's same-date rows in the same
  order: `Dashboard.RenderDashboard` and
  `Dashboard.PaddedJapaneseListMatchesKpi`. Both are proved for the one sorted
  order the model uses. The two `sort_values` calls are separate unstable
  sorts, and `Status.TieDependsOnOrder` shows that same-date rows with different
  flags can count differently under two sorted orders.
- They can disagree for unpadded Japanese dates. In
  `Dashboard.UnpaddedDatesSplitKpiAndList`, "2025年10月1日" sorts before
  "2025年9月1日" as text, so the KPI counts 1 while the list is empty.

**2. Japanese month options are not `YYYY-MM`.**

- The code comment promises `YYYY-MM`. For Japanese dates, however, the code
  keeps the first seven characters of the Japanese text, for example
  "2025年06". The model follows the code.
- `Dashboard.PaddedMonthFilterMatchesChart` proves that, for zero-padded
  dates, such an option still picks out exactly one chart month.

## Model

Where the English and Japanese branches of the script do the same thing,
a row cites the English branch; the Japanese branch mirrors it (filters
179-184, snapshots 206 and 294, restock flag 207 and 295, sums 209-212,
product chart 223, month chart 260-262, alert 320-330).

| member | source | states |
|---|---|---|
| Filters.Choice | app.py:179-190 | a picked entry constrains nothing exactly when it is the language's "All"/"すべて" sentinel; otherwise it is the value to match |
| Filters.KeepEqual | app.py:180-191 | one filtering step keeps exactly the rows whose cell equals the value, and never more rows than it was given |
| Filters.FilterRows | app.py:176-191 | a row is kept exactly when it is in the table and meets every non-"All" constraint (client, product, 7-character date prefix) |
| Filters.FilterNothing | app.py:176 | with every filter on "All" the filtered frame is the whole table, in order |
| Filters.FilterAppend | app.py:176-191 | filtering works row by row: the filter of two concatenated tables is the concatenation of their filters, so the original order is kept |
| Filters.FilterMultiplicity | app.py:176-191 | a kept row keeps its multiplicity, and a rejected row has none (no de-duplication) |
| Filters.NarrowStep | app.py:179-191 | narrowing an already filtered frame by one more column equals filtering the table with that constraint added |
| Filters.ApplyFilters | app.py:176-191 | the step-by-step reassignment of the filtered frame yields exactly the conjunction filter of the three selections |
| FilterOptions.SortedUnique | app.py:155-161 | `sorted(unique(xs))` is strictly ascending, has exactly the values of `xs`, and is no longer than `xs` |
| FilterOptions.StrictlySortedUnique | app.py:155-161 | two strictly ascending lists with the same values are equal |
| FilterOptions.OptionList | app.py:154-161 | the list starts with the sentinel; the rest is strictly ascending and holds exactly the column's values (the 7-character date prefix for months) |
| FilterOptions.EveryOptionSelectsRows | app.py:154-191 | every listed value other than the sentinel selects at least one row of the table |
| FilterOptions.OptionListIsCanonical | app.py:154-161 | any ascending, duplicate-free listing of the column's values is exactly the list after the sentinel |
| Text.StrLeNegation | app.py:155-161 | Python's string order is total: not `a <= b` means `b < a` |
| Text.StrLtTransitive | app.py:155-161 | Python's string order is transitive |
| Text.Prefix | app.py:157-191 | `s[:n]` is a prefix of `s`, of length `n` when `s` has at least `n` characters and the whole of `s` otherwise |
| Text.Lower | app.py:199-295 | `str.lower()` keeps the length and lowers each ASCII capital letter |
| Schema.NeedsRestock | app.py:199 | a flag that counts is present and three characters long |
| Schema.NeedsRestockExactly | app.py:199-295 | after `fillna('')` and `lower()`, a flag equals "yes" exactly when it is present, has three characters, and spells y/e/s in any case; null never counts |
| Schema.ClientsOfSubset | app.py:204 | the rows kept from a table have no more distinct clients than the table |
| Status.SortByDate | app.py:198 | the sort returns a permutation of the frame, ascending by date |
| Status.GroupTail | app.py:198 | `groupby(pair).tail(1)` keeps rows of its input, every pair once, and no other pair |
| Status.GroupTailKeepsLatest | app.py:198 | on a date-sorted frame, each kept row has the latest date of its pair |
| Status.LatestStatus | app.py:198 | one row per distinct pair of the input, each taken from the input, each latest in its pair, in date order; an empty input gives an empty result |
| Status.AnySortedOrder | app.py:198 | the same guarantees hold for every date-sorted order the unstable sort may produce |
| Status.LatestOfTwo | app.py:198 | of two rows of one pair in date order, the later one is the snapshot |
| Status.TieDependsOnOrder | app.py:198 | two rows of one pair with the same date are date-sorted in either order, and each order keeps a different row |
| Status.LatestIsIdempotent | app.py:198 | taking the snapshots of the snapshots changes nothing |
| Status.LatestCommutes | app.py:285 | rewriting dates in an order-preserving way commutes with taking the snapshots |
| Restock.RestockCount | app.py:199 | the count is at most the number of snapshots, and it is 0 exactly when no snapshot's flag is "yes" |
| Restock.LowStock | app.py:286 | the list holds exactly the snapshots whose flag is "yes", unchanged, each at most as often as in the input |
| Restock.ListLengthIsCount | app.py:198-199 | over the same snapshots, the list's length equals the count |
| Restock.RestockAtMostPairs | app.py:198-199 | the count and the list are at most the number of distinct pairs, so duplicate rows of a pair are never counted twice |
| Restock.LowStockAreSnapshots | app.py:285-286 | every listed row needs restock, comes from the table, and has the latest date of its pair |
| Restock.RedateKeepsFlags | app.py:285-286 | rewriting dates changes neither the count nor the list's length |
| Restock.LaterSnapshotClears | app.py:198-199 | of two rows of one pair, when the later-dated one needs no restock, the pair is neither counted nor listed |
| Restock.LaterRowDecides | app.py:198-199 | a pair whose January row says "yes" and whose February row says "no" is not counted |
| Restock.UniqueInOrder | app.py:314 | `unique()` gives each value of the list exactly once |
| Restock.AlertProducts | app.py:304-314 | the alert is shown exactly when the list is not empty, and names each listed product once |
| Kpis.TotalsAppend | app.py:201-202 | revenue and units are plain sums, additive over a split of the rows |
| Kpis.FilteredUnitsAtMostAll | app.py:176-202 | filtering never raises the units total |
| Kpis.ColumnSplit | app.py:180-202 | the rows equal to a value and the other rows partition both totals |
| Kpis.Summarize | app.py:198-212 | revenue and units are the sums of the filtered rows; the client KPI is the number of distinct clients of the whole table, at most its size and 0 only for an empty table; the restock KPI equals the list length over the same frame and is at most its pairs; an empty frame gives zero sums and count |
| Kpis.ClientKpiIgnoresFilter | app.py:204 | the client KPI is the same under any two selections, and is the distinct-client count of the unfiltered table |
| Kpis.TotalRevenue | app.py:201 | the revenue sum is 0 when every row's revenue is 0, and with no negative revenue it is at least each row's revenue |
| Kpis.TotalUnits | app.py:202 | the units sum is at least each row's units, and is 0 exactly when no row sold any |
| Kpis.ClientKpiBoundsFilteredClients | app.py:204 | the client KPI, taken over the unfiltered table, bounds the clients left after any filter and equals them with no filter |
| Charts.AddTo | app.py:218 | adding an entry puts its units under its key, keeps keys ascending and unique, and raises the total by those units |
| Charts.GroupSum | app.py:218 | the grouped sum has ascending unique keys, exactly the entries' keys, the per-key sums of the entries, and the same total |
| Charts.GroupSumIsPerKeySum | app.py:218 | each group holds the sum of the entries with its key |
| Charts.EntriesSums | app.py:218 | the entries of a column add up to the units KPI, and under a value to the units of the rows equal to it |
| Charts.UnitsByProduct | app.py:218 | the bars are ascending by product, and the bar of each product holds the units of that product's rows (none for a product without rows) |
| Charts.ProductBars | app.py:218 | one bar per product of the filtered rows, ascending; the bars add up to the units KPI; each bar equals the units KPI for that product's filter |
| Charts.ParseDateColumn | app.py:245 | the conversion succeeds exactly when every date parses, and then replaces each date by its parsed value |
| Charts.ConvertedMonths | app.py:245-246 | after the conversion, each month cell is the `YYYY-MM` period of the row's parsed date |
| Charts.MonthlyUnits | app.py:247 | the points are ascending by month, and the point of each month holds the units of the converted rows in that month |
| Charts.MonthlyPoints | app.py:245-247 | one point per distinct month of the filtered dates, ascending, adding up to the units KPI |
| Charts.EnglishMonthsAreFilterMonths | app.py:246 | for English data, the chart's months are exactly the month-filter keys of the rows |
| Dates.ParseIso | app.py:245 | only a `YYYY-MM-DD` text parses, and only to a date in the Timestamp range |
| Dates.ParseJapanese | app.py:260 | only a text of 9 to 11 characters with 年 after the year and ending in 日 parses, and only to a date in the Timestamp range |
| Dates.MonthKey | app.py:246 | the month period is a 7-character `YYYY-MM` text, the first seven characters of the date's ISO text |
| Dates.IsoRoundTrip | app.py:245 | every Timestamp date's `YYYY-MM-DD` text parses back to that date |
| Dates.IsoCanonical | app.py:245 | a parsed `YYYY-MM-DD` text is its own ISO text, so the English conversion changes no date |
| Dates.JapaneseRoundTrip | app.py:260 | every Timestamp date's zero-padded `YYYY年MM月DD日` text parses back to that date |
| Dates.IsoTextIsChronological | app.py:285 | `YYYY-MM-DD` texts are ordered exactly as their dates |
| Dates.JapaneseTextIsChronological | app.py:294 | zero-padded Japanese texts are ordered exactly as their dates |
| Dates.IsoMonthIsFilterMonth | app.py:246 | the period of an English date is its text's first seven characters |
| Dates.DigitsRoundTrip | app.py:245 | reading back a zero-padded number gives the number |
| Dates.UnpaddedJapaneseRoundTrip | app.py:260 | every Timestamp date written without leading zeros (`YYYY年M月D日`) also parses back to that date |
| Dashboard.RenderDashboard | app.py:154-314 | the option lists, the KPI row and the product bars are exactly those of the filtered frame (per-product sums, adding up to the units KPI); the monthly chart, the low-stock list and the alert are exactly what the date overwrite shows for that frame; the monthly points add up to the units KPI; in English the list length equals the restock KPI |
| Dashboard.ShowAfterOverwrite | app.py:245-314 | after the in-place date overwrite: the chart, the list and the alert exist exactly when every date parses; the chart is then the per-month sums of the converted frame, the list is exactly its flagged snapshots, and the alert is built from that list; the chart is ascending and adds up to the frame's units; listed rows need restock and number at most the frame's pairs; in English that number equals the restock KPI; the alert exists exactly when the list is not empty and names exactly its products |
| Dashboard.AfterConversion | app.py:245-295 | over the converted frame, the monthly keys are ascending and sum to the original units; the low-stock rows need restock, belong to pairs of the original frame and number at most its pairs; in English their number equals the restock KPI of the original frame |
| Dashboard.EnglishConversionIsIdentity | app.py:245 | converting English `YYYY-MM-DD` dates leaves every row as it was |
| Dashboard.PaddedJapaneseIsOrderFaithful | app.py:294 | for zero-padded Japanese dates, the raw text and the converted date order rows alike |
| Dashboard.PaddedJapaneseListMatchesKpi | app.py:206-207 | for zero-padded Japanese dates, the low-stock list after the conversion has exactly as many rows as the restock KPI before it |
| Dashboard.UnpaddedDatesSplitKpiAndList | app.py:206-207 | rows dated "2025年9月1日" ("yes") and "2025年10月1日" ("no") of one pair give a restock KPI of 1 but an empty low-stock list |
| Dashboard.EarlierTextLoses | app.py:206 | of two rows of one pair, the row whose date text sorts last is the snapshot |
| Dashboard.PaddedMonthFilterMatchesChart | app.py:157 | for zero-padded Japanese dates, two dates share a month-filter entry exactly when they share a chart month |

## Left out

- Page setup, the language radio button, markdown, expanders and table display (app.py:16-151, 164-173, 340-367): these are UI. The selections are plain parameters of `RenderDashboard`.
- Logo loading and base64 encoding: image I/O through a foreign library.
- The SQL read (app.py:63), the CSV import scripts and the database test: I/O. The table is a parameter.
- Column relabelling (app.py:67-97): presentation. One schema replaces both languages.
- Plotly configuration, including the floating-point axis bound `max_y * 1.15`: plotting and floats.
- Excel export: a foreign serialiser.
- The e-mail's markup: only which products it names, and when it is shown, are modelled.
- `pd.to_datetime` format inference for English dates: only exact `YYYY-MM-DD` texts parse. Any other English date text is treated as a parse failure.
- Timestamps are modelled at day resolution. The range bound is the range of dates, 1677-09-22 to 2262-04-11.
- strptime's `%Y`, and the second digit of a `%d` day that starts with 1 or 2, also accept non-ASCII digits. The model accepts ASCII digits only.
- Null `Units Sold` and `Revenue` cells (app.py:201-202, 218, 247): pandas' sums and the group-by sum skip NaN. The model's units are `nat` and its revenue `int`, so these cells are never null.
- Text.Lower: ASCII letters only. Python lowers every Unicode letter, so a flag whose lower-case form is "yes" only under full Unicode case folding is not counted.
- Null client, product and date cells: every such column is taken to be non-null, so `dropna` keeps every value. Null restock flags are modelled.
- Kpis.Summarize: units sold are `nat`, so negative unit counts are not modelled. Revenue may be negative.
- Status.LatestStatus: uses one date-sorted order, the stable insertion sort. Which of several same-date rows pandas' unstable sort keeps is not promised; `Status.AnySortedOrder` states the guarantees for every sorted order.
- Restock.AlertProducts: the order of the products (first appearance) is not stated, only membership and no repeats.
- The pandas `int64` width of the revenue and units sums: sums are unbounded integers.
