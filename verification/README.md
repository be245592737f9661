# Branch performance report: loading and ranking core

A Dafny model of the data pipeline in `baocaocskh.py`, a Streamlit application that
reads two kinds of monthly spreadsheet reports for the branches ("Điện lực") of an
electricity company:

- customer-app adoption (managed customers, customers using the app, adoption rate
  as a 0–1 fraction);
- on-time resolution (forwarded requests, late tickets, late rate on the 0–100 scale,
  possibly written with a `%` sign).

For each report the program:

1. drops rows without a branch name;
2. splits off the company-wide row ("Công ty …", recognised by the marker `công ty`
   in the trimmed, lower-cased name);
3. converts the count columns with `astype(int)` and the rate with `astype(float)`,
   or, for the late rate, with `astype(str).str.replace('%','').astype(float)`;
4. shows the branch rows followed by the company row with a percentage column;
5. sums the counts over that combined table and takes the unweighted mean of the
   branch rates;
6. lists the top 3 and bottom 3 branches by rate (`nlargest` / `nsmallest`,
   `keep='first'`) and quotes the leader and the lowest top-3 rate.

Modules, one per stage:

- `Results`: `Option` and `Result`.
- `Seqs`: order-preserving filter, element-wise map, subsequences, and a pigeonhole bound.
- `Text`: `str.strip`, `str.lower`, substring search, `%` removal.
- `Cells`: spreadsheet cells and the pandas conversions.
- `Tables`: row cleaning, classification, column coercion, and the two loaders as one
  `Load` parameterised by the template.
- `Ranking`: stable top-n / bottom-n as a selection of source positions. It has an
  independent order specification, `IsRanking`, and a proof that this specification
  determines the result.
- `Summary`: totals, mean, minimum.
- `Report`: the body of a tab.
- `Scenarios`: worked cases.

Rates are `real`, so the model has no rounding. Number parsing (`int(s)`, `float(s)`)
and float rendering (`str(x)`) are not reimplemented. They are fields of a `Parsers`
value passed in by the caller. A parse that Python rejects is `None` there.

Behaviour of the code worth noting:

- every `%` is removed, not only a trailing one;
- only empty (NaN) branch names are dropped, blank strings are kept;
- the on-time loader leaves the company row's STT unconverted;
- an empty branch table gives a NaN mean and then an `IndexError` at `top3.iloc[0]`;
  the model reports this as `NoBranchRows` rather than a separate empty-dataset error.

Counts are summed over the branch rows *and* the company row (`pd.concat` at lines
203 and 256). When the company row holds the company-wide totals, every customer or
request is therefore counted twice. `Report.TotalsCountCompanyRow` states this. The
model keeps this behaviour as written.

## Model

| member | source | states |
|---|---|---|
| Seqs.Filter | baocaocskh.py:12 | boolean-mask selection keeps exactly the rows satisfying the mask, nothing else |
| Seqs.FilterIsSubsequence | baocaocskh.py:14-15 | a filtered table keeps the source order of its rows |
| Seqs.FilterPartition | baocaocskh.py:14-15 | the mask and its negation split a table with no row lost or duplicated (multiset and length) |
| Text.Trim | baocaocskh.py:14 | `str.strip()` returns a slice of the name that neither starts nor ends with whitespace, with only whitespace cut on either side |
| Text.TrimKeepsCore | baocaocskh.py:14 | stripping keeps exactly the text between leading and trailing whitespace |
| Text.TrimIdempotent | baocaocskh.py:31 | stripping twice equals stripping once |
| Text.Lower | baocaocskh.py:14 | the model's lower-casing keeps the length and lowers each character on its own, for the letters listed under Left out |
| Text.LowerIdempotent | baocaocskh.py:31 | lower-casing twice equals lower-casing once |
| Text.Contains | baocaocskh.py:14 | `str.contains('công ty')` is true iff the marker occurs at some position |
| Text.StripPercent | baocaocskh.py:36 | after `replace('%','')` no `%` is left and every other character keeps its count |
| Text.StripPercentAppend | baocaocskh.py:40 | removing `%` distributes over concatenation |
| Text.StripPercentKeepsPlain | baocaocskh.py:36 | text without `%` is unchanged |
| Text.StripPercentIdempotent | baocaocskh.py:36 | removing `%` twice equals removing it once |
| Text.StripPercentIgnoresSign | baocaocskh.py:36 | a `%` anywhere in the text, not only at the end, is removed |
| Text.StripPercentSuffix | baocaocskh.py:35-36 | `s + "%"` strips to the same text as `s` |
| Cells.Trunc | baocaocskh.py:18 | `astype(int)` of a float rounds toward zero, losing less than one unit |
| Cells.AsInt | baocaocskh.py:18 | `astype(int)` raises on an empty cell and always converts a number, truncating toward zero: the result is the integer between zero and `x` that lies less than one unit from `x`, so a whole number is kept as it is |
| Cells.AsStr | baocaocskh.py:36 | `astype(str)` renders an empty cell as the text `nan`; its effect on the late rate is stated by `Cells.PercentRate` |
| Cells.PercentRate | baocaocskh.py:36 | the late rate of an empty cell is whatever `float('nan')` gives; text without `%` is read by `float` unchanged, and so is a number whose rendering has no `%` |
| Cells.PercentRateIgnoresSuffix | baocaocskh.py:35-36 | "12.5%" and "12.5" give the same late rate |
| Cells.PercentRateNumberOrText | baocaocskh.py:36 | a numeric late rate and its `%`-suffixed text give the same late rate |
| Cells.PercentRateOfNumber | baocaocskh.py:36 | a numeric late rate survives the text round trip when Python reads back its own rendering |
| Tables.IsAggregateName | baocaocskh.py:14-15 | the company test strips, lower-cases and searches the name; `Tables.ClassificationIsExact` and `Tables.AggregateNameIgnoresStrip` state its consequences |
| Tables.AggregateNameIgnoresStrip | baocaocskh.py:31 | stripping a name before the test changes nothing |
| Tables.IntColumn | baocaocskh.py:33-34 | a count column converts as a whole or not at all, value for value |
| Tables.RateValues | baocaocskh.py:36 | the rate column converts as a whole or not at all, the template's way |
| Tables.CoerceTable | baocaocskh.py:17-23 | a table converts iff every row does; each output row is its raw row converted field by field; an error names a column that has a bad cell, and every column converted before it has none |
| Tables.Load | baocaocskh.py:8-24 | after loading, no branch row carries the marker, every company row does, and together they hold every named row |
| Tables.LoadSucceedsIff | baocaocskh.py:26-41 | loading fails exactly when some named row has a cell its table cannot convert |
| Tables.SplitKeepsSourceOrder | baocaocskh.py:30-32 | the branch and company row lists are subsequences of the sheet, and their multiset union is exactly the named rows |
| Tables.LoadConvertsRowForRow | baocaocskh.py:33-40 | each loaded table is its source rows converted field by field, in source order |
| Tables.ClassificationIsExact | baocaocskh.py:14-15 | a row is in the company table iff it is named and its name carries the marker, in the branch table iff named without the marker, never both |
| Tables.LoadedListingRate | baocaocskh.py:19 | a numeric rate cell `x` is stored as `x` by both loaders (for the late rate, where Python reads back its own rendering) |
| Tables.AggregateSttHandling | baocaocskh.py:37-40 | the on-time loader keeps the company row's STT as read, the app loader converts it (lines 21-22) |
| Ranking.FirstBest | baocaocskh.py:219 | the selection step returns the untaken position that ranks first, or none when all are taken |
| Ranking.Ranked | baocaocskh.py:219 | the chosen positions satisfy the ranking order and number `min(n, rows)` |
| Ranking.RankingPicksBestOfRest | baocaocskh.py:271 | each ranked entry ranks ahead of every position not listed before it |
| Ranking.RankingUnique | baocaocskh.py:284 | two listings of the same length that satisfy the ranking order are equal |
| Ranking.TopN | baocaocskh.py:219 | `nlargest(3)` returns `min(3, rows)` rows of the table in non-increasing rate order |
| Ranking.BottomN | baocaocskh.py:233 | `nsmallest(3)` returns `min(3, rows)` rows of the table in non-decreasing rate order |
| Ranking.TopNBeatsTheRest | baocaocskh.py:271 | a row left out of the top list has a lower rate than every chosen row, or an equal rate and a later source position |
| Ranking.BottomNBeatsTheRest | baocaocskh.py:284 | a row left out of the bottom list has a higher rate than every chosen row, or an equal rate and a later source position |
| Ranking.RankedTiesKeepSourceOrder | baocaocskh.py:219 | tied rows appear in source order in both lists (`keep='first'`) |
| Ranking.LeadersAreExtremes | baocaocskh.py:227 | the first top row has the table's highest rate, the first bottom row its lowest |
| Ranking.TopPositionsAreTheRanking | baocaocskh.py:271 | any listing satisfying the descending ranking order is the one `nlargest` returns |
| Ranking.BottomPositionsAreTheRanking | baocaocskh.py:233 | any listing satisfying the ascending ranking order is the one `nsmallest` returns |
| Summary.SumBase | baocaocskh.py:206 | the managed-customer or forwarded-request total; `Summary.SumsOfConcat` and `Summary.CountTotalsBound` state its properties |
| Summary.SumPart | baocaocskh.py:207 | the app-user or late-ticket total; `Summary.SumsOfConcat` and `Summary.CountTotalsBound` state its properties |
| Summary.CountTotalsBound | baocaocskh.py:206-207 | with non-negative counts, each total is non-negative and at least every row's count |
| Summary.SumsOfConcat | baocaocskh.py:206-207 | the totals of the combined table are the branch totals plus the company-row totals |
| Summary.MeanRate | baocaocskh.py:208 | the mean rate times the number of branch rows is the sum of their rates; no mean for an empty table |
| Summary.MeanWithinBounds | baocaocskh.py:261 | the mean lies between any lower and upper bound of the rates |
| Summary.MinRate | baocaocskh.py:228 | the quoted minimum is at most every rate and equal to one of them |
| Report.Percent | baocaocskh.py:204 | adoption rates are shown times 100, late rates unchanged (line 257); `Report.NumericRateScale` carries this from the cell to the listing |
| Report.Display | baocaocskh.py:203-205 | the listing row keeps the row's fields and shows its rate as a percentage; `Report.ListingIsBranchesThenCompany` states the order |
| Report.ListingRates | baocaocskh.py:203-204 | the listing shows the rows of branch table then company table one for one, names and percentages |
| Report.AverageWithinListedBranches | baocaocskh.py:208-213 | the overview average lies between the smallest and the largest branch percentage of the listing |
| Report.NumericRateScale | baocaocskh.py:203-204 | a numeric rate cell `x` is listed as `100 x` in the adoption tab and as `x` in the on-time tab (lines 256-257) |
| Report.Summarize | baocaocskh.py:203-233 | a tab succeeds iff there is a branch row; its totals include the company row, its mean and rankings only the branch rows |
| Report.Tab | baocaocskh.py:200-201 | a tab reports a load error exactly when loading fails |
| Report.RankingExcludesCompanyRow | baocaocskh.py:219 | when no branch row carries the marker, every top and bottom row is a branch row, so the company row is never ranked |
| Report.TabRanksBranchesOnly | baocaocskh.py:271 | from the sheet on, no ranked row carries the company marker |
| Report.RankedTablesShape | baocaocskh.py:271-284 | both ranked tables hold `min(3, branch rows)` rows in rate order |
| Report.NarrativeHolds | baocaocskh.py:277-280 | the named leader has the highest branch rate, and every top-3 rate is at least the quoted floor, which one of them attains |
| Report.ListingIsBranchesThenCompany | baocaocskh.py:256-257 | the listing is the branch rows then the company row, with late rates unchanged and adoption rates times 100 |
| Report.TotalsCountCompanyRow | baocaocskh.py:259-260 | a company row holding the company totals doubles the overview totals |
| Report.CompanyRowDoesNotAffectRanking | baocaocskh.py:208-233 | changing the company row, whatever its rate, changes neither the mean nor the rankings |
| Scenarios.TiedRowsKeepSourceOrder | baocaocskh.py:284 | rates 10, 5, 5, 20 ranked lowest first give B then C |
| Scenarios.FiveBranchTop3 | baocaocskh.py:219 | rates 0.10, 0.55, 0.30, 0.90, 0.20 give top positions 4, 2, 3 (counting from one) |
| Scenarios.FiveBranchMean | baocaocskh.py:208 | the same rates have mean 0.41 |
| Scenarios.FiveBranchReport | baocaocskh.py:208-219 | the same report lists top rates 0.90, 0.55, 0.30 and shows an average of 41 percent |
| Scenarios.CompanyNameRecognised | baocaocskh.py:14 | "Công ty Điện lực ABC" is a company row |
| Scenarios.UpperCaseCompanyNameRecognised | baocaocskh.py:31 | "  CÔNG TY  " is a company row despite case and padding |
| Scenarios.EveryPercentSignRemoved | baocaocskh.py:36 | "0.02%" becomes "0.02" and "1%2%" becomes "12" |
| Scenarios.CountsTruncateTowardZero | baocaocskh.py:18 | count cells 2.5, -2.5 and 7.0 convert to 2, -2 and 7 |

## Left out

- Reading the workbook (`pd.read_excel`, the sheet name, header rows 2 and 3, header whitespace; lines 10-11 and 28-29) is I/O. The input is the already-read rows.
- A missing column (`KeyError`) and an unreadable file are I/O and not modelled.
- `int(s)` and `float(s)` on text, and `str(x)` on floats, are Python internals. They are the `Parsers` parameter.
- `plot_bar` (lines 43-55) draws a chart with matplotlib and is not modelled.
- `add_table`, `export_word_app` and `export_word_time` (lines 57-191) build the Word document. This includes the `.2f` / `.0f` / `is_integer` number formatting, and is not modelled.
- Streamlit widgets, tabs, buttons and downloads are UI plumbing and are not modelled.
- The regex reading of `str.contains` is not modelled. The marker `công ty` has no regex metacharacters, so a plain substring search is the same.
- Cells.AsFloat: an empty adoption-rate cell is a conversion failure here, whereas pandas produces NaN; NaN propagation through mean and ranking is float semantics and is not modelled.
- Cells.PercentRate: an empty late-rate cell becomes the text `nan`, and Python's `float('nan')` succeeds with NaN, so `load_time_data` returns normally; `mean` then skips the NaN, and `nlargest` / `nsmallest` rank it last (older pandas versions drop it). Here the outcome is whatever `parseFloat("nan")` returns. If that is `None`, loading fails; if it is `Some(r)`, the row gets an ordinary rate `r`. Neither matches pandas.
- Summary.MeanRate: the NaN that pandas returns for an empty table is `None` here.
- Cells.AsInt: int64 overflow of counts and sums is not modelled; integers are unbounded.
- Text.Lower: upper-case letters outside ASCII, Latin-1 and the Vietnamese alphabet are left unchanged. Python's `str.lower` also differs in two context effects the model does not have: `'İ'` (U+0130) lowers to two characters, and `'Σ'` lowers to `ς` or `σ` depending on its position. None of these letters lowers to a letter of `công ty` (only C, G, N, T, Y and Ô do), so the classification is unaffected.
- The `if not df_total.empty` guard (lines 20 and 37) is not modelled separately. Converting an empty table is already a no-op.
