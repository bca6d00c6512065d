# RFM segmentation, modelled in Dafny

This project models the batch RFM (Recency, Frequency, Monetary) customer
segmentation of `rfm-segmentatiton.py`. The script runs over the "Year
2010-2011" sheet of the Online Retail II data set. The model covers the
pipeline the script runs after loading:

1. **Cleaning** (`Cleaning`): `dropna` removes every row that has an empty
   cell. Then every row whose invoice number contains a capital `C` *anywhere*
   is removed (`str.contains("C")`).
2. **Enrichment** (`Cleaning.Enrich`): `TotalPrice = Quantity * Price`.
3. **Aggregation** (`Aggregation`):
   - One reference date for the whole table: midnight of the latest
     invoice's calendar day plus two days.
   - `groupby('Customer ID')` produces one row per customer, in ascending id
     order. Each row holds recency (whole days from the customer's latest
     invoice to the reference date), frequency (distinct invoice numbers) and
     monetary (sum of line totals).
   - Only rows with monetary > 0 are kept.
   - The float customer id is truncated to an integer.
4. **Scoring** (`Quantiles`, `Ranking`, `Scoring`):
   - `pd.qcut(…, 5)` bins each metric by quantiles. The edges are the 0, 1/5,
     …, 1 quantiles, linearly interpolated between order statistics. Bins are
     right-closed, and the lowest value falls in the first bin.
   - Recency gets the labels 5..1. Monetary gets the labels 1..5.
   - Frequency is first replaced by `rank(method="first")` and then binned
     with the labels 1..5.
   - The scores are joined into the string `RFM_SCORE` ("534"). That string
     read as an integer is `RFM_SCORE_`.
5. **Pipeline** (`Pipeline.Run`): the stages composed. Errors are values:
   - `NoTransactions` when nothing survives cleaning.
   - `BinEdgesNotUnique(metric)` when `qcut` meets coinciding edges. pandas
     raises `ValueError: Bin edges must be unique` here.

Representation choices:
- Timestamps are (day ordinal, microseconds since midnight). This makes
  `.date()` truncation and `timedelta.days`, which rounds down, exact
  (`Timestamps`).
- Quantities are integers. Prices, totals and quantile edges are exact `real`s.
- A cell that may be empty is an `Option`. A `Result` carries a stage's error.

Where the script and its surrounding descriptions disagree, the model follows
the code:
- The data set description (line 10) and the comment on line 48 describe
  cancellations as invoice numbers *starting* with "c"/"C". The code tests for
  an upper-case `C` at any position. `Cleaning.CancelledIsWiderThanPrefix`
  shows that a leading `C` is caught and so is an inner one ("53C101").
  A lower-case `c` is not caught.
- One might expect binning to be undefined whenever a metric has fewer than
  five distinct values. `qcut` fails only when two interpolated edges
  coincide:
  - `Quantiles.TwoValuesAreBinned`: the population [1, 2] is binned,
    as bins 1 and 5.
  - `Quantiles.RepeatedLowValueFails`: the population [1, 1, 2] is refused.
- Because of the reference date's two-day offset, recency is at least 1, not
  merely non-negative (`Aggregation.RecencyAtLeastOneDay`).

## Model

| member | source | states |
|---|---|---|
| Cleaning.DropMissing | rfm-segmentatiton.py:34 | the result holds exactly the complete rows, converted unchanged, and is no longer than the input |
| Cleaning.DropMissingConcat | rfm-segmentatiton.py:34 | dropping incomplete rows distributes over concatenation, so retained rows keep their relative order |
| Cleaning.ContainsOneChar | rfm-segmentatiton.py:49 | the substring test for the one-letter pattern "C" holds iff the letter occurs at some position |
| Cleaning.RemoveCancelled | rfm-segmentatiton.py:49 | a transaction is retained iff it was in the input and its invoice number has no capital C at any position |
| Cleaning.CancelledIsWiderThanPrefix | rfm-segmentatiton.py:48-49 | an invoice number with a leading C is removed, and so is one with an inner C |
| Cleaning.Clean | rfm-segmentatiton.py:34-49 | a transaction survives both cleaning steps iff it comes from a complete row and its invoice number has no C |
| Cleaning.CleanConcat | rfm-segmentatiton.py:34-49 | cleaning distributes over concatenation of the raw table, so order is kept |
| Cleaning.CleanSingleton | rfm-segmentatiton.py:34-49 | a single row survives, unchanged, exactly when it is complete and its invoice number has no C |
| Cleaning.TotalPrice | rfm-segmentatiton.py:52 | a line is worth something when quantity and price are positive, counts against the customer when a positive price meets a returned (negative) quantity, and is worth nothing when either factor is zero |
| Cleaning.Enrich | rfm-segmentatiton.py:52 | one line per transaction, same transaction, and every TotalPrice equals Quantity × Price exactly |
| Timestamps.NotAfterIsLexicographic | rfm-segmentatiton.py:66 | the clock order used for the maximum is the lexicographic order on (calendar day, time of day) |
| Timestamps.MidnightAfter | rfm-segmentatiton.py:66-67 | the result is at midnight and lies n days minus the time of day after the given instant |
| Timestamps.ElapsedDays | rfm-segmentatiton.py:70 | `timedelta.days` is the whole number of days d with d days ≤ the difference < d + 1 days, rounding down |
| Aggregation.Latest | rfm-segmentatiton.py:66 | the maximum invoice date is attained by some line and no line is later |
| Aggregation.ReferenceDate | rfm-segmentatiton.py:66-67 | the reference date is midnight of the latest invoice's calendar day plus 2 days, and lies at least one whole day after every line |
| Aggregation.ReferenceDateNearLatest | rfm-segmentatiton.py:66-67 | the latest invoice lies one or two whole days before the reference date, depending on its time of day |
| Aggregation.CustomerIds | rfm-segmentatiton.py:70 | the group keys are strictly increasing and are exactly the customer ids of the table |
| Aggregation.CustomerRows | rfm-segmentatiton.py:70 | a line belongs to a customer's group iff it is a line of the table carrying that customer id |
| Aggregation.GroupOf | rfm-segmentatiton.py:70-72 | the aggregated row of a customer of the table carries that customer's id and at least one invoice |
| Aggregation.AggregateRow | rfm-segmentatiton.py:70-72 | every row of the grouped table belongs to a customer of the table and is that customer's aggregate |
| Aggregation.Aggregate | rfm-segmentatiton.py:70-74 | one row per group key in strictly ascending customer-id order, each with frequency ≥ 1 |
| Aggregation.AggregateOnePerCustomer | rfm-segmentatiton.py:70-74 | the grouped table's ids are exactly the table's customer ids and there are as many rows as distinct ids |
| Aggregation.GroupRecency | rfm-segmentatiton.py:70 | a customer's recency equals the elapsed whole days to one of the customer's lines and is at most that of every other line of the customer |
| Aggregation.RecencyAtLeastOneDay | rfm-segmentatiton.py:66-70 | with the global reference date every customer's recency is ≥ 1 |
| Aggregation.GroupFrequencyBounds | rfm-segmentatiton.py:71 | a customer's frequency lies between 1 and its number of lines |
| Aggregation.GroupFrequency | rfm-segmentatiton.py:71 | a customer's frequency is the number of distinct invoice numbers among the table's lines of that customer |
| Aggregation.ImageCard | rfm-segmentatiton.py:71 | a group has at most as many distinct invoice numbers as lines |
| Aggregation.SumTotalsConcat | rfm-segmentatiton.py:72 | the total of a table is the total of its first part plus that of the rest, however it is split |
| Aggregation.MonetaryConserved | rfm-segmentatiton.py:72 | the monetary column sums to the sum of all line totals: grouping loses and invents no revenue |
| Aggregation.SelectPositive | rfm-segmentatiton.py:77 | a row is kept iff it was in the table and its monetary is > 0 |
| Aggregation.SelectPositiveKeepsOrder | rfm-segmentatiton.py:77 | the selection keeps the ascending customer-id order |
| Aggregation.PositiveCustomers | rfm-segmentatiton.py:70-77 | a customer appears after the selection iff it occurs in the cleaned table and its line totals sum to > 0 |
| Aggregation.TruncateToInt | rfm-segmentatiton.py:83 | float-to-int conversion truncates toward zero |
| Aggregation.ToMetrics | rfm-segmentatiton.py:83 | only the id column changes (truncated); recency, frequency and monetary are kept row by row |
| Aggregation.ToMetricsKeepsIntegralIds | rfm-segmentatiton.py:83 | whole-number float ids convert to the same integer and stay distinct and ordered |
| Quantiles.Sort | rfm-segmentatiton.py:102 | the population in ascending order, a permutation of the input |
| Quantiles.QuantileAt | rfm-segmentatiton.py:102 | the 0 quantile is the first value and the 1 quantile the last; on a sorted population every quantile lies between the minimum and maximum |
| Quantiles.InterpolateBetween | rfm-segmentatiton.py:102 | an interpolated quantile lies between the two order statistics it interpolates, strictly so when they differ |
| Quantiles.Edges | rfm-segmentatiton.py:102 | six edges, the outermost being the minimum and maximum of a sorted population |
| Quantiles.EdgesSorted | rfm-segmentatiton.py:102 | the edges of a sorted population are non-decreasing |
| Quantiles.EdgesStrictlyIncreasing | rfm-segmentatiton.py:106 | for at least two values without repeats the edges are strictly increasing |
| Quantiles.InterpolateMonotone | rfm-segmentatiton.py:102 | linear interpolation is monotone in the quantile position, strictly so without repeats |
| Quantiles.BinOf | rfm-segmentatiton.py:102 | on sorted edges, a value between the outer edges falls in the bin 1..5 whose right-closed interval (e[b-1], e[b]] holds it, the lowest value going to the first bin |
| Quantiles.CountBelowSorted | rfm-segmentatiton.py:102 | on sorted edges the edges below a value come first and all others lie at or above it |
| Quantiles.InBinUnique | rfm-segmentatiton.py:102 | on sorted edges no value lies in two bins |
| Quantiles.Label | rfm-segmentatiton.py:102-110 | a bin 1..5 gets a label 1..5 |
| Quantiles.LabelInvolution | rfm-segmentatiton.py:102-110 | labelling a label gives the bin back, for ascending and descending labels alike |
| Quantiles.BinnedUnique | rfm-segmentatiton.py:102-110 | at most one labelling puts every value in the bin its label names |
| Quantiles.QCut | rfm-segmentatiton.py:102-110 | fails iff the population is empty or edges coincide; otherwise one label 1..5 per value, each naming the bin of the sorted population's quantile edges that holds the value, ordered as the values are (ascending or descending labels) |
| Quantiles.QCutSucceedsWithoutRepeats | rfm-segmentatiton.py:106 | a population of at least two values without repeats is always binned |
| Quantiles.QCutFailsOnConstant | rfm-segmentatiton.py:102-110 | a population whose values are all equal, a single customer included, cannot be binned |
| Quantiles.TwoValuesAreBinned | rfm-segmentatiton.py:110 | the population [1, 2] is binned as [1, 5]: two distinct values suffice |
| Quantiles.RepeatedLowValueFails | rfm-segmentatiton.py:110 | the population [1, 1, 2] is refused because its two lowest edges coincide |
| Ranking.RankOf | rfm-segmentatiton.py:106 | each rank lies in 1..n |
| Ranking.RankOfOrdered | rfm-segmentatiton.py:106 | a smaller frequency, or an equal one at an earlier row, gets a smaller rank |
| Ranking.RankFirst | rfm-segmentatiton.py:106 | ranks lie in 1..n and follow (value, position) order strictly |
| Ranking.RankFirstIsPermutation | rfm-segmentatiton.py:106 | the ranks are a permutation of 1..n: no repeats and every rank used |
| Scoring.RecencyScores | rfm-segmentatiton.py:102 | fails iff there are no customers or the recency quantile edges coincide, hence always for one customer; otherwise each score is the descending label of the bin holding the customer's recency, in 1..5 and non-increasing in recency |
| Scoring.RecencyScoresSucceed | rfm-segmentatiton.py:102 | two or more customers with pairwise different recencies are always scored |
| Scoring.FrequencyRanks | rfm-segmentatiton.py:106 | one rank per customer, a whole number from 1 to the number of customers, no two alike |
| Scoring.FrequencyRanksOrdered | rfm-segmentatiton.py:106 | a lower frequency, or an equal one at an earlier row, never gets a higher rank |
| Scoring.FrequencyScores | rfm-segmentatiton.py:106 | defined iff there are at least two customers; each score is the ascending label of the bin of the frequency ranks holding the customer's rank, in 1..5 and non-decreasing in frequency with ties ordered by row |
| Scoring.MonetaryScores | rfm-segmentatiton.py:110 | fails iff there are no customers or the monetary quantile edges coincide, hence always for one customer; otherwise each score is the ascending label of the bin holding the customer's monetary value, in 1..5 and non-decreasing in monetary |
| Scoring.MonetaryScoresSucceed | rfm-segmentatiton.py:110 | two or more customers with pairwise different monetary values are always scored |
| Scoring.Code | rfm-segmentatiton.py:114-116 | RFM_SCORE is three characters, each a digit 1 to 5 |
| Scoring.DecimalValue | rfm-segmentatiton.py:121 | a string of k decimal digits reads as an integer below 10^k |
| Scoring.CodeValue | rfm-segmentatiton.py:119-121 | RFM_SCORE read as an integer equals 100·r + 10·f + m and lies in 111..555 |
| Scoring.ParseCodeRoundTrip | rfm-segmentatiton.py:114-116 | parsing RFM_SCORE recovers the recency, frequency and monetary scores in that order |
| Scoring.CodeRoundTrip | rfm-segmentatiton.py:114-116 | every string that parses is the code of the scores it parses to |
| Scoring.MakeSegment | rfm-segmentatiton.py:114-121 | a scored row's code is three digits 1..5 that parse back to its scores, and its value is 100·r + 10·f + m |
| Scoring.ScoreTable | rfm-segmentatiton.py:102-121 | fails with Recency iff recency cannot be binned, with Monetary iff recency can but monetary cannot, never with Frequency, and succeeds iff both can; on success every row keeps its metrics, carries exactly the three binned scores of its position, its code agrees with them, and the scores are ordered as the metrics |
| Scoring.Combine | rfm-segmentatiton.py:114-121 | one scored row per customer, keeping its metrics and the given scores, with code and integer value agreeing with the scores |
| Scoring.ScoreTableSucceeds | rfm-segmentatiton.py:102-110 | a table of two or more customers, no two sharing a recency or a monetary value, is always scored |
| Pipeline.RfmTable | rfm-segmentatiton.py:66-83 | every row of the rfm table has recency ≥ 1, frequency ≥ 1 and monetary > 0 |
| Pipeline.ScoredRowsWellScored | rfm-segmentatiton.py:66-121 | a successfully scored rfm table has at least two rows, each with recency ≥ 1, frequency ≥ 1, monetary > 0 and a code that agrees with its scores |
| Pipeline.ScoreLines | rfm-segmentatiton.py:66-121 | succeeds iff the rfm table can be scored, and otherwise fails with BinEdgesNotUnique naming the metric that could not be binned; a success has at least two rows, each well scored |
| Pipeline.Run | rfm-segmentatiton.py:34-121 | fails with NoTransactions iff nothing survives cleaning, with BinEdgesNotUnique(m) iff transactions remain but scoring stops at metric m, and succeeds iff transactions remain and the rfm table can be scored; a successful run's rows satisfy the output guarantees |
| Pipeline.RunSucceeds | rfm-segmentatiton.py:34-121 | a run succeeds when cleaning leaves transactions and the rfm table has two or more customers, no two sharing a recency or a monetary value |
| Scenarios.CustomerOf2011 | rfm-segmentatiton.py:66-74 | customer 17850 with 6, 6 and 8 units at 2.55 on 2011-01-01, with a last invoice on 2011-12-09, gets the reference date 2011-12-11 and the row (344, 3, 51.0) |

## Left out

- Loading the Excel sheet (line 4) is file I/O. The model starts from a sequence of rows.
- Descriptive printing and exploratory expressions are left out: lines 22-46,
  including the top-five-products query, and lines 103, 107, 111, 122 and 124.
  Their results are discarded.
- Plotting (lines 86-97 and 126-145) is presentation only.
- IEEE floating point is not modelled. Quantity × Price, the sums, the
  `linspace` quantile fractions and the interpolation are exact rationals.
  Rounding effects of the float computation are not modelled.
- Invoice numbers are strings. In the sheet, uncancelled invoice numbers are
  numeric cells. For those, `str.contains` yields NaN, and `na=False` keeps the
  row. A numeric cell is modelled by its digit string, which has no `C` and is
  also kept.
- An empty cleaned table is an explicit `NoTransactions` error. The script
  would take the maximum of an empty column (NaT), and scoring an empty
  population fails in `qcut` in any case.
- Time resolution is microseconds (Python `datetime`), not pandas
  nanoseconds. Only the day boundary matters to the result.
- Aggregation.ToMetrics: integer ids stay distinct only when the float ids
  have no fractional part (`ToMetricsKeepsIntegralIds`). Two float ids with
  the same integer part would share an integer id, as in the script.
- The even spread of customers across the five bins is not stated as a
  property, so no share-of-population bound is proved.
- Re-running gives the same table because `Pipeline.Run` is a pure function.
  No separate lemma states this.
