# Popular-repository collector and charts, modelled in Dafny

The repository collects the 100 most-starred GitHub repositories and writes
two tables. The collector is `main.py`. It pages through a GraphQL search,
flattens each result node into a repository record and writes summary
statistics for five research questions. The chart script is `graficos.py`:
it aggregates the records by primary language and prepares box-plot data
from binned accepted-pull-request counts.

This project models the data logic of both scripts and proves its
properties:

- `wrappers.dfy` (module `Wrappers`): `Option`, which stands for Python's
  `None`.
- `statistics.dfy` (module `Statistics`): `calcular_estatisticas`. It
  returns the minimum, maximum, mean and median of a list, or all four
  absent for an empty list. The median is taken over an insertion-sorted
  copy of the list.
- `collector.dfy` (module `Collector`):
  - the per-node normalisation, with its null-language guard and its
    zero-issue guard;
  - the pagination loop of `main`, as an imperative method proved against
    a specification of the sequence of queries;
  - the five summary rows.
- `reporter.dfy` (module `Reporter`):
  - the language table of `coletar_dados`: group by language, count, sum,
    sort by count descending;
  - the pull-request intervals of `pd.cut`;
  - the top-star filter of `grafico_boxplot`;
  - the in-place addition of the two derived columns to the table, as a
    class.

The remote endpoint is a parameter of type `Option<string> -> Reply`: it
maps the cursor sent with a query to the reply received. Timestamps are
whole seconds since the epoch. The clock reading `now` is a parameter.

Two points about what the source does:

- `grafico_boxplot` keeps the records whose star count is one of the
  **first five rows'** star counts (`df['stars'].head(5)`, graficos.py:93).
  With rows sorted by stars, as the search query asks for, and no ties,
  these are the five highest star counts; with ties more rows are kept.
- The guard `total_issues > 0` (main.py:80) gives a closed-issue share of
  0 exactly when there are no issues.

## Model

| member | source | states |
|---|---|---|
| Statistics.Min | main.py:55 | the result is an element of the non-empty list and no element is smaller |
| Statistics.Max | main.py:56 | the result is an element of the non-empty list and no element is larger |
| Statistics.Mean | main.py:57 | `statistics.mean`: the sum over the length; MeanTimesLength and MeanBetween carry its facts |
| Statistics.MeanTimesLength | main.py:57 | the mean times the length of the list is its sum |
| Statistics.MeanBetween | main.py:55-57 | the mean of a non-empty list lies between its minimum and its maximum |
| Statistics.Insert | main.py:58 | inserting into an ascending list gives an ascending list with exactly one more occurrence of the new element; its head is the smaller of the new element and the old head |
| Statistics.SortAscending | main.py:58 | `sorted`: the result is ascending and a permutation (same multiset) of the input |
| Statistics.SortFixesAscending | main.py:58 | sorting an already ascending list returns it unchanged, so sorting is idempotent |
| Statistics.Middle | main.py:58 | the middle of a sorted list; MedianOdd and MedianEven carry its facts |
| Statistics.Median | main.py:58 | `statistics.median`: the middle of the sorted list; MedianOdd, MedianEven and MedianBetween carry its facts |
| Statistics.MedianOdd | main.py:58 | for odd length the median is the element at index length / 2 of the sorted list |
| Statistics.MedianEven | main.py:58 | for even length the median is the mean of the elements at indices length / 2 - 1 and length / 2 of the sorted list |
| Statistics.MedianBetween | main.py:55-58 | the median (middle element of the sorted list for odd length, mean of the two middle ones for even length) lies between minimum and maximum |
| Statistics.Summarize | main.py:51-59 | all four statistics are absent exactly for the empty list; otherwise all are present, min and max are elements bounding every element, the mean is Mean and the median is Median of the list, and min <= mean <= max and min <= median <= max |
| Statistics.SummarizeExample | main.py:51-59 | [1, 2, 3, 4] gives min 1, max 4, mean 2.5 and median 2.5 |
| Collector.DaysBetween | main.py:76-77 | `timedelta.days` of the elapsed time; DaysBetweenFloor carries its facts |
| Collector.DaysBetweenFloor | main.py:74-77 | the age in days is the floor of the elapsed seconds over 86400, and is non-negative for a past instant |
| Collector.PercentClosed | main.py:78-80 | the closed-issue share with its zero-issue guard; PercentClosedMeaning and PercentInRange carry its facts |
| Collector.PercentClosedMeaning | main.py:78-80 | the closed-issue share is exactly 0 without issues, and otherwise share * total == closed * 100 |
| Collector.PercentInRange | main.py:78-80 | with 0 <= closed <= total the share lies in [0, 100] |
| Collector.PercentExample | main.py:78-80 | 3 closed issues out of 10 give 30.0 |
| Collector.Normalize | main.py:70-93 | one node becomes one record; NormalizeFacts carries its facts |
| Collector.NormalizeFacts | main.py:70-93 | the record's language is absent exactly when the node has none and is otherwise the node's language name; name, owner, url, stars, pull requests and releases are copied; the ages are the floor day counts DaysBetween of the two timestamps, non-negative for past timestamps; the share is PercentClosed of the issue counts, 0 without issues and in [0, 100] for sane counts |
| Collector.NormalizeEdges | main.py:70-93 | one record per edge, in edge order, each the normalisation of its edge's node |
| Collector.AppendPage | main.py:70-93 | the inner loop appends exactly the page's records, one per edge in edge order, to those already held |
| Collector.LastQueryUnique | main.py:66-100 | at most one query is the first stopping query |
| Collector.RecordCount | main.py:70-95 | after any number of pages the running total equals the number of records held |
| Collector.RecordsPrefix | main.py:70-95 | records already held stay at the front: each later page only appends |
| Collector.RecordOfEdge | main.py:70-95 | the records are the in-order concatenation of the pages: edge e of page j becomes the record at position (edges of pages before j) + e |
| Collector.CollectedStops | main.py:63-100 | when the run succeeds, its last page reached 100 records or had no successor; every earlier page succeeded, had a successor and kept the total below 100; the record count is below 100 plus the last page's size (nothing trimmed) |
| Collector.CollectRepositories | main.py:61-100 | the loop sends the first query without a cursor and each later one with the previous page's end cursor; it ends at the first stopping query; it returns the failed query's status and body, or the records of every page fetched |
| Collector.Column | main.py:113-117 | a research question's column has one value per record, in record order, each the record's value for that question |
| Collector.Row | main.py:112-118 | a summary row keeps its question and holds `calcular_estatisticas` of its column (Summarize); it is empty exactly when the column is empty, and otherwise min <= mean <= max and min <= median <= max |
| Collector.SummaryTable | main.py:111-118 | five rows, with the five research questions in file order; row k holds the statistics of column k (ages, accepted pull requests, releases, days since update, closed-issue share); all rows are empty exactly when no record was collected |
| Reporter.NoRecordsNoPulls | graficos.py:26-29 | a language with no records has an accepted-pull-request sum of 0 |
| Reporter.LanguagesOf | graficos.py:26-29 | the group keys are distinct, and a language is a key exactly when some record has it; records without a language give no key |
| Reporter.GroupByLanguage | graficos.py:26-29 | each language appears in at most one row, a language has a row exactly when some record has it, and each row's count and sum are those of the records with its language |
| Reporter.RowsForAppendRecord | graficos.py:26-29 | one more record changes the totals over distinct languages by that record alone, and only if its language is among them |
| Reporter.GroupTotals | graficos.py:23-29 | the group counts add up to the number of records with a language, and the group sums to those records' pull requests; records with a null language fall into no group |
| Reporter.InsertRow | graficos.py:31 | inserting into a count-descending sequence gives a count-descending sequence with exactly one more occurrence of the row and totals grown by the row |
| Reporter.SortByCount | graficos.py:31 | `sort_values(ascending=False)`: count non-increasing, a permutation of the rows, totals unchanged |
| Reporter.LanguageTable | graficos.py:23-31 | `coletar_dados` result: rows ordered by count non-increasing; each language in exactly one row; a language has a row exactly when some record has it; each row's count and sum are its language's; counts add up to the records with a language |
| Reporter.Cut | graficos.py:96 | `pd.cut(right=False)`: a bin k means edges[k] <= x < edges[k + 1]; no bin means no interval holds x |
| Reporter.CutFinds | graficos.py:96 | with increasing edges the interval holding x is the one returned |
| Reporter.PullsBucket | graficos.py:95-96 | a count has an interval exactly when 0 <= p < 50000; interval k < 5 holds exactly the counts 10000 k <= p < 10000 (k + 1) |
| Reporter.BucketAgreesWithCut | graficos.py:95-96 | cutting p / 100 at the edges 0, 100, ..., 500 gives the same interval as the integer rule, for every integer p |
| Reporter.BucketExamples | graficos.py:95-96 | 15000 is in interval 1, 9999 in interval 0; 50000 and -1 are in none |
| Reporter.TopStars | graficos.py:93 | `head(5)`: the star counts of the first five records (all of them when fewer), in order |
| Reporter.KeepStars | graficos.py:102 | `isin`: every kept record is an input record whose stars are in the list, and every such input record is kept |
| Reporter.KeepStarsAppend | graficos.py:102 | filtering keeps the input order: filtering a concatenation concatenates the filtered parts |
| Reporter.KeepStarsAll | graficos.py:102 | records whose stars are all in the list are kept unchanged |
| Reporter.TopStarRecords | graficos.py:93-102 | keeps exactly the records whose stars equal one of the first five records' stars; the first five records come first, unchanged; ties can keep more than five |
| Reporter.BoxPlotData | graficos.py:91-103 | one point per kept record, in order, with that record's `pd.cut` interval and its stars |
| Reporter.PopularFrame.constructor | graficos.py:91 | the table holds the records, without derived columns |
| Reporter.PopularFrame.AddPullColumns | graficos.py:95-96 | adds, row by row, the count in hundreds and its `pd.cut` interval (equal to the integer rule); the rows themselves are unchanged |

## Left out

- HTTP transport and GraphQL (`run_query`, main.py:40-49): the endpoint is a function parameter. A status other than 200 raises an exception in the source, which ends the run. The model returns it as a `Failed` outcome with no records.
- The JSON shape is not modelled: a reply that lacks `data.search` is not checked, and pages are typed values.
- Clock and date parsing (main.py:74-77): timestamps are whole seconds since the epoch and `now` is one reading for the whole run. The source reads the clock twice per record.
- Statistics.Summarize: the mean and the median are exact reals. The source rounds them to two decimals on binary floats with `round(..., 2)`.
- Collector.NormalizeFacts: the closed-issue share is the exact real. The source rounds it to two decimals (main.py:92).
- Collector.CollectRepositories: requires a ghost query number at which the loop would stop. The source loop runs forever against an endpoint that never reports the end and never reaches 100 records, so the model covers only endpoints where the loop ends.
- CSV writing and reading (main.py:103-107 and 121-125; graficos.py:21, 32, 160-161): the chart steps work directly on the collector's records. The source writes the records through `repos[0].keys()`, which fails when nothing was collected. That file step is not part of this model.
- `print` logging is left out.
- Reporter.LanguageTable: pandas sorts group keys by name and then sorts rows by count with an unstable sort, so the order of rows with equal counts is unspecified. The model groups in first-appearance order and inserts ties before equal rows; its contract states only the non-increasing order.
- Reporter.Cut: `pd.cut` returns interval labels. The model returns the interval's index.
- Plotting and file saving are left out: `salvar_grafico`, `grafico_barras`, `grafico_dispersao` with its `stars / 1000` column, and the seaborn and matplotlib calls. The commented-out charts (graficos.py:48-153) are left out too.
- Configuration constants are left out: the token and the file names (main.py:7-9).
