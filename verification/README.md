# OFD cheque-export report pipeline, modelled in Dafny

This project models the report pipeline of `backend/main.py` of the
ofdConverter service. The service takes a cheque table exported by a fiscal
data operator and turns it into one Excel workbook per tax regime. The
workbooks are packed into a ZIP archive. The model covers the three steps
between reading the table and writing the workbooks:

1. **Normalisation** (`process_dataframe`). The rows are sorted by
   'Дата/время'. On a return row ('Признак расчета' equal to
   'Возврат прихода'), each of the four payment columns ('Наличными',
   'Электронными', 'Предоплата (аванс)', 'Зачет предоплаты (аванса)') becomes
   −|v|, and an empty cell becomes 0. Every row then gets the total 'Итого':
   the sum of its four payment cells, with empty cells counted as 0.
2. **Daily totals** (`add_daily_totals`). The rows are grouped by calendar
   day, in ascending day order. Each day's rows are written, followed at once
   by one summary row. A summary row holds 'ИТОГО за день' in the sign
   column, the timestamp of the day's last row, and the column sums of the
   four payment columns and of 'Итого'. Then every row whose sign cell holds
   'ИТОГО за день' is filled grey.
3. **Request** (`process_excel`). A file name that does not end in `.xlsx`
   is refused with status 400. Otherwise the normalised table is filtered
   once per tax type, 'ПАТЕНТ' and then 'УСН'. A row is kept when its
   'Тип налогообложения' cell contains the tax type, ignoring case; an empty
   cell is never kept. Each non-empty partition becomes one workbook. If no
   partition has a row, the request fails with status 500.

Modules, one per step, plus shared definitions:

- `Wrappers` (`wrappers.dfy`): `Option` for an empty cell, `Result` for a request outcome.
- `Rows` (`rows.dfy`): the row datatype, the payment columns, the calendar day of a timestamp.
- `Normalise` (`normalise.dfy`): `process_dataframe`, modelled on an array. It uses an insertion sort, a column-by-column loop for the return rule, and a loop for the total.
- `DailyTotals` (`daily_totals.dfy`): `add_daily_totals`. A loop over the distinct days builds the table, and a second loop computes the fill flags.
- `Text` (`text.dfy`): `str.endswith` and the case-insensitive substring test.
- `Pipeline` (`pipeline.dfy`): `process_excel`. It loops over the tax types and collects one report per non-empty partition.

A timestamp is an integer count of seconds of naive wall-clock time. Its
calendar day is `stamp / 86400`. Amounts are integers in kopecks. An empty
cell (pandas' NaN) is `None`.

Points about `backend/main.py` worth stating outright:

- Summary rows are interleaved: each one follows its own day's rows
  (backend/main.py:64-74).
- The sort is pandas' default `sort_values`, which is not stable. The model
  promises only "sorted by timestamp and a permutation". It promises no order
  among rows with equal timestamps.
- The partitions can overlap. A tax cell that contains both 'ПАТЕНТ' and
  'УСН' puts its row into both workbooks (backend/main.py:122-123).
- No grand-total row is written.

## Model

| member | source | states |
|---|---|---|
| `Normalise.SortByStamp` | backend/main.py:46 | The array ends sorted by timestamp and holds a permutation of its former rows. |
| `Normalise.NormalRow` | backend/main.py:48-54 | On a return row each payment cell becomes −\|v\|, with an empty cell becoming 0. Other rows keep their cells, empty ones included. Timestamp, sign and tax type are unchanged. 'Итого' is the sum of the four new cells, with empty cells counted as 0. |
| `Normalise.ReturnAmountsNonPositive` | backend/main.py:49-51 | After normalisation, every payment cell of a return row holds a value, and that value is at most 0. |
| `Normalise.NormalAllPermutation` | backend/main.py:46-54 | Normalising rows one by one turns two permutations of a table into two permutations of the normalised table, so the order of sorting and normalising does not matter. |
| `Normalise.Normal` | backend/main.py:48-54 | What normalisation does to one row: it keeps the timestamp, the sign and the tax type, and its 'Итого' equals the sum of its own payment cells, empty cells counted as 0. |
| `Normalise.NegateReturns` | backend/main.py:49-51 | One pass of the column loop. Starting from rows with the sign rule applied to the first k columns, it leaves every row with the rule applied to column k as well, using the return mask computed once beforehand. |
| `Normalise.ProcessDataframe` | backend/main.py:42-56 | The result is sorted by timestamp. It is a permutation of the input rows, each normalised by the return rule and the total. |
| `DailyTotals.DayKeys` | backend/main.py:64 | The group keys are strictly ascending, and a day is a key exactly when some row falls on it. |
| `DailyTotals.DayRows` | backend/main.py:64-66 | Every row of a day's group falls on that day. The group is non-empty exactly when some row falls on that day. |
| `DailyTotals.AddDailyTotals` | backend/main.py:58-89 | The written table is each day's rows followed by that day's summary, days ascending. A row is filled exactly when its sign cell holds 'ИТОГО за день'. |
| `DailyTotals.Highlight` | backend/main.py:86-89 | One flag per row. A flag is set exactly when that row's sign cell holds the summary marker. |
| `DailyTotals.DaySummary` | backend/main.py:69-73 | The summary row of a day carries the marker and an empty tax cell. Each payment cell holds the sum of that column over the day's rows, and its 'Итого' holds the sum of the day's 'Итого' cells. Its timestamp is no earlier than any row of a sorted day. |
| `DailyTotals.SummaryOfDay` | backend/main.py:69-73 | A summary row falls on the day it sums and carries the marker. It has the timestamp of the day's last row, which is the latest timestamp of a sorted day. |
| `DailyTotals.SummaryTotalBalances` | backend/main.py:72 | If each row's 'Итого' is the sum of its payment cells, the summary's 'Итого' is the sum of its four payment sums. |
| `DailyTotals.SameDayExample` | backend/main.py:64-74 | Two rows of one day, paid 100 and −40, give those two rows and then one summary holding 60, with the later timestamp. |
| `DailyTotals.WithDailyTotals` | backend/main.py:64-77 | Every row of the written table lies on a day some input row falls on. The table is empty only when the input is. |
| `DailyTotals.Summaries` | backend/main.py:68-74 | One summary row per day, each carrying the marker. |
| `DailyTotals.EmitSplits` | backend/main.py:64-77 | The written table consists of exactly its detail rows and its summary rows. |
| `DailyTotals.DetailsArePermutation` | backend/main.py:64-77 | Taken together, the detail rows of the table are a permutation of the input, so no row is lost and none is written twice. The whole table is the input rows plus the day summaries, as a multiset. |
| `DailyTotals.WithDailyTotalsLength` | backend/main.py:64-77 | The table has n + d rows: n input rows and d distinct days. |
| `DailyTotals.MarkersOnePerDay` | backend/main.py:68-74 | The table has exactly one marked row per day more than the input has. So when no input row carries the marker, exactly the summaries are highlighted. |
| `DailyTotals.DaysAscend` | backend/main.py:64-77 | Calendar days never decrease along the table, summary rows included. |
| `DailyTotals.DetailsKeepOrder` | backend/main.py:64-66 | On input sorted by day, the detail rows come out as the input rows in their original order. |
| `Text.ContainsAt` | backend/main.py:123 | The substring test holds exactly when the tax type occurs at some position of the cell text. |
| `Text.IgnoresCase` | backend/main.py:123 | Lower-casing either the cell or the tax type does not change the test's answer. |
| `Text.EndsWith` | backend/main.py:100 | A name passes the extension check exactly when it is some string followed by `.xlsx`. |
| `Pipeline.HasTaxType` | backend/main.py:123 | A row matches a tax type exactly when its tax cell is non-empty and the folded tax type occurs at some position of the folded cell text. |
| `Pipeline.Select` | backend/main.py:123 | Every row of a partition matches its tax type, and a partition is no longer than the table. |
| `Pipeline.SelectMembers` | backend/main.py:123 | A row is in a partition exactly when it is in the table and its tax cell matches. A row with an empty tax cell is in no partition. A row matching both types is in both. |
| `Pipeline.SelectAppend` | backend/main.py:123 | Filtering distributes over concatenation, so a partition keeps the table's order. |
| `Pipeline.SelectSorted` | backend/main.py:123 | A partition of a timestamp-sorted table is itself sorted by timestamp. |
| `Pipeline.SelectEmpty` | backend/main.py:123-124 | A partition is empty exactly when no row of the table matches its tax type. |
| `Pipeline.PartitionSizes` | backend/main.py:122-128 | The partition sizes add up to the rows matching some tax type plus the rows matching both. |
| `Pipeline.HttpStatus` | backend/main.py:100-104 | Both failures give an error status. It is a client error (400) exactly for the wrong extension, and a server error (500) when no output file was made, which the handler at lines 187-190 returns. |
| `Pipeline.OutputName` | backend/main.py:125 | The output name ends with the uploaded file name, so an upload named `*.xlsx` gives an output named `*.xlsx`. |
| `Pipeline.Reports` | backend/main.py:122-128 | There are no more reports than tax types. Each report is for a tax type with a non-empty partition, and it is the workbook of that partition. `ReportsComplete` adds the converse, uniqueness and order. |
| `Pipeline.ProcessExcel` | backend/main.py:91-132 | A wrong extension gives the 400 failure before any work. Otherwise the table is normalised (sorted, a permutation of the normalised input), the reports are `Reports` of the normalised rows, and the 500 failure is returned when there is none. |
| `Pipeline.WriteReports` | backend/main.py:122-128 | The tax-type loop returns exactly `Reports` over ПАТЕНТ and УСН. By `ReportsComplete` that is one report per non-empty partition, ПАТЕНТ first, each holding its partition's daily-total table and fill flags. |
| `Pipeline.WriteReport` | backend/main.py:124-127 | The loop body builds the workbook of one non-empty partition: its name, its sheet, its daily-total table and its fill flags. |
| `Pipeline.ReportsUnrolled` | backend/main.py:122-128 | The two-pass loop gives the ПАТЕНТ report if its partition is non-empty, followed by the УСН report if its partition is non-empty. |
| `Pipeline.ReportsComplete` | backend/main.py:122-128 | Each tax type gets a report exactly when its partition is non-empty. No two reports share a tax type. When both are present, ПАТЕНТ comes first. |
| `Pipeline.BothTypesInBoth` | backend/main.py:122-127 | A row whose tax cell matches both tax types yields two reports, and the row appears in both tables. |
| `Pipeline.ReportsEmpty` | backend/main.py:122-132 | There are no reports exactly when both partitions are empty, and there are never more reports than tax types. |
| `Pipeline.NoOutputExactly` | backend/main.py:119-132 | The request fails for lack of output exactly when no input row's tax cell contains 'ПАТЕНТ' or 'УСН', ignoring case. |
| `Pipeline.NormalKeepsTax` | backend/main.py:48-54 | Normalisation does not change whether a row matches a tax type. |
| `Pipeline.OutputNamesDiffer` | backend/main.py:125 | The two tax types give different output names, so the archive never holds two entries with one name. |
| `Pipeline.ReportInOrder` | backend/main.py:119-127 | A report made from the normalised table lists its partition's rows in table order, days ascending. |

## Left out

- DailyTotals.AddDailyTotals: on an empty table the source raises, because `pd.concat` gets no groups (backend/main.py:77). The model returns an empty table there instead. The only caller skips empty partitions (backend/main.py:124), so that exception is never reached.
- Web layer: FastAPI routing, CORS, response headers and JSON bodies (backend/main.py:25-35, 91, 163-190). The model keeps only the two failures, as `Failure` values with `HttpStatus` 400 and 500.
- File system: the scratch directory, the upload copy, removal of files on success, on error and at shutdown (backend/main.py:37-40, 107-115, 153-160, 176-185, 192-200).
- Excel and ZIP I/O: reading the workbook, writing the sheets, creating the archive, and the checks that files and the archive exist (backend/main.py:80, 115, 126, 136-145). A `Report` stands for one workbook; its name is the archive entry name, and its fill flags stand for the grey cell style. The name is modelled as the file name itself: a client file name containing a path separator is not modelled.
- Clock: the timestamp in the file names comes from `datetime.now()`. It is the `clock` parameter of `ProcessExcel`.
- Date parsing: `pd.to_datetime` is not modelled (backend/main.py:45). Timestamps arrive as integers, so unparseable dates do not exist in the model. That also leaves out `groupby` dropping rows whose date is missing.
- Floating point: amounts are integers, so sums are exact and −0.0 does not arise.
- Columns the pipeline neither reads nor writes: they travel with their rows and are empty in summary rows.
- Malformed tables: a missing column or a non-numeric payment cell makes pandas raise, and the request fails with 500. Rows are typed here, so such tables cannot be built.
- Case folding: `Text.FoldChar` lower-cases only Latin capitals and basic Cyrillic capitals (U+0400 to U+042F). Python's case-insensitive regular expressions fold all of Unicode. Both tax types are plain words, so the regular-expression reading of the pattern is not modelled.
- Highlight column: the source tests the second cell of each written row, which holds 'Признак расчета' when that is the table's second column, as in the operator's export. The model tests the sign column directly.
- Logging throughout backend/main.py.
- The front-end files and next.config.js: they are UI, fetch calls and configuration.
- The nomenclature and taxcom report flavours, schema classification, prepayment proration and the e-invoice converter are not part of this model.
