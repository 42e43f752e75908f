# Shipment reconciliation: fuzzy record linkage and shipment classification

This project models the core of two batch scripts. The scripts reconcile a
sales/shipment ledger with a carrier waybill ("guía") registry. Names in the
two tables are free text, so rows cannot be joined on a key. For each ledger
row the scripts normalize the name (strip, then lower-case), scan every
waybill, keep the best similarity seen (replaced only on a strictly greater
score), and accept that waybill when the score reaches 60%.

- `analyze_files_1.py` is the single-sheet report. It labels each shipment
  row as Forza, Mensajero, Cargo or Unknown from its carrier code `CO` and its
  surcharge `Recargo 4%`. Then it links each row by its `Nombre Envio` name.
- `analyze_files.py` is the multi-month report. For each month of a month
  list it keeps the sales rows dated in that month. It links each one by its
  normalized `Cliente` and tags the row with the month. The months' rows are
  concatenated in list order.

Modules, one per file:

- `Cells` (`cells.dfy`): optional cells, dates, months, and pass-through values.
- `Normalization` (`normalization.dfy`): Python's `strip()` and `lower()`, and
  the "nan" text of an empty cell.
- `Classification` (`classification.dfy`): the four ordered shipment rules.
- `Matching` (`matching.dfy`): the shared scan, the threshold and the six
  match columns.
- `ShipmentReport` (`shipment_report.dfy`): the single-sheet report.
- `MonthlyReport` (`monthly_report.dfy`): the multi-month report.
- `Seqs` (`seqs.dfy`): generic map and flat-map over sequences, with their
  concatenation lemmas.

The similarity ratio (difflib's `SequenceMatcher.ratio`) is a parameter
`sim: (string, string) -> real`. Nothing is assumed about it except in
`Matching.MatchedScoreInRange`, which assumes it stays within [0, 1]. Scores
are `real`. The threshold is the constant `Matching.Threshold` = 0.6.

Two details of the scripts shape the model:

- An empty name cell is a key like any other. `str()` and `astype(str)` turn
  it into the text `"nan"`, which can match a waybill whose recipient cell is
  also empty.
- Both scripts guard the waybill columns with `if best_row is not None`. The
  guards are modelled, and `Matching.AcceptedHasRow` shows they never fire.

## Model

| member | source | states |
|---|---|---|
| `Normalization.LowerChar` | analyze_files_1.py:39 | lower-casing a character leaves no Basic Latin or Latin-1 upper-case letter; such a letter becomes its lower-case partner, at the fixed code-point offset from 'A' to 'a'; every other character stays as it is, so whitespace stays whitespace |
| `Normalization.Lower` | analyze_files_1.py:39 | `lower()`, restricted to Basic Latin and Latin-1 capitals, keeps the length and lower-cases every character in place |
| `Normalization.SkipLeft` | analyze_files_1.py:39 | the left scan of `strip()` passes over whitespace only and stops at the first non-space character or at the end |
| `Normalization.SkipRight` | analyze_files_1.py:39 | the right scan of `strip()` passes backwards over whitespace only and stops after the last non-space character or at its lower bound |
| `Normalization.Strip` | analyze_files.py:23 | `strip()` gives the slice of the input that only whitespace surrounds, and that slice neither starts nor ends with whitespace |
| `Normalization.Normalize` | analyze_files.py:34 | `strip().lower()` gives a normal string (no whitespace at either end, no upper-case letter); it is the lower-cased form of a slice of the input that only whitespace surrounds |
| `Normalization.NameKey` | analyze_files_1.py:39 | the key of a text cell is that text stripped and lower-cased, so it is normal and no longer than the text; an empty cell gives the key "nan" |
| `Normalization.TextOf` | analyze_files.py:34 | the text `astype(str)` gives a name cell, an empty cell giving "nan"; its contract is carried by `Normalization.NameKey` |
| `Normalization.NormalizeFixesNormal` | analyze_files_1.py:21 | normalization leaves a string unchanged if and only if the string is already normal |
| `Normalization.NormalizeIdempotent` | analyze_files_1.py:21 | normalizing an already normalized name changes nothing |
| `Classification.Classify` | analyze_files_1.py:24-32 | Forza iff `CO` is "F", whatever the surcharge; Mensajero iff `CO` is empty and the surcharge is empty or 0; Cargo iff `CO` is empty and the surcharge is positive; Unknown iff `CO` is present but not "F", or `CO` is empty and the surcharge is negative |
| `Matching.PrepareGuias` | analyze_files_1.py:21 | the recipient column is normalized once for the whole waybill table; the row count and every other column stay as they were |
| `Matching.ScanFrom` | analyze_files_1.py:44-51 | continuing the loop from any valid running state ends with the largest score, or 0 if none is positive, and with the first waybill that reaches it, or none |
| `Matching.Scan` | analyze_files_1.py:40-51 | from score 0 and no row, the scan ends holding max(0, every score), and the first waybill with that positive score and its recipient as `best_match` |
| `Matching.BestOfUnique` | analyze_files.py:39-50 | at most one end state fits that description, so the description pins down what the loop computes |
| `Matching.ScanCharacterised` | analyze_files.py:39-50 | the scan's result is that state and no other: equal to `b` iff `b` fits the description |
| `Matching.MaxScoreBounds` | analyze_files.py:41-49 | the reference maximum max(0, all scores) is at least 0 and at least every score, and it is 0 or one of the scores |
| `Matching.ScanScoreIsMax` | analyze_files_1.py:41-49 | the final `best_similarity` equals the reference maximum max(0, all scores) |
| `Matching.FirstMaxWins` | analyze_files_1.py:48-51 | when waybill k has the largest positive score and every earlier waybill scores less, the scan keeps waybill k, its recipient and its score |
| `Matching.TieGoesToFirst` | analyze_files.py:47-50 | of two waybills tied on the largest positive score, the later one is never kept, and the kept one comes no later than the earlier |
| `Matching.NoPositiveScoreKeepsNothing` | analyze_files_1.py:40-42 | when no score is positive, which includes an empty waybill table, the scan keeps score 0 and no row |
| `Matching.Link` | analyze_files.py:52-77 | the six match columns of one name; its contract is carried by `Matching.LinkCharacterised` and `Matching.LinkOnRawRows` |
| `Matching.LinkCharacterised` | analyze_files_1.py:53-76 | a row is matched iff some waybill scores at least 0.6; a match carries the recipient, score, date, both references and status of the first waybill with the largest score; otherwise all six match columns are empty |
| `Matching.LinkOnRawRows` | analyze_files.py:23-52 | on the raw waybill table, normalized once up front, a name is matched iff the similarity to some normalized recipient reaches 0.6 |
| `Matching.AcceptedHasRow` | analyze_files_1.py:60-63 | a score that reaches the threshold always comes with a kept row, so the `best_row is not None` guards never fire |
| `Matching.MatchedScoreInRange` | analyze_files_1.py:53-59 | with a similarity bounded by [0, 1], an accepted `Similitud` lies between 0.6 and 1 |
| `Matching.EmptyGuiasNoMatch` | analyze_files.py:43-52 | with no waybills, the match columns are all empty |
| `ShipmentReport.ClassifyAll` | analyze_files_1.py:34 | the classified sheet has one row per shipment, in order; each row is the shipment's own row plus its label |
| `ShipmentReport.CompareRow` | analyze_files_1.py:39-76 | the comparison row of one shipment; its contract is carried by `ShipmentReport.Compare` |
| `ShipmentReport.Compare` | analyze_files_1.py:37-76 | one comparison row per shipment, in order; it shows the raw `Fecha`, the raw `Nombre Envio` and the label, and its match columns come from linking the trimmed, lower-cased name |
| `ShipmentReport.CompareShipments` | analyze_files_1.py:21-76 | over raw waybill rows: one row per shipment; a shipment is matched iff some normalized recipient scores at least 0.6 against its normalized name; an unmatched row has all six match columns empty |
| `MonthlyReport.MonthSales` | analyze_files.py:33 | the month filter; its contract is carried by `MonthlyReport.MonthSalesSelects`, `MonthlyReport.MonthSalesAppend` and `MonthlyReport.MonthSalesCount` |
| `MonthlyReport.MonthSalesSelects` | analyze_files.py:33 | a sale is kept for month m iff its parsed date exists and falls in m; a sale whose date failed to parse is never kept |
| `MonthlyReport.MonthSalesAppend` | analyze_files.py:33 | filtering by month distributes over concatenation, so kept rows stay in source order |
| `MonthlyReport.MonthSalesCount` | analyze_files.py:33 | the month's kept rows number exactly the sales dated in that month |
| `MonthlyReport.SaleRow` | analyze_files.py:37-77 | the report row of one sale; its contract is carried by `MonthlyReport.ReportMonthSingle` |
| `MonthlyReport.ReportMonth` | analyze_files.py:33-77 | the rows of one month; its contract is carried by `MonthlyReport.ReportMonthRows`, `MonthlyReport.ReportMonthSingle` and `MonthlyReport.ReportMonthAppend` |
| `MonthlyReport.ReportMonthRows` | analyze_files.py:33-77 | a month yields one row per sale dated in it, in order; row i shows the month's sale i: its `Fecha Venta`, its `Cliente` stripped and lower-cased, and its `Envio`; each row is tagged with the month, its `Fecha Venta` falls in it, and its match columns come from linking that `Cliente` |
| `MonthlyReport.ReportMonthSingle` | analyze_files.py:37-77 | a single sale yields, in its own month, exactly one row with its date, normalized client, shipment and the match for that client, and no row in any other month |
| `MonthlyReport.ReportMonthAppend` | analyze_files.py:37 | within a month, rows follow the sales order: the rows for a split sales table are the two parts' rows joined |
| `MonthlyReport.ReportMonths` | analyze_files.py:31-77 | the months' rows joined in month-list order; its contract is carried by `MonthlyReport.ReportMonthsSingle` and `MonthlyReport.ReportMonthsAppend`, which fix it month by month, and by the other `ReportMonths…` lemmas below |
| `MonthlyReport.ReportMonthsTagged` | analyze_files.py:31-77 | every row's `Mes` is one of the requested months |
| `MonthlyReport.ReportMonthsReported` | analyze_files.py:31-77 | every row's `Fecha Venta` falls in its `Mes`, its `Cliente` is normalized, and its match columns come from linking that `Cliente` |
| `MonthlyReport.ReportMonthsFromSales` | analyze_files.py:31-57 | every row shows a sale of the table dated in the row's month: that sale's `Fecha Venta`, normalized `Cliente` and `Envio` |
| `MonthlyReport.ReportMonthsSingle` | analyze_files.py:31-37 | a one-month list yields exactly that month's rows: one per sale dated in it, in sales order |
| `MonthlyReport.ReportMonthsAppend` | analyze_files.py:31 | output order is month-list order: the report for two month lists joined is the two reports joined, so a repeated month repeats its rows |
| `MonthlyReport.ReportMonthsLength` | analyze_files.py:29-37 | the row count is the sum, over the month list, of each month's dated-sale count |
| `MonthlyReport.UndatedSaleDropped` | analyze_files.py:26-33 | a sale whose date failed to parse is kept in no month, so removing it leaves every month's sales unchanged |
| `MonthlyReport.UndatedSaleIgnored` | analyze_files.py:26-33 | adding or removing a sale whose date failed to parse leaves the report unchanged |
| `MonthlyReport.Report` | analyze_files.py:23-77 | the whole report over raw waybill rows; its contract is carried by `MonthlyReport.ReportOneMonth` and `MonthlyReport.ReportAppend`, which fix it month by month, and by `MonthlyReport.ReportRows` and `MonthlyReport.ReportRowsLinked` |
| `MonthlyReport.ReportRows` | analyze_files.py:23-77 | over raw waybill rows: the row count is the sum of the month counts; each row's `Mes` is requested, and the row shows a sale dated in that `Mes`, with its `Fecha Venta`, normalized `Cliente` and `Envio` |
| `MonthlyReport.ReportOneMonth` | analyze_files.py:23-77 | over raw waybill rows, a one-month report is exactly that month's rows against the normalized waybill table |
| `MonthlyReport.ReportAppend` | analyze_files.py:29-31 | over raw waybill rows, the report for two month lists joined is the two reports joined; with `ReportOneMonth` this fixes the whole report month by month |
| `MonthlyReport.ReportRowsLinked` | analyze_files.py:23-52 | over raw waybill rows: each row's `Cliente` is normalized, and the row is matched iff some normalized recipient scores at least 0.6 against it |
| `MonthlyReport.EmptyGuiasAllUnmatched` | analyze_files.py:39-77 | with an empty waybill table, every reported row has all its match columns empty |

## Left out

- Reading and writing the Excel workbooks: the sheet names, `ExcelWriter` and the output file. This is I/O. The inputs come in as sequences of rows, and the two output sheets of the single-sheet report come out as `ClassifyAll` and `CompareShipments`.
- Output column order. It is set by the dictionary keys when the workbook is written. The fields of the row datatypes group the same columns, but the six match columns sit in one shared record.
- Date parsing with `pd.to_datetime(errors='coerce')`. A sale's date arrives already parsed, as `Option<Date>`, with `None` for a failed parse. Time of day is dropped.
- Parsing the `YYYY-MM` month strings. Months arrive as `Period` values.
- The internals of difflib's `SequenceMatcher.ratio`, including the autojunk heuristic. The ratio is a caller-supplied function. Symmetry and self-similarity are not claimed, because the code never relies on them.
- Floating-point behaviour of scores. Scores are exact reals.
- LowerChar: only Basic Latin and Latin-1 capitals are lowered; other Unicode capitals such as 'Ł' or 'Ω', which Python's `lower()` lowers, are left unchanged.
- Lower: keeps the length, whereas Python's `lower()` turns 'İ' into two characters; other Unicode case mappings are not modelled.
- Normalize: `lower()` is modelled for Basic Latin and Latin-1 upper-case letters only. Other Unicode case mappings are not modelled, including those that change a string's length.
- NameKey: a name cell holding a number or a date is not modelled. `astype(str)` would render it as text. Name cells are text or empty.
- Classify: the surcharge is a number or empty. In the source, a text surcharge with an empty `CO` would raise a TypeError at the `> 0` comparison. A `CO` holding a number compares unequal to "F", so it behaves like any other non-"F" code.
- Columns of the shipment sheet that the report only echoes are not modelled. The classified sheet carries the modelled columns plus the label.
- The example invocations at the bottom of both scripts.
