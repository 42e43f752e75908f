/**
 Spreadsheet cells as the two reconciliation scripts see them once a workbook
 has been read into memory. Reading the workbooks is not part of this model;
 these types describe what the reader hands over.
 */
module Cells {

  /** An optional value. `None` stands for an empty (NaN) spreadsheet cell. */
  datatype Option<+T> = None | Some(value: T)

  /** The calendar part of a parsed timestamp; the time of day plays no part. */
  datatype Date = Date(year: int, month: int, day: int)

  /** A calendar month, written `YYYY-MM` in the month lists of the multi-month report. */
  datatype Period = Period(year: int, month: int)

  /** The month a date falls in (pandas' `to_period('M')`). */
  function PeriodOf(d: Date): Period {
    Period(d.year, d.month)
  }

  /** A non-empty cell value that the scripts copy through without looking at it. */
  datatype Value = Text(text: string) | Number(number: real) | Stamp(date: Date)

  /** A pass-through cell: empty, or holding a value. */
  type Cell = Option<Value>
}
