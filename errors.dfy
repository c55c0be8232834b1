/** The ways fetching the index series, looking up a date and computing the
    adjustment can fail. */
module Errors {
  import opened Calendar

  datatype Error =
    | TableNotFound          // the page has no table with id `tbl_datos`
    | NoRecords              // no row parsed, so the series has no `fecha` column to sort by
    | NoValueUpTo(d: Date)   // no index entry is dated on or before `d`
    | DivisionByZero         // the earlier index value is zero
}
