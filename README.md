# ICL rent calculator — a Dafny model

This project models the core of a small calculator that updates a rent by the
ICL, the daily "Índice para Contratos de Locación" published by Argentina's
central bank (BCRA). The calculator works in three steps:

1. It reads the bank's HTML table `tbl_datos` into a date-sorted series of
   `(fecha, icl)` records. Each `tr` row with at least two `td` cells gives a
   day-first date and a value written with a decimal comma. A row that does not
   parse is skipped.
2. It looks up the index value that applies on a date. This is the value of the
   last entry dated on or before that date.
3. It computes the rise from the values at the previous and at the new
   adjustment dates: the percentage rise, the difference and the new rent.

Modules, one per file:

- `Basics`: `Option` and `Result`.
- `Errors`: the failures the calculator can report.
- `Text`: Python's `str.strip`, the comma-to-period replacement, and decimal digits.
- `Decimal`: Python's `float()` on plain decimal text. Its partner is a fixed-point formatter, so the two form a round trip.
- `Calendar`: dates, their order, and the `DD/MM/YYYY` text with its parser.
- `IclTable`: row parsing, the row loop as a method, and the sort.
- `Resolver`: the date-to-value lookup.
- `Adjustment`: the update formulas and the button handler.
- `Scenarios`: worked examples on concrete tables, dates and amounts.

The row loop of `cargar_icl_desde_html` appends to a list step by step. It is
therefore the method `IclTable.LoadSeries`, whose loop invariant ties the list
to the specification function `IclTable.ParsedRows`. Everything else in the
core computes values, so it is modelled as functions and lemmas.

## Model

| member | source | states |
|---|---|---|
| IclTable.LoadSeries | app.py:25-44 | a missing table fails with `TableNotFound`; a table where no row parses fails with `NoRecords`; otherwise the result is sorted by date and is a permutation of the records of the rows that parse |
| IclTable.ParseRow | app.py:32-41 | a row with fewer than two cells yields nothing; a record it yields carries a real calendar date (see the `IclTable.ParseRow` line under Left out for `NaT`) |
| IclTable.ValueText | app.py:35 | the text handed to `float` has no comma left and is no longer than the cell |
| IclTable.ParsedRows | app.py:30-41 | the loop keeps at most one record per row |
| IclTable.ParsedRowsAppend | app.py:31-41 | the records of two tables joined are the records of the first followed by those of the second |
| IclTable.RowSkipped | app.py:36-41 | a row that fails to parse can be removed without changing the records |
| IclTable.RowKept | app.py:36-39 | a row that parses contributes exactly its record, between the records of the rows before and after it |
| IclTable.ParseDateCell | app.py:34-37 | a date cell in `DD/MM/YYYY` form, with any whitespace around it, reads as its date |
| IclTable.ParseValueCell | app.py:35-38 | a value cell with a decimal comma or period, with any whitespace around it, reads as exactly n/10^k in the model's exact arithmetic |
| IclTable.ParsePublishedRow | app.py:32-39 | a row as the bank publishes it, whatever cells follow, yields exactly its date and value |
| IclTable.Insert | app.py:43 | inserting into a sorted series keeps it sorted and adds exactly one record |
| IclTable.SortByDate | app.py:43 | the result is sorted by date and is a permutation of the input |
| Resolver.LastIndexUpTo | app.py:48-51 | the position of the last entry dated on or before the query date, or -1 when there is none |
| Resolver.UpTo | app.py:48-51 | the filtered entries are empty exactly when no entry is on or before the date; every entry kept is an entry of the series dated on or before the date, every such entry is kept, and the last one kept is the last such entry of the series |
| Resolver.ValueAt | app.py:46-52 | fails with `NoValueUpTo(d)` exactly when every entry is later than `d`; otherwise returns the value of the last entry dated on or before `d` |
| Resolver.ValueAtBetween | app.py:46-52 | on a sorted series, every date from one entry's date up to the next entry's date gets that entry's value |
| Resolver.ValueAtExactDate | app.py:47 | with strictly increasing dates, an exact date gets its own value |
| Resolver.ValueAtBeforeFirst | app.py:49-50 | on a sorted series, a date before the first entry fails |
| Resolver.ValueAtThreeDates | app.py:46-52 | with entries on D1 < D2 < D3, every date in [D2, D3) gets the D2 value and every date before D1 fails |
| Adjustment.Adjust | app.py:80-82 | fails with `DivisionByZero` exactly when the earlier value is 0; otherwise new rent = base × new / old (the formula at app.py:94), difference = new rent − base, new rent = base × (1 + rise/100), the rise satisfies rise × old = 100 × (new − old), so it depends on the index values alone and is 0 exactly when they are equal |
| Adjustment.AdjustUnchanged | app.py:80-82 | an unchanged index gives a zero rise, a zero difference and the same rent |
| Adjustment.AdjustMonotone | app.py:80-82 | with positive values and a positive rent, a rising index raises the rent and a falling index lowers it |
| Adjustment.Calculate | app.py:76-82 | the earlier date is looked up first and its failure takes precedence; when both lookups succeed the result is exactly `Adjust` of the base and the two values (so its only failure is `DivisionByZero`); on success both values are the resolver's values and the earlier one is non-zero |
| Adjustment.CalculateNewRent | app.py:77-82 | a successful calculation gives new rent = base × new / old, with the two values the resolver returned |
| Text.Strip | app.py:34-35 | the result is a slice of the input with only whitespace removed at either end, and it has no whitespace at either end |
| Text.StripPadded | app.py:34-35 | stripping text padded with whitespace gives back the text, when that text does not start or end with whitespace |
| Text.ReplaceComma | app.py:35 | every comma becomes a period and every other character is kept |
| Decimal.ParseFloat | app.py:38 | accepted text is not empty, and its value is non-negative unless it starts with `-` |
| Decimal.FloatSyntax | app.py:38 | accepted text has no comma, only digits and at most one period after an optional sign |
| Decimal.UnsignedSyntax | app.py:38 | unsigned text that is accepted has only digits and at most one period, and at least one digit |
| Decimal.ParseShowFixed | app.py:38 | fixed-point text for n and k reads back as exactly n/10^k in the model's exact arithmetic |
| Decimal.ReplaceCommaShowFixed | app.py:35 | the comma replacement turns a decimal comma into the decimal period |
| Decimal.ParseNegated | app.py:38 | a leading minus sign negates the value of accepted unsigned text (starting with a digit or a period) |
| Calendar.ParseDate | app.py:37 | an accepted date is a real calendar date whose `DD/MM/YYYY` text is the input |
| Calendar.ParseFormatDate | app.py:37 | every date with a four-digit year reads back from its own text |
| Scenarios.CommaValue | app.py:35-38 | the cell `" 10,5 "` reads as 10.5 |
| Scenarios.FirstOfMay | app.py:34-37 | the cell `"01/05/2025"` reads as 1 May 2025 |
| Scenarios.NotADate | app.py:36-41 | a row whose date cell is `"no es fecha"` yields nothing |
| Scenarios.TableWithRepeatedDate | app.py:29-41 | a header row, a comma row, a bad row and a second row for the same date give the two records for 1 May 2025, in table order |
| Scenarios.ThreeMonths | app.py:46-52 | with entries on 1 May, 1 June and 1 July, 15 June and 1 June get the June value and 30 April fails |
| Scenarios.DefaultRent | app.py:80-82 | a rent of 429500 with values 450 and 495 gives a 10% rise, a difference of 42950 and a new rent of 472450 |

## Left out

- Fetching the page: the HTTP request, its timeout, `raise_for_status` and the BeautifulSoup parsing are I/O. A table arrives as the text of the `td` cells of each `tr` row. A page without `tbl_datos` arrives as `None`.
- The `st.cache_data` six-hour cache: it is process state with a clock, and it does not change what is computed.
- The Streamlit form: the inputs, the default new date from `relativedelta(months=+meses)`, the result table, the two-decimal `round`, the messages and the `except` that shows an error. Every error the core can raise is a `Failure` value here.
- Adjustment.Adjust: it computes on exact reals, not on IEEE doubles. The formulas `base × new / old` and `base + base × (new − old) / old` agree exactly here, but may differ in the last bit in Python.
- Decimal.ParseFloat: it accepts only an optional sign, ASCII digits and at most one period. `float` also accepts exponents, `inf`, `nan`, underscores between digits and non-ASCII Unicode decimal digits (such as Arabic-Indic digits). The table does not publish values in those forms. The model also reads the exact decimal value, where `float` rounds to the nearest double (`float("10.1")` is not exactly 10.1) and gives `inf` for digit strings beyond about 1.8e308.
- Calendar.ParseDate: it accepts only zero-padded `DD/MM/YYYY` with a year from 0 to 9999. `pd.to_datetime(..., dayfirst=True)` also guesses other formats, such as `1/5/2025` or ISO text. With `dayfirst=True` pandas still falls back to month-first when the day-first reading is impossible, so `01/13/2025` becomes 13 January 2025; the model rejects that text. pandas also rejects dates outside its Timestamp range (years 1677 to 2262); the model does not.
- IclTable.ParseRow: it drops a row whose date cell is empty (after stripping) or reads `nan` or `NaT`. `pd.to_datetime` returns `NaT` for those without raising, and `NaT.date()` is `NaT`, so the source keeps such a row as a record with a missing date when its value parses. The model's `Date` has no missing value. Such a record would be sorted last and never pass the `<= d` filter, so the lookup results are the same, except that a table whose only parsing rows have a missing date gives `NoRecords` here and a series of `NaT` rows in the source.
- IclTable.SortByDate: pandas' default quicksort is not stable, so the model does not fix the order of records that share a date. It promises only sortedness and a permutation.
- The code does not remove records with a repeated date. Two rows for the same date both stay in the series, and the resolver then takes whichever of them the sort put last.
- The code does not drop zero or negative index values.
- The code has no bounded look-back: the resolver searches back without limit.
- The code has no spreadsheet fallback sources. Only the HTML table is read.
- Zero values: a zero index value at the earlier date divides by zero in Python. The model reports this as `DivisionByZero`.
