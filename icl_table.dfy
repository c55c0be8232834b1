/** Turning the rows of the published index table into a date-sorted series of
    (`fecha`, `icl`) records. The HTTP request and the HTML parsing are not part
    of this model: a table arrives as the text of the `td` cells of each `tr`
    row, or as `None` when the page has no table with id `tbl_datos`. */
module IclTable {
  import opened Basics
  import opened Text
  import opened Decimal
  import opened Calendar
  import opened Errors

  /** One entry of the index series: a date and the index value published for it. */
  datatype Record = Record(fecha: Date, icl: real)

  /** The text of a value cell as handed to `float`: stripped, with each decimal
      comma turned into a period. */
  function ValueText(cell: string): (t: string)
    ensures ',' !in t && |t| <= |cell|
  {
    ReplaceComma(Strip(cell))
  }

  /** The record a table row yields, or `None` when the row has fewer than two
      cells or its first cell is not a date or its second not a number. Cells
      after the second are ignored. */
  function ParseRow(celdas: seq<string>): (r: Option<Record>)
    ensures |celdas| < 2 ==> r == None
    ensures r.Some? ==> ValidDate(r.value.fecha)
  {
    if |celdas| >= 2 then
      var fecha := ParseDate(Strip(celdas[0]));
      var valor := ParseFloat(ValueText(celdas[1]));
      if fecha.Some? && valor.Some? then Some(Record(fecha.value, valor.value)) else None
    else None
  }

  /** The records of the rows that parse, in table order: the list the row loop
      accumulates. */
  function ParsedRows(filas: seq<seq<string>>): (data: seq<Record>)
    ensures |data| <= |filas|
  {
    if filas == [] then []
    else
      var init := ParsedRows(filas[..|filas| - 1]);
      match ParseRow(filas[|filas| - 1])
      case Some(x) => init + [x]
      case None => init
  }

  /** The records of a table are the records of its parts, in order. */
  lemma {:induction false} ParsedRowsAppend(a: seq<seq<string>>, b: seq<seq<string>>)
    ensures ParsedRows(a + b) == ParsedRows(a) + ParsedRows(b)
  {
    if b == [] {
      assert a + b == a;
    } else {
      var b' := b[..|b| - 1];
      assert (a + b)[..|a + b| - 1] == a + b';
      assert (a + b)[|a + b| - 1] == b[|b| - 1];
      ParsedRowsAppend(a, b');
    }
  }

  lemma ParsedRowsSingle(row: seq<string>)
    ensures ParsedRows([row]) == if ParseRow(row).Some? then [ParseRow(row).value] else []
  {
    assert [row][..0] == [];
  }

  lemma SplitAt<T>(s: seq<T>, i: nat)
    requires i < |s|
    ensures s == s[..i] + [s[i]] + s[i + 1..]
  {
  }

  lemma ParsedRowsAround(pre: seq<seq<string>>, row: seq<string>, post: seq<seq<string>>)
    ensures ParsedRows(pre + [row] + post) == ParsedRows(pre) + ParsedRows([row]) + ParsedRows(post)
  {
    ParsedRowsAppend(pre + [row], post);
    ParsedRowsAppend(pre, [row]);
  }

  /** A row that yields no record (too few cells, a bad date or a bad number) is
      skipped: the table without it has exactly the same records. */
  lemma RowSkipped(filas: seq<seq<string>>, i: nat)
    requires i < |filas| && ParseRow(filas[i]) == None
    ensures ParsedRows(filas) == ParsedRows(filas[..i] + filas[i + 1..])
  {
    var pre, row, post := filas[..i], filas[i], filas[i + 1..];
    SplitAt(filas, i);
    ParsedRowsAround(pre, row, post);
    ParsedRowsSingle(row);
    ParsedRowsAppend(pre, post);
  }

  /** A row that yields a record contributes exactly that record, between the
      records of the rows before it and those of the rows after it. */
  lemma RowKept(filas: seq<seq<string>>, i: nat, x: Record)
    requires i < |filas| && ParseRow(filas[i]) == Some(x)
    ensures ParsedRows(filas) == ParsedRows(filas[..i]) + [x] + ParsedRows(filas[i + 1..])
  {
    var pre, row, post := filas[..i], filas[i], filas[i + 1..];
    SplitAt(filas, i);
    ParsedRowsAround(pre, row, post);
    ParsedRowsSingle(row);
  }

  /** A published date cell, whatever whitespace surrounds it, reads as its date. */
  lemma ParseDateCell(pre: string, d: Date, post: string)
    requires ValidDate(d) && 0 <= d.year <= 9999 && AllSpace(pre) && AllSpace(post)
    ensures ParseDate(Strip(pre + FormatDate(d) + post)) == Some(d)
  {
    StripPadded(pre, FormatDate(d), post);
    ParseFormatDate(d);
  }

  /** A published value cell with a decimal comma (or period), whatever whitespace
      surrounds it, reads as the number it denotes. */
  lemma ParseValueCell(pre: string, n: nat, k: nat, sep: char, post: string)
    requires (sep == ',' || sep == '.') && AllSpace(pre) && AllSpace(post)
    ensures ParseFloat(ValueText(pre + ShowFixed(n, k, sep) + post)) == Some(n as real / Pow10(k) as real)
  {
    StripPadded(pre, ShowFixed(n, k, sep), post);
    ReplaceCommaShowFixed(n, k, sep);
    ParseShowFixed(n, k);
  }

  /** A row as the index table publishes it, a day-first date and a value with a
      decimal comma (or period), whatever whitespace surrounds each cell and
      whatever cells follow, yields exactly that date and value. */
  lemma ParsePublishedRow(d: Date, n: nat, k: nat, sep: char, pads: seq<string>, rest: seq<string>)
    requires ValidDate(d) && 0 <= d.year <= 9999
    requires sep == ',' || sep == '.'
    requires |pads| == 4 && forall j :: 0 <= j < 4 ==> AllSpace(pads[j])
    ensures ParseRow([pads[0] + FormatDate(d) + pads[1], pads[2] + ShowFixed(n, k, sep) + pads[3]] + rest)
         == Some(Record(d, n as real / Pow10(k) as real))
  {
    var row := [pads[0] + FormatDate(d) + pads[1], pads[2] + ShowFixed(n, k, sep) + pads[3]] + rest;
    ParseDateCell(pads[0], d, pads[1]);
    ParseValueCell(pads[2], n, k, sep, pads[3]);
    assert row[0] == pads[0] + FormatDate(d) + pads[1];
    assert row[1] == pads[2] + ShowFixed(n, k, sep) + pads[3];
  }

  predicate SortedByDate(s: seq<Record>) {
    forall i, j :: 0 <= i < j < |s| ==> OnOrBefore(s[i].fecha, s[j].fecha)
  }

  lemma PrependSorted(y: Record, t: seq<Record>)
    requires SortedByDate(t)
    requires forall j :: 0 <= j < |t| ==> OnOrBefore(y.fecha, t[j].fecha)
    ensures SortedByDate([y] + t)
  {
    var r := [y] + t;
    forall i, j | 0 <= i < j < |r| ensures OnOrBefore(r[i].fecha, r[j].fecha) {
      assert r[j] == t[j - 1];
      if i > 0 {
        assert r[i] == t[i - 1];
      }
    }
  }

  /** A date no later than `x` and than every record of `s` is no later than any
      record of a rearrangement of `s` plus `x`. */
  lemma LowerBoundKept(y: Record, x: Record, s: seq<Record>, t: seq<Record>)
    requires OnOrBefore(y.fecha, x.fecha)
    requires forall j :: 0 <= j < |s| ==> OnOrBefore(y.fecha, s[j].fecha)
    requires multiset(t) == multiset(s) + multiset{x}
    ensures forall j :: 0 <= j < |t| ==> OnOrBefore(y.fecha, t[j].fecha)
  {
    forall j | 0 <= j < |t| ensures OnOrBefore(y.fecha, t[j].fecha) {
      assert t[j] in multiset(t);
      if t[j] != x {
        assert t[j] in multiset(s);
        var k :| 0 <= k < |s| && s[k] == t[j];
      }
    }
  }

  /** `x` inserted into a date-sorted sequence at a place that keeps it sorted. */
  function Insert(x: Record, s: seq<Record>): (r: seq<Record>)
    requires SortedByDate(s)
    ensures SortedByDate(r)
    ensures multiset(r) == multiset(s) + multiset{x}
  {
    if s == [] then [x]
    else if OnOrBefore(x.fecha, s[0].fecha) then
      assert forall j :: 0 <= j < |s| ==> OnOrBefore(x.fecha, s[j].fecha) by {
        forall j | 0 <= j < |s| ensures OnOrBefore(x.fecha, s[j].fecha) {
          if j > 0 {
            assert OnOrBefore(s[0].fecha, s[j].fecha);
          }
        }
      }
      PrependSorted(x, s);
      [x] + s
    else
      var t := Insert(x, s[1..]);
      assert s == [s[0]] + s[1..];
      LowerBoundKept(s[0], x, s[1..], t);
      PrependSorted(s[0], t);
      var r := [s[0]] + t;
      assert multiset(r) == multiset{s[0]} + multiset(t);
      r
  }

  /** The records ordered by date (pandas' `sort_values("fecha")`). Records that
      share a date may come out in any order. */
  function SortByDate(s: seq<Record>): (r: seq<Record>)
    ensures SortedByDate(r)
    ensures multiset(r) == multiset(s)
  {
    if s == [] then []
    else
      assert s == [s[0]] + s[1..];
      Insert(s[0], SortByDate(s[1..]))
  }

  /** Reading the table: the rows that parse, sorted by date. A missing table and a
      table where no row parses are both errors; the latter because pandas has no
      `fecha` column to sort an empty frame by. */
  method LoadSeries(tabla: Option<seq<seq<string>>>) returns (r: Result<seq<Record>, Error>)
    ensures tabla.None? ==> r == Failure(TableNotFound)
    ensures tabla.Some? && ParsedRows(tabla.value) == [] ==> r == Failure(NoRecords)
    ensures tabla.Some? && ParsedRows(tabla.value) != [] ==>
      r.Success? && SortedByDate(r.value) && multiset(r.value) == multiset(ParsedRows(tabla.value))
  {
    if tabla.None? {
      return Failure(TableNotFound);
    }
    var filas := tabla.value;
    var data: seq<Record> := [];
    for i := 0 to |filas|
      invariant data == ParsedRows(filas[..i])
    {
      match ParseRow(filas[i]) {
        case Some(x) => data := data + [x];
        case None =>
      }
      assert filas[..i + 1][..i] == filas[..i];
    }
    assert filas[..|filas|] == filas;
    if data == [] {
      return Failure(NoRecords);
    }
    r := Success(SortByDate(data));
  }
}
