/** Concrete cases worked through the model: a published table with a header
    row, a malformed row and a repeated date; the three-date lookup; and the
    default figures of the calculator form. */
module Scenarios {
  import opened Basics
  import opened Text
  import opened Decimal
  import opened Calendar
  import opened Errors
  import opened IclTable
  import opened Resolver
  import opened Adjustment

  lemma OneDecimal(n: nat, v: real)
    requires v == n as real / 10.0
    ensures v == n as real / Pow10(1) as real
  {
    assert Pow10(1) == 10;
  }

  lemma OneDecimalText(n: nat, sep: char)
    ensures ShowFixed(n, 1, sep) == NatToDigits(n / 10) + [sep] + [DigitChar(n % 10)]
  {
    assert Pow10(1) == 10;
    assert PadDigits(n % 10, 1) == [DigitChar(n % 10)];
  }

  lemma CommaText()
    ensures " " + ShowFixed(105, 1, ',') + " " == " 10,5 "
  {
    OneDecimalText(105, ',');
    assert NatToDigits(10) == "10";
  }

  lemma PeriodText()
    ensures "" + ShowFixed(110, 1, '.') + "" == "11.0"
  {
    OneDecimalText(110, '.');
    assert NatToDigits(11) == "11";
  }

  lemma PaddedValue(pre: string, n: nat, sep: char, post: string, v: real)
    requires (sep == ',' || sep == '.') && AllSpace(pre) && AllSpace(post)
    requires v == n as real / 10.0
    ensures ParseFloat(ValueText(pre + ShowFixed(n, 1, sep) + post)) == Some(v)
  {
    ParseValueCell(pre, n, 1, sep, post);
    OneDecimal(n, v);
  }

  /** The value cell `" 10,5 "` reads as 10.5. */
  lemma CommaValue()
    ensures ParseFloat(ValueText(" 10,5 ")) == Some(10.5)
  {
    assert AllSpace(" ");
    PaddedValue(" ", 105, ',', " ", 10.5);
    CommaText();
  }

  lemma PeriodValue()
    ensures ParseFloat(ValueText("11.0")) == Some(11.0)
  {
    assert AllSpace("");
    PaddedValue("", 110, '.', "", 11.0);
    PeriodText();
  }

  lemma TwoDigits(n: nat)
    requires n < 10
    ensures PadDigits(n, 2) == ['0', DigitChar(n)]
  {
  }

  lemma PadStep(m: nat, k: nat, p: string, c: char)
    requires m < Pow10(k + 1) && PadDigits(m / 10, k) == p && c == DigitChar(m % 10)
    ensures PadDigits(m, k + 1) == p + [c]
  {
  }

  lemma Year2025()
    ensures PadDigits(2025, 4) == "2025"
  {
    assert Pow10(4) == 10000;
    PadStep(2, 0, "", '2');
    PadStep(20, 1, "2", '0');
    PadStep(202, 2, "20", '2');
    PadStep(2025, 3, "202", '5');
  }

  lemma FirstOfMay()
    ensures ParseDate(Strip("01/05/2025")) == Some(Date(2025, 5, 1))
  {
    var d := Date(2025, 5, 1);
    TwoDigits(1);
    TwoDigits(5);
    Year2025();
    assert FormatDate(d) == "01/05/2025";
    assert AllSpace("");
    ParseDateCell("", d, "");
    assert "" + FormatDate(d) + "" == "01/05/2025";
  }

  lemma ParseRowOf(row: seq<string>, d: Date, v: real)
    requires |row| >= 2
    requires ParseDate(Strip(row[0])) == Some(d) && ParseFloat(ValueText(row[1])) == Some(v)
    ensures ParseRow(row) == Some(Record(d, v))
  {
  }

  lemma FourParts<T>(a: T, b: T, c: T, d: T)
    ensures [a] + [b] + [c] + [d] == [a, b, c, d]
  {
  }

  lemma ParsedFourRows(r0: seq<string>, r1: seq<string>, r2: seq<string>, r3: seq<string>)
    ensures ParsedRows([r0, r1, r2, r3])
         == ParsedRows([r0]) + ParsedRows([r1]) + ParsedRows([r2]) + ParsedRows([r3])
  {
    ParsedRowsAppend([r0], [r1]);
    ParsedRowsAppend([r0] + [r1], [r2]);
    ParsedRowsAppend([r0] + [r1] + [r2], [r3]);
    FourParts(r0, r1, r2, r3);
  }

  lemma NotADate()
    ensures ParseRow(["no es fecha", "20"]) == None
  {
    var s := "no es fecha";
    assert AllSpace("") && s[0] == 'n' && s[|s| - 1] == 'a';
    StripPadded("", s, "");
    assert "" + s + "" == s;
  }

  lemma TwoOfFour(r0: seq<string>, r1: seq<string>, r2: seq<string>, r3: seq<string>, x: Record, y: Record)
    requires ParseRow(r0) == None && ParseRow(r1) == Some(x) && ParseRow(r2) == None && ParseRow(r3) == Some(y)
    ensures ParsedRows([r0, r1, r2, r3]) == [x, y]
  {
    ParsedRowsSingle(r0);
    ParsedRowsSingle(r1);
    ParsedRowsSingle(r2);
    ParsedRowsSingle(r3);
    ParsedFourRows(r0, r1, r2, r3);
  }

  /** A header row (no `td` cells), a row with a decimal comma, a row whose date
      does not parse and a second row for the same date: the header and the bad
      row are skipped, both rows for 1 May 2025 are kept, in table order. */
  lemma TableWithRepeatedDate()
    ensures ParsedRows([[], ["01/05/2025", " 10,5 "], ["no es fecha", "20"], ["01/05/2025", "11.0", "x"]])
         == [Record(Date(2025, 5, 1), 10.5), Record(Date(2025, 5, 1), 11.0)]
  {
    var d := Date(2025, 5, 1);
    FirstOfMay();
    CommaValue();
    PeriodValue();
    ParseRowOf(["01/05/2025", " 10,5 "], d, 10.5);
    ParseRowOf(["01/05/2025", "11.0", "x"], d, 11.0);
    NotADate();
    TwoOfFour([], ["01/05/2025", " 10,5 "], ["no es fecha", "20"], ["01/05/2025", "11.0", "x"],
      Record(d, 10.5), Record(d, 11.0));
  }

  /** Entries on 1 May, 1 June and 1 July 2025: 15 June gets the June value,
      1 June itself too, and 30 April fails. */
  lemma ThreeMonths(a: real, b: real, c: real)
    ensures var s := [Record(Date(2025, 5, 1), a), Record(Date(2025, 6, 1), b), Record(Date(2025, 7, 1), c)];
      ValueAt(s, Date(2025, 6, 15)) == Success(b) &&
      ValueAt(s, Date(2025, 6, 1)) == Success(b) &&
      ValueAt(s, Date(2025, 4, 30)) == Failure(NoValueUpTo(Date(2025, 4, 30)))
  {
    var e1, e2, e3 := Record(Date(2025, 5, 1), a), Record(Date(2025, 6, 1), b), Record(Date(2025, 7, 1), c);
    ValueAtThreeDates(e1, e2, e3, Date(2025, 6, 15));
    ValueAtThreeDates(e1, e2, e3, Date(2025, 6, 1));
    ValueAtThreeDates(e1, e2, e3, Date(2025, 4, 30));
  }

  /** The form's default rent of 429500 with index values 450 and 495: a 10% rise,
      a difference of 42950 and a new rent of 472450. */
  lemma DefaultRent()
    ensures Adjust(429500.0, 450.0, 495.0) == Success(Adjustment(450.0, 495.0, 10.0, 42950.0, 472450.0))
  {
  }
}
