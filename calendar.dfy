/** Calendar dates, their order, and the day-first `DD/MM/YYYY` text the index
    table publishes them in. */
module Calendar {
  import opened Basics
  import opened Text

  datatype Date = Date(year: int, month: int, day: int)

  /** Gregorian leap years. */
  predicate IsLeapYear(y: int) {
    y % 4 == 0 && (y % 100 != 0 || y % 400 == 0)
  }

  function DaysInMonth(y: int, m: int): (n: int)
    requires 1 <= m <= 12
    ensures 28 <= n <= 31
  {
    if m == 2 then (if IsLeapYear(y) then 29 else 28)
    else if m == 4 || m == 6 || m == 9 || m == 11 then 30
    else 31
  }

  /** A day that exists in the Gregorian calendar. */
  predicate ValidDate(d: Date) {
    1 <= d.month <= 12 && 1 <= d.day <= DaysInMonth(d.year, d.month)
  }

  /** Chronological order: `a` falls strictly before `b`. */
  predicate Before(a: Date, b: Date) {
    a.year < b.year ||
    (a.year == b.year && (a.month < b.month || (a.month == b.month && a.day < b.day)))
  }

  /** Chronological order: `a` falls on or before `b`. */
  predicate OnOrBefore(a: Date, b: Date) {
    a == b || Before(a, b)
  }

  /** The day-first text `DD/MM/YYYY` of a date with a four-digit year. */
  function FormatDate(d: Date): (s: string)
    requires ValidDate(d) && 0 <= d.year <= 9999
    ensures |s| == 10 && s[2] == '/' && s[5] == '/' && IsDigit(s[0]) && IsDigit(s[9])
  {
    var s := PadDigits(d.day, 2) + "/" + PadDigits(d.month, 2) + "/" + PadDigits(d.year, 4);
    assert s[0] == PadDigits(d.day, 2)[0] && s[9] == PadDigits(d.year, 4)[3];
    s
  }

  /** Reading a day-first date: exactly two digits of day, two of month and four
      of year separated by `/`, naming a day that exists. */
  function ParseDate(s: string): (r: Option<Date>)
    ensures r.Some? ==> ValidDate(r.value) && 0 <= r.value.year <= 9999
    ensures r.Some? ==> FormatDate(r.value) == s
  {
    if |s| == 10 && s[2] == '/' && s[5] == '/' &&
       AllDigits(s[..2]) && AllDigits(s[3..5]) && AllDigits(s[6..])
    then
      var d := Date(DigitsValue(s[6..]), DigitsValue(s[3..5]), DigitsValue(s[..2]));
      if ValidDate(d) then
        FormatDateParts(s, d);
        Some(d)
      else None
    else None
  }

  /** Text of the accepted shape is the text of the date its digits name. */
  lemma FormatDateParts(s: string, d: Date)
    requires |s| == 10 && s[2] == '/' && s[5] == '/'
    requires AllDigits(s[..2]) && AllDigits(s[3..5]) && AllDigits(s[6..])
    requires d == Date(DigitsValue(s[6..]), DigitsValue(s[3..5]), DigitsValue(s[..2])) && ValidDate(d)
    ensures 0 <= d.year <= 9999 && FormatDate(d) == s
  {
    PadDigitsValue(s[..2]);
    PadDigitsValue(s[3..5]);
    PadDigitsValue(s[6..]);
    assert s == s[..2] + "/" + s[3..5] + "/" + s[6..];
  }

  /** Every date with a four-digit year reads back from its own text. */
  lemma ParseFormatDate(d: Date)
    requires ValidDate(d) && 0 <= d.year <= 9999
    ensures ParseDate(FormatDate(d)) == Some(d)
  {
    var s := FormatDate(d);
    var dd, mm, yyyy := PadDigits(d.day, 2), PadDigits(d.month, 2), PadDigits(d.year, 4);
    assert s[..2] == dd && s[3..5] == mm && s[6..] == yyyy;
  }
}
