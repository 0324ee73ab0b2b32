// Calendar dates as the scripts print them (`strftime('%Y-%m-%d')`) and read
// them back (`datetime.strptime(s, "%Y-%m-%d")`). Times of day play no part in
// the consolidation step, so a date is a (year, month, day) triple.
module Dates {
  import opened Wrappers
  import opened Text

  datatype Date = Date(year: int, month: int, day: int)

  predicate IsLeap(y: int) {
    y % 4 == 0 && (y % 100 != 0 || y % 400 == 0)
  }

  function DaysInMonth(y: int, m: int): (n: int)
    requires 1 <= m <= 12
    ensures 28 <= n <= 31
  {
    if m == 2 then (if IsLeap(y) then 29 else 28)
    else if m == 4 || m == 6 || m == 9 || m == 11 then 30
    else 31
  }

  /** The dates Python's `datetime` can represent. */
  predicate Valid(d: Date) {
    && 1 <= d.year <= 9999
    && 1 <= d.month <= 12
    && 1 <= d.day <= DaysInMonth(d.year, d.month)
  }

  /** A date as a parsed `datetime` holds it. */
  type CalendarDate = d: Date | Valid(d) witness Date(1, 1, 1)

  /** Strict chronological order, which is the order of `datetime` objects
      that share a time of day. */
  predicate Before(a: Date, b: Date) {
    || a.year < b.year
    || (a.year == b.year && a.month < b.month)
    || (a.year == b.year && a.month == b.month && a.day < b.day)
  }

  lemma {:induction false} BeforeIsStrictTotalOrder(a: Date, b: Date, c: Date)
    ensures !Before(a, a)
    ensures Before(a, b) && Before(b, c) ==> Before(a, c)
    ensures a == b || Before(a, b) || Before(b, a)
  {
  }

  // ---------------------------------------------------------------------
  // Digits

  predicate IsDigit(c: char) {
    '0' <= c <= '9'
  }

  predicate AllDigits(s: string) {
    forall k :: 0 <= k < |s| ==> IsDigit(s[k])
  }

  function DigitValue(c: char): int {
    c as int - '0' as int
  }

  function DigitChar(n: int): (c: char)
    requires 0 <= n <= 9
    ensures IsDigit(c) && DigitValue(c) == n
  {
    ('0' as int + n) as char
  }

  /** The value of a decimal numeral, as `int(s)` reads it. */
  function Number(s: string): int
    decreases |s|
  {
    if s == [] then 0 else 10 * Number(s[..|s| - 1]) + DigitValue(s[|s| - 1])
  }

  /** `%02d` */
  function Pad2(n: int): (s: string)
    requires 0 <= n <= 99
    ensures |s| == 2 && AllDigits(s)
  {
    [DigitChar(n / 10), DigitChar(n % 10)]
  }

  /** `%04d` */
  function Pad4(n: int): (s: string)
    requires 0 <= n <= 9999
    ensures |s| == 4 && AllDigits(s)
  {
    [DigitChar(n / 1000), DigitChar(n / 100 % 10), DigitChar(n / 10 % 10), DigitChar(n % 10)]
  }

  lemma {:induction false} NumberPad2(n: int)
    requires 0 <= n <= 99
    ensures Number(Pad2(n)) == n
  {
    var s := Pad2(n);
    assert s[..1][..0] == [];
    assert Number(s[..1]) == n / 10;
  }

  lemma {:induction false} NumberPad4(n: int)
    requires 0 <= n <= 9999
    ensures Number(Pad4(n)) == n
  {
    var s := Pad4(n);
    var a, b, c := n / 1000, n / 100, n / 10;
    DropDigit(n);
    DropDigit(c);
    DropDigit(b);
    assert c / 10 == b && b / 10 == a;
    assert Number(s[..1]) == a by {
      assert s[..1][..0] == [];
    }
    assert Number(s[..2]) == b by {
      assert s[..2][..1] == s[..1] && s[1] == DigitChar(b % 10);
    }
    assert Number(s[..3]) == c by {
      assert s[..3][..2] == s[..2] && s[2] == DigitChar(c % 10);
    }
    assert s[..4] == s && s[3] == DigitChar(n % 10);
  }

  /** A numeral's last digit and the rest. */
  lemma {:induction false} DropDigit(m: int)
    requires 0 <= m
    ensures 10 * (m / 10) + m % 10 == m
    ensures m / 10 / 10 == m / 100
  {
  }

  // ---------------------------------------------------------------------
  // strftime('%Y-%m-%d')

  /** The text `strftime('%Y-%m-%d')` gives for a representable date. */
  function FormatIso(d: Date): (s: string)
    requires Valid(d)
    ensures |s| == 10 && s[4] == '-' && s[7] == '-'
    ensures NoSpace(s)
  {
    Pad4(d.year) + "-" + Pad2(d.month) + "-" + Pad2(d.day)
  }

  // ---------------------------------------------------------------------
  // strptime(s, '%Y-%m-%d')
  //
  // The regular expressions `strptime` uses for the three directives are
  //   %Y  \d\d\d\d
  //   %m  1[0-2]|0[1-9]|[1-9]
  //   %d  3[0-1]|[1-2]\d|0[1-9]|[1-9]| [1-9]
  // and all of the text must be consumed; the matched numbers must then form
  // a date `datetime` accepts.

  predicate YearField(s: string) {
    |s| == 4 && AllDigits(s)
  }

  predicate MonthField(s: string) {
    || (|s| == 1 && '1' <= s[0] <= '9')
    || (|s| == 2 && s[0] == '1' && '0' <= s[1] <= '2')
    || (|s| == 2 && s[0] == '0' && '1' <= s[1] <= '9')
  }

  predicate DayField(s: string) {
    || (|s| == 1 && '1' <= s[0] <= '9')
    || (|s| == 2 && s[0] == '3' && '0' <= s[1] <= '1')
    || (|s| == 2 && '1' <= s[0] <= '2' && IsDigit(s[1]))
    || (|s| == 2 && s[0] == '0' && '1' <= s[1] <= '9')
    || (|s| == 2 && s[0] == ' ' && '1' <= s[1] <= '9')
  }

  /** `int(s)` for a matched month or day: a leading blank is ignored. */
  function FieldValue(s: string): int {
    if |s| == 2 && s[0] == ' ' then DigitValue(s[1]) else Number(s)
  }

  /** `datetime.strptime(s, "%Y-%m-%d")`, with `None` for the `ValueError`
      it raises on text that does not match or on a date that does not exist. */
  function ParseIso(s: string): (r: Option<Date>)
    ensures r.Some? ==> Valid(r.value)
    ensures r.Some? ==> |s| >= 8 && s[4] == '-'
  {
    if |s| < 5 || !YearField(s[..4]) || s[4] != '-' then None
    else
      var rest := s[5..];
      var k := IndexOf(rest, '-');
      if k == |rest| || !MonthField(rest[..k]) || !DayField(rest[k + 1..]) then None
      else
        var d := Date(Number(s[..4]), FieldValue(rest[..k]), FieldValue(rest[k + 1..]));
        if Valid(d) then Some(d) else None
  }

  /** Reading back a printed date gives the date. */
  lemma {:induction false} ParseFormatIso(d: Date)
    requires Valid(d)
    ensures ParseIso(FormatIso(d)) == Some(d)
  {
    var s := FormatIso(d);
    var y, m, dd := Pad4(d.year), Pad2(d.month), Pad2(d.day);
    assert s == y + "-" + m + "-" + dd;
    assert s[..4] == y;
    var rest := s[5..];
    assert rest == m + "-" + dd;
    assert IndexOf(rest, '-') == 2;
    assert rest[..2] == m && rest[3..] == dd;
    NumberPad4(d.year);
    PaddedMonth(d.month);
    PaddedDay(d.day);
    assert YearField(y) && MonthField(m) && DayField(dd);
  }

  /** A printed month is a `%m` field that reads back as the month. */
  lemma {:induction false} PaddedMonth(month: int)
    requires 1 <= month <= 12
    ensures MonthField(Pad2(month)) && FieldValue(Pad2(month)) == month
  {
    NumberPad2(month);
  }

  /** A printed day is a `%d` field that reads back as the day. */
  lemma {:induction false} PaddedDay(day: int)
    requires 1 <= day <= 31
    ensures DayField(Pad2(day)) && FieldValue(Pad2(day)) == day
  {
    NumberPad2(day);
  }

  /** The placeholder PubMed prints for an article without a year is not a
      date. */
  lemma {:induction false} UnknownDateIsNotADate()
    ensures ParseIso("Unknown Date") == None
  {
    assert !YearField("Unknown Date"[..4]) by {
      assert !IsDigit("Unknown Date"[0]);
    }
  }
}
