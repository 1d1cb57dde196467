/** Calendar dates and the strict `YYYY-MM-DD` parser used when the catalog
    turns its `last_updated` strings into dates. */
module Dates {
  import opened Results

  datatype Date = Date(year: nat, month: nat, day: nat)

  predicate IsLeapYear(y: nat) {
    y % 4 == 0 && (y % 100 != 0 || y % 400 == 0)
  }

  function DaysInMonth(y: nat, m: nat): (n: nat)
    requires 1 <= m <= 12
    ensures 28 <= n <= 31
  {
    if m == 2 then (if IsLeapYear(y) then 29 else 28)
    else if m == 4 || m == 6 || m == 9 || m == 11 then 30
    else 31
  }

  /** A date of the proleptic Gregorian calendar with a four-digit year. */
  predicate ValidDate(d: Date) {
    1 <= d.year <= 9999 && 1 <= d.month <= 12 && 1 <= d.day <= DaysInMonth(d.year, d.month)
  }

  /** Chronological order, which for dates is lexicographic on (year, month, day). */
  predicate DateLe(a: Date, b: Date) {
    a.year < b.year ||
    (a.year == b.year && (a.month < b.month || (a.month == b.month && a.day <= b.day)))
  }

  lemma DateLeTotalOrder(a: Date, b: Date, c: Date)
    ensures DateLe(a, a)
    ensures DateLe(a, b) || DateLe(b, a)
    ensures DateLe(a, b) && DateLe(b, a) ==> a == b
    ensures DateLe(a, b) && DateLe(b, c) ==> DateLe(a, c)
  {
  }

  // ---------------------------------------------------------------------
  // Digits

  predicate IsDigit(c: char) {
    '0' <= c <= '9'
  }

  predicate AllDigits(s: string) {
    forall i :: 0 <= i < |s| ==> IsDigit(s[i])
  }

  function DigitChar(n: nat): (c: char)
    requires n < 10
    ensures IsDigit(c) && c as int - '0' as int == n
  {
    ('0' as int + n) as char
  }

  function Pow10(w: nat): (p: nat)
    ensures p >= 1
  {
    if w == 0 then 1 else 10 * Pow10(w - 1)
  }

  /** The value of a string of decimal digits, most significant first. */
  function Number(s: string): (n: nat)
    requires AllDigits(s)
    ensures n < Pow10(|s|)
  {
    if s == [] then 0
    else Number(s[..|s| - 1]) * 10 + (s[|s| - 1] as int - '0' as int)
  }

  /** The last `width` decimal digits of `n`, zero-padded on the left. */
  function PadDigits(n: nat, width: nat): (s: string)
    ensures |s| == width && AllDigits(s)
  {
    if width == 0 then [] else PadDigits(n / 10, width - 1) + [DigitChar(n % 10)]
  }

  lemma {:induction false} NumberOfPadDigits(n: nat, width: nat)
    requires n < Pow10(width)
    ensures Number(PadDigits(n, width)) == n
  {
    if width > 0 {
      var s := PadDigits(n, width);
      assert s[..|s| - 1] == PadDigits(n / 10, width - 1);
      NumberOfPadDigits(n / 10, width - 1);
    }
  }

  lemma {:induction false} PadDigitsOfNumber(s: string)
    requires AllDigits(s)
    ensures PadDigits(Number(s), |s|) == s
  {
    if s != [] {
      var init := s[..|s| - 1];
      var n := Number(s);
      assert n / 10 == Number(init) && n % 10 == s[|s| - 1] as int - '0' as int;
      PadDigitsOfNumber(init);
      assert s == init + [s[|s| - 1]];
    }
  }

  // ---------------------------------------------------------------------
  // Format and parse

  /** The canonical `YYYY-MM-DD` spelling of a date. */
  function FormatDate(d: Date): (s: string)
    ensures |s| == 10
  {
    PadDigits(d.year, 4) + "-" + PadDigits(d.month, 2) + "-" + PadDigits(d.day, 2)
  }

  /** Parses `YYYY-MM-DD`: four, two and two decimal digits separated by
      hyphens, naming a valid calendar date; anything else is a ParseError
      that carries the offending text. */
  function ParseDate(s: string): (r: Result<Date>)
    ensures r.Ok? ==> ValidDate(r.value)
    ensures r.Err? ==> r.error == ParseError(s)
  {
    if |s| == 10 && s[4] == '-' && s[7] == '-'
       && AllDigits(s[..4]) && AllDigits(s[5..7]) && AllDigits(s[8..])
    then
      var d := Date(Number(s[..4]), Number(s[5..7]), Number(s[8..]));
      if ValidDate(d) then Ok(d) else Err(ParseError(s))
    else Err(ParseError(s))
  }

  /** Every valid date survives formatting followed by parsing. */
  lemma FormatThenParse(d: Date)
    requires ValidDate(d)
    ensures ParseDate(FormatDate(d)) == Ok(d)
  {
    var s := FormatDate(d);
    var y, m, dd := PadDigits(d.year, 4), PadDigits(d.month, 2), PadDigits(d.day, 2);
    assert s[..4] == y && s[5..7] == m && s[8..] == dd;
    NumberOfPadDigits(d.year, 4);
    NumberOfPadDigits(d.month, 2);
    NumberOfPadDigits(d.day, 2);
  }

  /** The parser accepts only the canonical spelling of the date it returns. */
  lemma ParseThenFormat(s: string)
    requires ParseDate(s).Ok?
    ensures FormatDate(ParseDate(s).value) == s
  {
    var d := ParseDate(s).value;
    PadDigitsOfNumber(s[..4]);
    PadDigitsOfNumber(s[5..7]);
    PadDigitsOfNumber(s[8..]);
    assert s == s[..4] + "-" + s[5..7] + "-" + s[8..];
  }
}
