/** Calendar dates written as ISO 8601 complete calendar dates in extended
    format, `YYYY-MM-DD` (ISO 8601:2004, section 4.1.2.2), and the long
    "MMMM dd, yyyy" rendering the invoice document uses. */
module IsoDate {
  import opened Common

  datatype Date = Date(year: nat, month: nat, day: nat)

  /** Gregorian leap-year rule. */
  predicate IsLeapYear(y: nat)
  {
    y % 4 == 0 && (y % 100 != 0 || y % 400 == 0)
  }

  function DaysInMonth(y: nat, m: nat): (n: nat)
    requires 1 <= m <= 12
    ensures 28 <= n <= 31
  {
    if m == 2 then (if IsLeapYear(y) then 29 else 28)
    else if m == 4 || m == 6 || m == 9 || m == 11 then 30
    else 31
  }

  /** A real calendar day with a four-digit year. */
  predicate ValidDate(d: Date)
  {
    d.year <= 9999 && 1 <= d.month <= 12 && 1 <= d.day <= DaysInMonth(d.year, d.month)
  }

  predicate IsIsoShape(s: string)
  {
    |s| == 10 && s[4] == '-' && s[7] == '-'
    && AllDigits(s[..4]) && AllDigits(s[5..7]) && AllDigits(s[8..])
  }

  /** `YYYY-MM-DD` of a valid date, each field zero-padded. */
  function FormatIsoDate(d: Date): string
  {
    PadLeft(NatToString(d.year), 4, '0') + "-"
    + PadLeft(NatToString(d.month), 2, '0') + "-"
    + PadLeft(NatToString(d.day), 2, '0')
  }

  /** The date a `YYYY-MM-DD` string names, or None when the string has
      another shape or names no calendar day (month 13, February 30). */
  function ParseIsoDate(s: string): (r: Option<Date>)
    ensures r.Some? ==> ValidDate(r.value) && IsIsoShape(s)
  {
    if !IsIsoShape(s) then None
    else
      var d := Date(ParseNat(s[..4]), ParseNat(s[5..7]), ParseNat(s[8..]));
      if ValidDate(d) then Some(d) else None
  }

  /** A parsed date is written back as exactly the text it was read from. */
  lemma ParseIsoDateSound(s: string, d: Date)
    requires ParseIsoDate(s) == Some(d)
    ensures FormatIsoDate(d) == s
  {
    FormatParsedIsoDate(s);
  }

  lemma FormatParsedIsoDate(s: string)
    requires IsIsoShape(s)
    ensures FormatIsoDate(Date(ParseNat(s[..4]), ParseNat(s[5..7]), ParseNat(s[8..]))) == s
  {
    var y, m, d := s[..4], s[5..7], s[8..];
    PaddedParse(y);
    PaddedParse(m);
    PaddedParse(d);
    IsoFields(s, y, m, d, FormatIsoDate(Date(ParseNat(y), ParseNat(m), ParseNat(d))));
  }

  /** `s` is `y-m-d` exactly when its fields sit at positions 0-3, 5-6 and 8-9. */
  lemma IsoFields(s: string, y: string, m: string, d: string, f: string)
    requires |y| == 4 && |m| == 2 && |d| == 2
    requires f == y + "-" + m + "-" + d
    ensures |f| == 10 && f[4] == '-' && f[7] == '-'
    ensures f[..4] == y && f[5..7] == m && f[8..] == d
    ensures |s| == 10 && s[4] == '-' && s[7] == '-' && y == s[..4] && m == s[5..7] && d == s[8..] ==> f == s
  {
    if |s| == 10 && s[4] == '-' && s[7] == '-' && y == s[..4] && m == s[5..7] && d == s[8..] {
      assert s == s[..4] + s[4..5] + s[5..7] + s[7..8] + s[8..];
    }
  }

  /** Every valid date is written in exactly one way that parses back to it. */
  lemma ParseFormatIsoDate(d: Date)
    requires ValidDate(d)
    ensures ParseIsoDate(FormatIsoDate(d)) == Some(d)
  {
    var y := PadLeft(NatToString(d.year), 4, '0');
    var m := PadLeft(NatToString(d.month), 2, '0');
    var dd := PadLeft(NatToString(d.day), 2, '0');
    NatDigitsLength(d.year, 4);
    NatDigitsLength(d.month, 2);
    NatDigitsLength(d.day, 2);
    ParsePaddedNat(d.year, 4);
    ParsePaddedNat(d.month, 2);
    ParsePaddedNat(d.day, 2);
    var s := FormatIsoDate(d);
    IsoFields(s, y, m, dd, s);
    assert IsIsoShape(s);
  }

  function MonthName(m: nat): string
    requires 1 <= m <= 12
  {
    ["January", "February", "March", "April", "May", "June", "July",
     "August", "September", "October", "November", "December"][m - 1]
  }

  /** The year date-fns' `yyyy` token writes: the year of the era, so the
      proleptic year 0 (1 BC) is written as year 1. */
  function EraYear(y: nat): (e: nat)
    ensures e >= 1 && (y >= 1 ==> e == y) && (y == 0 ==> e == 1)
  {
    if y == 0 then 1 else y
  }

  /** date-fns `format(date, 'MMMM dd, yyyy')`: full month name, two-digit
      day, four-digit year of the era. */
  function LongDate(d: Date): (r: string)
    requires ValidDate(d)
  {
    MonthName(d.month) + " " + PadLeft(NatToString(d.day), 2, '0') + ", "
    + PadLeft(NatToString(EraYear(d.year)), 4, '0')
  }
}
