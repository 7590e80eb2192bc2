/** The three formatters the invoice document renders values with —
    `formatCurrency`, `formatAddress`, `formatDate` — and `String(number)`
    for the quantity and tax-rate cells, with a decimal reader that inverts
    the two number renderings. */
module Formatters {
  import opened Common
  import opened IsoDate
  import opened InvoiceTypes

  // ---------------------------------------------------------------- numbers

  /** The number of hundredths `Number.prototype.toFixed(2)` writes for a
      magnitude `m`: the nearest whole number of hundredths, halves rounded
      up. */
  function RoundedCents(m: real): (n: nat)
    requires m >= 0.0
    ensures -0.5 < n as real - 100.0 * m <= 0.5
  {
    (100.0 * m + 0.5).Floor
  }

  /** `n` hundredths written with at least one integer digit, a point and two
      fraction digits. */
  function CentsText(n: nat): string
  {
    var digits := PadLeft(NatToString(n), 3, '0');
    digits[..|digits| - 2] + "." + digits[|digits| - 2..]
  }

  /** `x.toFixed(2)` for an exactly known `x`: a minus sign for a negative
      `x` (even when it rounds to zero), then the rounded magnitude. */
  function ToFixed2(x: real): string
  {
    if x < 0.0 then "-" + CentsText(RoundedCents(-x)) else CentsText(RoundedCents(x))
  }

  /** `formatCurrency`: a dollar sign and `toFixed(2)`. */
  function FormatCurrency(x: real): string
  {
    "$" + ToFixed2(x)
  }

  /** `formatCurrency` applied to a number read from an input: a blank input
      (NaN) renders as `$NaN`. */
  function FormatInputCurrency(n: NumInput): string
  {
    match n
    case NaN => "$NaN"
    case Fixed(h) => FormatCurrency(h as real / 100.0)
  }

  /** `String(n)` for a number of hundredths: no trailing fraction zeros and
      no point for a whole number; `NaN` for a blank input. */
  function NumberText(n: NumInput): string
  {
    match n
    case NaN => "NaN"
    case Fixed(h) => if h < 0 then "-" + MagnitudeText(-h) else MagnitudeText(h)
  }

  /** `String` of a non-negative number of hundredths `a`. */
  function MagnitudeText(a: nat): string
  {
    var frac := a % 100;
    NatToString(a / 100)
    + if frac == 0 then ""
      else if frac % 10 == 0 then "." + NatToString(frac / 10)
      else "." + PadLeft(NatToString(frac), 2, '0')
  }

  /** Reads a decimal with at least one integer digit and at most two
      fraction digits, as hundredths. */
  function ParseUnsigned(s: string): Option<nat>
  {
    if '.' in s then
      var k := IndexOf(s, '.');
      var whole, fraction := s[..k], s[k + 1..];
      if 1 <= |whole| && AllDigits(whole) && 1 <= |fraction| <= 2 && AllDigits(fraction) then
        Some(ParseNat(whole) * 100 + (if |fraction| == 1 then ParseNat(fraction) * 10 else ParseNat(fraction)))
      else None
    else if 1 <= |s| && AllDigits(s) then Some(ParseNat(s) * 100)
    else None
  }

  /** Reads an optionally signed decimal, as hundredths; the reader both
      number renderings are proved against. */
  function ParseDecimal(s: string): Option<int>
  {
    if |s| >= 1 && s[0] == '-' then
      match ParseUnsigned(s[1..])
      case Some(n) => Some(-(n as int))
      case None => None
    else ParseUnsigned(s)
  }

  /** In `whole + "." + fraction` with a digit-only `whole`, the first point
      sits right after `whole`. */
  lemma SplitAtPoint(whole: string, fraction: string)
    requires AllDigits(whole)
    ensures var s := whole + "." + fraction;
      '.' in s && IndexOf(s, '.') == |whole| && s[..|whole|] == whole && s[|whole| + 1..] == fraction
  {
    var s := whole + "." + fraction;
    assert s[|whole|] == '.';
    assert s[..|whole|] == whole;
    assert forall j :: 0 <= j < |whole| ==> s[j] == whole[j] && s[j] != '.';
    var k := IndexOf(s, '.');
    assert k == |whole|;
  }

  lemma NoPointInDigits(s: string)
    requires AllDigits(s)
    ensures '.' !in s
  {
    assert forall j :: 0 <= j < |s| ==> s[j] != '.';
  }

  /** How a decimal with a point is read. */
  lemma ParseUnsignedPoint(whole: string, fraction: string, s: string)
    requires 1 <= |whole| && AllDigits(whole) && 1 <= |fraction| <= 2 && AllDigits(fraction)
    requires s == whole + "." + fraction
    ensures ParseUnsigned(s)
      == Some(ParseNat(whole) * 100 + (if |fraction| == 1 then ParseNat(fraction) * 10 else ParseNat(fraction)))
    ensures IsDigitChar(s[0])
  {
    SplitAtPoint(whole, fraction);
    assert s[0] == whole[0];
  }

  lemma Pow10Two()
    ensures Pow10(2) == 100
  {
    assert Pow10(1) == 10;
  }

  /** A digit string with a point put before its last two digits reads as
      the number the digits write. */
  lemma ParseTwoPlaces(digits: string, s: string)
    requires |digits| >= 3 && AllDigits(digits)
    requires s == digits[..|digits| - 2] + "." + digits[|digits| - 2..]
    ensures ParseUnsigned(s) == Some(ParseNat(digits)) && IsDigitChar(s[0])
  {
    var whole, fraction := digits[..|digits| - 2], digits[|digits| - 2..];
    assert digits == whole + fraction;
    ParseNatAppend(whole, fraction);
    Pow10Two();
    ParseUnsignedPoint(whole, fraction, s);
  }

  lemma ParseCentsText(n: nat)
    ensures ParseUnsigned(CentsText(n)) == Some(n)
    ensures IsDigitChar(CentsText(n)[0])
  {
    var digits := PadLeft(NatToString(n), 3, '0');
    assert CentsText(n) == digits[..|digits| - 2] + "." + digits[|digits| - 2..];
    ParsePaddedNat(n, 3);
    ParseTwoPlaces(digits, CentsText(n));
  }

  /** A leading minus sign negates what the rest reads as; text that starts
      with a digit reads as unsigned. */
  lemma ParseSign(t: string)
    requires |t| >= 1 && IsDigitChar(t[0])
    ensures ParseDecimal(t) == ParseUnsigned(t)
    ensures ParseUnsigned(t).Some? ==> ParseDecimal("-" + t) == Some(-(ParseUnsigned(t).value as int))
  {
    assert ("-" + t)[1..] == t;
  }

  /** `toFixed(2)` writes `x` to the nearest hundredth: reading the text back
      gives a number of hundredths at most half a hundredth from `x`. */
  lemma ToFixed2Nearest(x: real)
    ensures ParseDecimal(ToFixed2(x)).Some?
    ensures -0.5 <= ParseDecimal(ToFixed2(x)).value as real - 100.0 * x <= 0.5
  {
    var n := RoundedCents(if x < 0.0 then -x else x);
    ParseCentsText(n);
    ParseSign(CentsText(n));
  }

  /** The form `toFixed(2)` writes a magnitude in: an integer part without
      leading zeros, a point, and exactly two fraction digits. */
  predicate TwoPlaceText(t: string)
  {
    && |t| >= 4 && t[|t| - 3] == '.'
    && AllDigits(t[..|t| - 3]) && AllDigits(t[|t| - 2..])
    && (t[0] == '0' ==> |t| == 4)
  }

  /** A number of hundredths is written in two-place form. */
  lemma CentsTextShape(n: nat)
    ensures TwoPlaceText(CentsText(n))
  {
    var s := NatToString(n);
    var digits := PadLeft(s, 3, '0');
    ParsePaddedNat(n, 3);
    if |s| >= 3 {
      assert digits == s;
      assert digits[0] == DigitChar(NatDigits(n)[0]);
    }
    PointShape(digits, CentsText(n));
  }

  /** A point put before the last two of three or more digits, the first of
      them non-zero unless there are exactly three, gives two-place form. */
  lemma PointShape(digits: string, t: string)
    requires |digits| >= 3 && AllDigits(digits) && (digits[0] == '0' ==> |digits| == 3)
    requires t == digits[..|digits| - 2] + "." + digits[|digits| - 2..]
    ensures TwoPlaceText(t)
  {
    var k := |digits| - 2;
    assert t[k] == '.';
    assert t[..k] == digits[..k];
    assert t[k + 1..] == digits[k..];
  }

  /** `toFixed(2)` writes a minus sign exactly for a negative number, and
      the magnitude in two-place form. */
  lemma ToFixed2Shape(x: real)
    ensures var s := ToFixed2(x);
      && |s| >= 1 && (s[0] == '-' <==> x < 0.0)
      && TwoPlaceText(if x < 0.0 then s[1..] else s)
  {
    var t := CentsText(RoundedCents(if x < 0.0 then -x else x));
    CentsTextShape(RoundedCents(if x < 0.0 then -x else x));
    assert t[..|t| - 3][0] == t[0];
    if x < 0.0 {
      assert ToFixed2(x)[1..] == t;
    }
  }

  /** A whole number of cents is written exactly: in two-place form, signed
      exactly when negative, and reading back unchanged. */
  lemma ToFixed2Cents(h: int)
    ensures ParseDecimal(ToFixed2(h as real / 100.0)) == Some(h)
    ensures var s := ToFixed2(h as real / 100.0);
      |s| >= 1 && (s[0] == '-' <==> h < 0) && TwoPlaceText(if h < 0 then s[1..] else s)
  {
    var x := h as real / 100.0;
    var s := ToFixed2(x);
    CentsSign(h);
    ToFixed2Shape(x);
    var t := if x < 0.0 then s[1..] else s;
    assert TwoPlaceText(t);
    assert t == if h < 0 then s[1..] else s;
    ToFixed2ReadsCents(h);
  }

  lemma CentsSign(h: int)
    ensures h as real / 100.0 < 0.0 <==> h < 0
  {
  }

  lemma ToFixed2ReadsCents(h: int)
    ensures ParseDecimal(ToFixed2(h as real / 100.0)) == Some(h)
  {
    var x := h as real / 100.0;
    assert 100.0 * x == h as real;
    ToFixed2Nearest(x);
    var v := ParseDecimal(ToFixed2(x)).value;
    assert -0.5 <= (v - h) as real <= 0.5;
    assert v == h;
    assert ParseDecimal(ToFixed2(x)) == Some(v);
  }

  lemma ParseWholeText(a: nat)
    requires a % 100 == 0
    ensures ParseUnsigned(MagnitudeText(a)) == Some(a)
  {
    var whole := NatToString(a / 100);
    assert MagnitudeText(a) == whole;
    ParseNatToString(a / 100);
    NoPointInDigits(whole);
  }

  lemma ParseOnePlaceText(a: nat)
    requires a % 100 != 0 && a % 100 % 10 == 0
    ensures ParseUnsigned(MagnitudeText(a)) == Some(a)
  {
    var whole, fraction := NatToString(a / 100), NatToString(a % 100 / 10);
    assert MagnitudeText(a) == whole + "." + fraction;
    ParseNatToString(a / 100);
    NatDigitsLength(a % 100 / 10, 1);
    ParseNatToString(a % 100 / 10);
    assert |fraction| == 1 && ParseNat(whole) == a / 100 && ParseNat(fraction) == a % 100 / 10;
    HundredthsSplit(a);
    ParseUnsignedPoint(whole, fraction, MagnitudeText(a));
  }

  lemma ParseTwoPlacesText(a: nat)
    requires a % 100 % 10 != 0
    ensures ParseUnsigned(MagnitudeText(a)) == Some(a)
  {
    var whole, fraction := NatToString(a / 100), PadLeft(NatToString(a % 100), 2, '0');
    assert MagnitudeText(a) == whole + "." + fraction;
    ParseNatToString(a / 100);
    NatDigitsLength(a % 100, 2);
    ParsePaddedNat(a % 100, 2);
    assert |fraction| == 2 && ParseNat(whole) == a / 100 && ParseNat(fraction) == a % 100;
    HundredthsSplit(a);
    ParseTwoPlacesValue(whole, fraction, MagnitudeText(a), a);
  }

  lemma ParseTwoPlacesValue(whole: string, fraction: string, t: string, a: nat)
    requires 1 <= |whole| && AllDigits(whole) && |fraction| == 2 && AllDigits(fraction)
    requires t == whole + "." + fraction
    requires ParseNat(whole) * 100 + ParseNat(fraction) == a
    ensures ParseUnsigned(t) == Some(a)
  {
    ParseUnsignedPoint(whole, fraction, t);
  }

  lemma HundredthsSplit(a: nat)
    ensures a / 100 * 100 + a % 100 == a
    ensures a % 100 % 10 == 0 ==> a / 100 * 100 + a % 100 / 10 * 10 == a
  {
  }

  lemma ParseMagnitudeText(a: nat)
    ensures ParseUnsigned(MagnitudeText(a)) == Some(a)
    ensures IsDigitChar(MagnitudeText(a)[0])
  {
    if a % 100 == 0 {
      ParseWholeText(a);
    } else if a % 100 % 10 == 0 {
      ParseOnePlaceText(a);
    } else {
      ParseTwoPlacesText(a);
    }
    assert MagnitudeText(a)[0] == NatToString(a / 100)[0];
  }

  /** `String(n)` is read back as the number it writes; a blank input writes
      `NaN`, which is no decimal. */
  lemma NumberTextRoundTrip(n: NumInput)
    ensures n.Fixed? ==> ParseDecimal(NumberText(n)) == Some(n.hundredths)
    ensures n.NaN? ==> ParseDecimal(NumberText(n)).None?
  {
    if n.Fixed? {
      SignedTextRoundTrip(n.hundredths);
    } else {
      NaNIsNoDecimal();
    }
  }

  lemma SignedTextRoundTrip(h: int)
    ensures ParseDecimal(NumberText(Fixed(h))) == Some(h)
  {
    var a: nat := if h < 0 then -h else h;
    var t := MagnitudeText(a);
    assert NumberText(Fixed(h)) == if h < 0 then "-" + t else t;
    ParseMagnitudeText(a);
    SignedRead(t, a);
  }

  /** What a digit-led text reads as, with and without a minus sign. */
  lemma SignedRead(t: string, a: nat)
    requires ParseUnsigned(t) == Some(a) && |t| >= 1 && IsDigitChar(t[0])
    ensures ParseDecimal(t) == Some(a)
    ensures ParseDecimal("-" + t) == Some(-(a as int))
  {
    ParseSign(t);
  }

  /** `NaN` is no decimal. */
  lemma NaNIsNoDecimal()
    ensures ParseDecimal("NaN").None?
  {
    assert "NaN"[0] != '-';
    assert '.' !in "NaN";
  }

  /** Two inputs render differently under `String`, unless they are equal. */
  lemma NumberTextInjective(m: NumInput, n: NumInput)
    requires NumberText(m) == NumberText(n)
    ensures m == n
  {
    NumberTextRoundTrip(m);
    NumberTextRoundTrip(n);
  }

  /** Reads `$` and a decimal, as hundredths. */
  function ReadCurrency(s: string): Option<int>
  {
    if |s| >= 1 && s[0] == '$' then ParseDecimal(s[1..]) else None
  }

  lemma ReadCurrencyPrefix(t: string)
    ensures ReadCurrency("$" + t) == ParseDecimal(t)
  {
    assert ("$" + t)[1..] == t;
  }

  /** Text in `formatCurrency`'s form: a dollar sign, an optional minus
      sign, and a magnitude in two-place form. */
  predicate MoneyText(s: string)
  {
    |s| >= 2 && s[0] == '$' && TwoPlaceText(if s[1] == '-' then s[2..] else s[1..])
  }

  /** `formatCurrency` shows `x` to the nearest cent, as a dollar sign, a
      minus sign exactly when `x` is negative, and exactly two fraction
      digits. */
  lemma FormatCurrencyNearest(x: real)
    ensures ReadCurrency(FormatCurrency(x)).Some?
    ensures -0.5 <= ReadCurrency(FormatCurrency(x)).value as real - 100.0 * x <= 0.5
    ensures MoneyText(FormatCurrency(x)) && (FormatCurrency(x)[1] == '-' <==> x < 0.0)
  {
    ReadCurrencyPrefix(ToFixed2(x));
    ToFixed2Nearest(x);
    FormatCurrencyShape(x);
  }

  lemma FormatCurrencyShape(x: real)
    ensures MoneyText(FormatCurrency(x)) && (FormatCurrency(x)[1] == '-' <==> x < 0.0)
  {
    ToFixed2Shape(x);
    var s, t := FormatCurrency(x), ToFixed2(x);
    assert s[1..] == t && s[1] == t[0];
    if x < 0.0 {
      assert s[2..] == t[1..];
    }
  }

  /** A rate typed in cents is shown exactly, with two fraction digits; a
      blank one shows no amount. */
  lemma FormatInputCurrencyRoundTrip(n: NumInput)
    ensures n.Fixed? ==> ReadCurrency(FormatInputCurrency(n)) == Some(n.hundredths)
    ensures n.Fixed? ==> MoneyText(FormatInputCurrency(n))
    ensures n.NaN? ==> ReadCurrency(FormatInputCurrency(n)).None?
  {
    match n
    case Fixed(h) =>
      CentsCurrencyRoundTrip(h, FormatInputCurrency(n));
      InputCurrencyShape(h, FormatInputCurrency(n));
    case NaN =>
      assert FormatInputCurrency(n) == "$" + "NaN";
      NaNIsNoDecimal();
      CurrencyOfText(FormatInputCurrency(n), "NaN");
  }

  lemma CentsCurrencyRoundTrip(h: int, s: string)
    requires s == FormatInputCurrency(Fixed(h))
    ensures ReadCurrency(s) == Some(h)
  {
    var x := h as real / 100.0;
    assert s == "$" + ToFixed2(x);
    CurrencyOfText(s, ToFixed2(x));
    ToFixed2ReadsCents(h);
  }

  lemma InputCurrencyShape(h: int, s: string)
    requires s == FormatInputCurrency(Fixed(h))
    ensures MoneyText(s)
  {
    var x := h as real / 100.0;
    assert s == "$" + ToFixed2(x);
    assert s == FormatCurrency(x);
    FormatCurrencyShape(x);
  }

  lemma CurrencyOfText(s: string, t: string)
    requires s == "$" + t
    ensures ReadCurrency(s) == ParseDecimal(t)
  {
    assert s[1..] == t;
  }

  // -------------------------------------------------------------- addresses

  /** The address fields company details and billing information share. */
  datatype Address = Address(address: string, city: string, state: string, zipCode: string, country: string)

  function CompanyAddress(c: CompanyDetails): Address
  {
    Address(c.address, c.city, c.state, c.zipCode, c.country)
  }

  function BillingAddress(b: BillingInfo): Address
  {
    Address(b.address, b.city, b.state, b.zipCode, b.country)
  }

  /** The lines `formatAddress` keeps: street, "city, state", ZIP code and
      country, each only when it is non-empty. */
  function AddressLines(a: Address): (r: seq<string>)
    ensures forall i :: 0 <= i < |r| ==> r[i] != ""
  {
    NonEmpty([a.address, Join(NonEmpty([a.city, a.state]), ", "), a.zipCode, a.country])
  }

  /** `formatAddress`: the kept lines joined by newlines. */
  function FormatAddress(a: Address): string
  {
    Join(AddressLines(a), "\n")
  }

  predicate NoNewline(s: string)
  {
    '\n' !in s
  }

  lemma {:induction false} JoinKeepsOut(parts: seq<string>, sep: string, c: char)
    requires c !in sep
    requires forall i :: 0 <= i < |parts| ==> c !in parts[i]
    ensures c !in Join(parts, sep)
  {
    if |parts| > 1 {
      JoinKeepsOut(parts[1..], sep, c);
    }
  }

  /** With single-line inputs, splitting the rendered address at its newlines
      gives back exactly the non-empty lines, in order. */
  lemma FormatAddressSplit(a: Address)
    requires NoNewline(a.address) && NoNewline(a.city) && NoNewline(a.state)
    requires NoNewline(a.zipCode) && NoNewline(a.country)
    requires AddressLines(a) != []
    ensures Split(FormatAddress(a), '\n') == AddressLines(a)
  {
    var cityState := NonEmpty([a.city, a.state]);
    JoinKeepsOut(cityState, ", ", '\n');
    var lines := AddressLines(a);
    forall i | 0 <= i < |lines| ensures '\n' !in lines[i] {
      assert lines[i] in [a.address, Join(cityState, ", "), a.zipCode, a.country];
    }
    SplitJoin(lines, '\n');
  }

  /** The second line is "city, state", or whichever of the two is given. */
  lemma CityStateLine(city: string, state: string)
    ensures city != "" && state != "" ==> Join(NonEmpty([city, state]), ", ") == city + ", " + state
    ensures city != "" && state == "" ==> Join(NonEmpty([city, state]), ", ") == city
    ensures city == "" && state != "" ==> Join(NonEmpty([city, state]), ", ") == state
    ensures city == "" && state == "" ==> Join(NonEmpty([city, state]), ", ") == ""
  {
    assert [city, state][1..] == [state];
    assert [state][1..] == [];
  }

  // ------------------------------------------------------------------ dates

  /** `formatDate`: a `YYYY-MM-DD` string naming a calendar day renders as
      "MMMM dd, yyyy"; any other string is shown as it was given. */
  function FormatDate(s: string): string
  {
    match ParseIsoDate(s)
    case Some(d) => LongDate(d)
    case None => s
  }

  lemma LongDateLength(d: Date)
    requires ValidDate(d)
    ensures |LongDate(d)| >= 12
  {
    assert |MonthName(d.month)| >= 3;
  }

  /** A date is shown unchanged exactly when it does not name a calendar day
      in `YYYY-MM-DD` form; a named day is always rewritten. */
  lemma FormatDateFallback(s: string)
    ensures FormatDate(s) == s <==> ParseIsoDate(s).None?
  {
    if ParseIsoDate(s).Some? {
      LongDateLength(ParseIsoDate(s).value);
      assert |s| == 10;
    }
  }

  /** The year ends the long form as four digits naming the year of the era:
      never `0000`, and the calendar year itself from year 1 on. */
  lemma LongDateYear(d: Date)
    requires ValidDate(d)
    ensures var r := LongDate(d);
      |r| >= 4 && AllDigits(r[|r| - 4..])
      && ParseNat(r[|r| - 4..]) == EraYear(d.year)
      && ParseNat(r[|r| - 4..]) >= 1
  {
    var y := PadLeft(NatToString(EraYear(d.year)), 4, '0');
    assert Pow10(4) == 10000;
    NatDigitsLength(EraYear(d.year), 4);
    ParsePaddedNat(EraYear(d.year), 4);
    var r := LongDate(d);
    assert r[|r| - 4..] == y;
  }

  /** The form's default dates render in long form for every valid day. */
  lemma FormatDateOfIsoDate(d: Date)
    requires ValidDate(d)
    ensures FormatDate(FormatIsoDate(d)) == LongDate(d)
  {
    ParseFormatIsoDate(d);
  }
}
