/** The backend's invoice-creation payload check, `InvoiceCreateSerializer`:
    one Django REST framework field per key, each turning the submitted
    value into a validated value or into a list of error codes. The payload
    is valid when no field reports an error. */
module CreateSerializer {
  import opened Common
  import opened IsoDate

  /** A key of the submitted JSON object: missing, `null`, or given. */
  datatype Field<T> = Absent | Null | Given(value: T)

  /** The error codes the fields raise. */
  datatype ErrorCode =
    | Required | NullValue | Blank | MaxLength | NullCharacters
    | Invalid | MaxDigits | MaxDecimalPlaces | MaxWholeDigits

  /** What one field makes of its input: skipped (an optional key that is
      missing), a validated value, or the errors it reports. */
  datatype Check<T> = Omitted | Accepted(value: T) | Rejected(codes: seq<ErrorCode>)

  // ------------------------------------------------------------ CharField

  /** Python's `str.isspace()`: the characters `str.strip()` removes. */
  predicate IsPythonSpace(c: char)
  {
    var n := c as int;
    || 9 <= n <= 13 || 28 <= n <= 32 || n == 0x85 || n == 0xA0 || n == 0x1680
    || 0x2000 <= n <= 0x200A || n == 0x2028 || n == 0x2029 || n == 0x202F
    || n == 0x205F || n == 0x3000
  }

  function StripLeft(s: string): (r: string)
    ensures |r| <= |s| && r == s[|s| - |r|..]
    ensures r == [] || !IsPythonSpace(r[0])
    ensures forall i :: 0 <= i < |s| - |r| ==> IsPythonSpace(s[i])
  {
    if s != [] && IsPythonSpace(s[0]) then StripLeft(s[1..]) else s
  }

  function StripRight(s: string): (r: string)
    ensures |r| <= |s| && r == s[..|r|]
    ensures r == [] || !IsPythonSpace(r[|r| - 1])
    ensures forall i :: |r| <= i < |s| ==> IsPythonSpace(s[i])
  {
    if s != [] && IsPythonSpace(s[|s| - 1]) then StripRight(s[..|s| - 1]) else s
  }

  /** `str.strip()`: leading and trailing whitespace removed. */
  function Strip(s: string): string
  {
    StripRight(StripLeft(s))
  }

  /** `strip()` keeps a middle slice of its input, removes only whitespace,
      and leaves none at either end of what it keeps. */
  lemma StripSpec(s: string)
    ensures var lo, r := |s| - |StripLeft(s)|, Strip(s);
      && lo + |r| <= |s| && r == s[lo..lo + |r|]
      && (forall i :: 0 <= i < lo ==> IsPythonSpace(s[i]))
      && (forall i :: lo + |r| <= i < |s| ==> IsPythonSpace(s[i]))
  {
    var l := StripLeft(s);
    var r := StripRight(l);
    assert Strip(s) == r;
    KeptSlice(s, l, r);
  }

  /** A prefix `r` of a suffix `l` of `s` is a slice of `s`, and the
      characters after `r` in `l` are those after the slice in `s`. */
  lemma KeptSlice(s: string, l: string, r: string)
    requires |l| <= |s| && l == s[|s| - |l|..]
    requires |r| <= |l| && r == l[..|r|]
    requires forall i :: |r| <= i < |l| ==> IsPythonSpace(l[i])
    ensures var lo := |s| - |l|;
      && r == s[lo..lo + |r|]
      && (forall i :: lo + |r| <= i < |s| ==> IsPythonSpace(s[i]))
  {
    var lo := |s| - |l|;
    forall i | lo + |r| <= i < |s| ensures IsPythonSpace(s[i]) {
      assert s[i] == l[i - lo];
    }
  }

  /** What `strip()` keeps starts and ends with a non-space character. */
  lemma StripEnds(s: string)
    ensures Strip(s) == [] || (!IsPythonSpace(Strip(s)[0]) && !IsPythonSpace(Strip(s)[|Strip(s)| - 1]))
  {
    var l := StripLeft(s);
    if Strip(s) != [] {
      assert Strip(s)[0] == l[0];
    }
  }

  /** Text with no whitespace at either end is kept as it is. */
  lemma StripUnchanged(s: string)
    requires s == [] || (!IsPythonSpace(s[0]) && !IsPythonSpace(s[|s| - 1]))
    ensures Strip(s) == s
  {
  }

  /** `strip()` twice is `strip()` once. */
  lemma StripIdempotent(s: string)
    ensures Strip(Strip(s)) == Strip(s)
  {
    StripEnds(s);
    StripUnchanged(Strip(s));
  }

  /** The declared options of a `CharField` (and of an `EmailField`, whose
      address check is not modelled). Fields never allow `null`. */
  datatype CharSpec = CharSpec(required: bool, allowBlank: bool, maxLength: Option<nat>)

  /** `CharField.run_validation`: a missing key is an error only when the
      field is required; `null` is an error; text that is empty once stripped
      is `""` when blanks are allowed and an error otherwise; other text is
      stripped, then checked against `max_length` and for NUL characters,
      both checks reporting. */
  function CharField(spec: CharSpec, input: Field<string>): Check<string>
  {
    match input
    case Absent => if spec.required then Rejected([Required]) else Omitted
    case Null => Rejected([NullValue])
    case Given(s) =>
      var v := Strip(s);
      if v == "" then
        if spec.allowBlank then Accepted("") else Rejected([Blank])
      else
        var codes :=
          (if spec.maxLength.Some? && |v| > spec.maxLength.value then [MaxLength] else [])
          + (if '\0' in v then [NullCharacters] else []);
        if codes == [] then Accepted(v) else Rejected(codes)
  }

  /** A `CharField` takes given text exactly when its stripped form is blank
      and blanks are allowed, or is at most `max_length` long and free of NUL
      characters; it then holds the stripped text. */
  lemma CharFieldIff(spec: CharSpec, s: string)
    ensures CharField(spec, Given(s)).Accepted? <==>
      if Strip(s) == "" then spec.allowBlank
      else (spec.maxLength.None? || |Strip(s)| <= spec.maxLength.value) && '\0' !in Strip(s)
    ensures CharField(spec, Given(s)).Accepted? ==> CharField(spec, Given(s)).value == Strip(s)
    ensures !CharField(spec, Given(s)).Omitted?
  {
  }

  const NameSpec := CharSpec(true, false, Some(200))
  const InvoiceNumberSpec := CharSpec(true, false, Some(50))
  const OptionalText := CharSpec(false, true, None)

  /** Given text with nothing to strip and no NUL character is refused with
      `max_length` exactly when it is longer than the bound, and is otherwise
      taken unchanged. */
  lemma CharFieldOnTrimmedText(spec: CharSpec, s: string)
    requires s != "" && !IsPythonSpace(s[0]) && !IsPythonSpace(s[|s| - 1]) && '\0' !in s
    ensures CharField(spec, Given(s))
      == if spec.maxLength.Some? && |s| > spec.maxLength.value then Rejected([MaxLength]) else Accepted(s)
  {
    StripUnchanged(s);
  }

  /** Company and client names are taken up to 200 characters and refused
      from 201; invoice numbers up to 50 and refused from 51. */
  lemma LengthBoundaries(s: string)
    requires s != "" && !IsPythonSpace(s[0]) && !IsPythonSpace(s[|s| - 1]) && '\0' !in s
    ensures CharField(NameSpec, Given(s)).Accepted? <==> |s| <= 200
    ensures CharField(InvoiceNumberSpec, Given(s)).Accepted? <==> |s| <= 50
  {
    CharFieldOnTrimmedText(NameSpec, s);
    CharFieldOnTrimmedText(InvoiceNumberSpec, s);
  }

  // --------------------------------------------------------- DecimalField

  /** A finite Python `Decimal` as `as_tuple()` shows it: sign, the digits of
      the coefficient, exponent. */
  datatype Decimal = Decimal(negative: bool, coefficient: nat, exponent: int)

  /** A submitted number: a finite decimal, or anything `Decimal` rejects or
      reads as NaN or an infinity. */
  datatype DecimalInput = Finite(d: Decimal) | NotFinite

  datatype DecimalSpec = DecimalSpec(maxDigits: nat, decimalPlaces: nat)

  /** `validate_precision`'s count of total, whole and fractional digits. */
  datatype Precision = Precision(total: nat, whole: nat, places: nat)

  function PrecisionOf(d: Decimal): Precision
  {
    var n := |NatDigits(d.coefficient)|;
    if d.exponent >= 0 then Precision(n + d.exponent, n + d.exponent, 0)
    else if n > -d.exponent then Precision(n, n + d.exponent, -d.exponent)
    else Precision(-d.exponent, 0, -d.exponent)
  }

  /** The value in units of the last allowed decimal place. */
  function Units(d: Decimal, places: nat): int
    requires d.exponent + places >= 0
  {
    var m := d.coefficient * Pow10(d.exponent + places);
    if d.negative then -m else m
  }

  /** `DecimalField.to_internal_value` with `max_digits` and
      `decimal_places`: a missing key and `null` are errors, a non-finite or
      unreadable number is `invalid`, and a finite one fails at the first of
      the digit checks it breaks; an accepted value is counted in units of
      the last decimal place. */
  function DecimalField(spec: DecimalSpec, input: Field<DecimalInput>): Check<int>
  {
    match input
    case Absent => Rejected([Required])
    case Null => Rejected([NullValue])
    case Given(NotFinite) => Rejected([Invalid])
    case Given(Finite(d)) =>
      var p := PrecisionOf(d);
      if p.total > spec.maxDigits then Rejected([MaxDigits])
      else if p.places > spec.decimalPlaces then Rejected([MaxDecimalPlaces])
      else if p.whole + spec.decimalPlaces > spec.maxDigits then Rejected([MaxWholeDigits])
      else Accepted(Units(d, spec.decimalPlaces))
  }

  const AmountSpec := DecimalSpec(10, 2)
  const TaxRateSpec := DecimalSpec(5, 2)

  /** Every accepted decimal has at most `decimal_places` fraction digits and
      a magnitude below `10^(max_digits - decimal_places)`: fewer than
      `10^max_digits` units. */
  lemma {:induction false} DecimalFieldBound(spec: DecimalSpec, d: Decimal)
    requires spec.decimalPlaces <= spec.maxDigits
    requires DecimalField(spec, Given(Finite(d))).Accepted?
    ensures d.exponent + spec.decimalPlaces >= 0
    ensures var u := DecimalField(spec, Given(Finite(d))).value;
      -(Pow10(spec.maxDigits) as int) < u < Pow10(spec.maxDigits)
  {
    var p := PrecisionOf(d);
    assert p.places <= spec.decimalPlaces && p.whole + spec.decimalPlaces <= spec.maxDigits;
    PrecisionShift(d, spec.maxDigits, spec.decimalPlaces);
    var n := |NatDigits(d.coefficient)|;
    var shift := d.exponent + spec.decimalPlaces;
    DigitsValueBound(NatDigits(d.coefficient));
    ShiftBound(d.coefficient, n, shift);
    Pow10Monotone(n + shift, spec.maxDigits);
    UnitsBound(d, spec.decimalPlaces, Pow10(spec.maxDigits));
    assert DecimalField(spec, Given(Finite(d))).value == Units(d, spec.decimalPlaces);
  }

  lemma UnitsBound(d: Decimal, places: nat, bound: nat)
    requires d.exponent + places >= 0 && d.coefficient * Pow10(d.exponent + places) < bound
    ensures -(bound as int) < Units(d, places) < bound
  {
  }

  lemma PrecisionShift(d: Decimal, maxDigits: nat, places: nat)
    requires var p := PrecisionOf(d); p.places <= places && p.whole + places <= maxDigits
    ensures d.exponent + places >= 0
    ensures |NatDigits(d.coefficient)| + d.exponent + places <= maxDigits
  {
  }

  /** The amount written with exactly `decimal_places` fraction digits, as a
      client sends it. */
  function Canonical(u: int, places: nat): Decimal
  {
    Decimal(u < 0, if u < 0 then -u else u, -(places as int))
  }

  /** Every value of fewer than `10^max_digits` units, written with exactly
      `decimal_places` fraction digits, is accepted as that value. */
  lemma {:induction false} DecimalFieldComplete(spec: DecimalSpec, u: int)
    requires 1 <= spec.maxDigits && spec.decimalPlaces <= spec.maxDigits
    requires -(Pow10(spec.maxDigits) as int) < u < Pow10(spec.maxDigits)
    ensures DecimalField(spec, Given(Finite(Canonical(u, spec.decimalPlaces)))) == Accepted(u)
  {
    var d := Canonical(u, spec.decimalPlaces);
    NatDigitsLength(d.coefficient, spec.maxDigits);
    assert Pow10(0) == 1;
  }

  /** The tax rate's limits: 999.99 is taken, 1000.00 is refused with
      `max_digits`, and 1.000 is refused with `max_decimal_places` although
      it equals 1, because trailing zeros count as digits. */
  lemma TaxRateBoundaries()
    ensures DecimalField(TaxRateSpec, Given(Finite(Decimal(false, 99999, -2)))) == Accepted(99999)
    ensures DecimalField(TaxRateSpec, Given(Finite(Decimal(false, 100000, -2)))) == Rejected([MaxDigits])
    ensures DecimalField(TaxRateSpec, Given(Finite(Decimal(false, 1000, -3)))) == Rejected([MaxDecimalPlaces])
  {
    assert Pow10(5) == 100000 by {
      assert Pow10(2) == 100;
    }
    DecimalFieldComplete(TaxRateSpec, 99999);
    assert Pow10(6) == 1000000 && Pow10(4) == 10000 && Pow10(3) == 1000;
    NatDigitsLengthExact(100000, 6);
    NatDigitsLengthExact(1000, 4);
  }

  // ------------------------------------------------------------ DateField

  /** `DateField` with the ISO 8601 input format: a missing key and `null`
      are errors; given text must be a `YYYY-MM-DD` calendar day in years
      1 to 9999. */
  function DateField(input: Field<string>): Check<Date>
  {
    match input
    case Absent => Rejected([Required])
    case Null => Rejected([NullValue])
    case Given(s) =>
      var parsed := ParseIsoDate(s);
      if parsed.Some? && parsed.value.year >= 1 then Accepted(parsed.value) else Rejected([Invalid])
  }

  /** An accepted date is a calendar day of years 1 to 9999 whose
      `YYYY-MM-DD` writing is exactly the text sent. */
  lemma DateFieldSound(s: string)
    requires DateField(Given(s)).Accepted?
    ensures var d := DateField(Given(s)).value;
      ValidDate(d) && d.year >= 1 && FormatIsoDate(d) == s
  {
    var d := DateField(Given(s)).value;
    assert ParseIsoDate(s) == Some(d);
    ParseIsoDateSound(s, d);
  }

  /** Every calendar day of years 1 to 9999, written `YYYY-MM-DD`, is
      accepted as that day. */
  lemma DateFieldComplete(d: Date)
    requires ValidDate(d) && d.year >= 1
    ensures DateField(Given(FormatIsoDate(d))) == Accepted(d)
  {
    ParseFormatIsoDate(d);
    DateFieldOfParsed(FormatIsoDate(d), d);
  }

  lemma DateFieldOfParsed(s: string, d: Date)
    requires ParseIsoDate(s) == Some(d) && d.year >= 1
    ensures DateField(Given(s)) == Accepted(d)
  {
  }

  // ---------------------------------------------------------- the payload

  /** An item as submitted; its fields are checked by the item model's
      serializer, which is not part of this model. */
  datatype ItemPayload = ItemPayload(description: string, quantity: DecimalInput, rate: DecimalInput, amount: DecimalInput)

  /** The list field `items`: required, not `null`, possibly empty. */
  function ItemsField(input: Field<seq<ItemPayload>>): Check<seq<ItemPayload>>
  {
    match input
    case Absent => Rejected([Required])
    case Null => Rejected([NullValue])
    case Given(items) => Accepted(items)
  }

  datatype CreatePayload = CreatePayload(
    companyName: Field<string>, companyAddress: Field<string>, companyCity: Field<string>,
    companyState: Field<string>, companyZipCode: Field<string>, companyCountry: Field<string>,
    companyEmail: Field<string>, companyPhone: Field<string>,
    clientName: Field<string>, clientAddress: Field<string>, clientCity: Field<string>,
    clientState: Field<string>, clientZipCode: Field<string>, clientCountry: Field<string>,
    clientEmail: Field<string>, clientPhone: Field<string>,
    invoiceNumber: Field<string>, invoiceDate: Field<string>, dueDate: Field<string>,
    subtotal: Field<DecimalInput>, taxRate: Field<DecimalInput>,
    taxAmount: Field<DecimalInput>, total: Field<DecimalInput>,
    notes: Field<string>, items: Field<seq<ItemPayload>>)

  /** The errors of one field, keyed by its name. */
  datatype FieldErrors = FieldErrors(field: string, codes: seq<ErrorCode>)

  function Report<T>(name: string, c: Check<T>): seq<FieldErrors>
  {
    if c.Rejected? then [FieldErrors(name, c.codes)] else []
  }

  /** The optional text fields, with their keys, in declaration order. */
  function OptionalFields(p: CreatePayload): seq<(string, Field<string>)>
  {
    [ ("company_address", p.companyAddress), ("company_city", p.companyCity),
      ("company_state", p.companyState), ("company_zip_code", p.companyZipCode),
      ("company_country", p.companyCountry), ("company_email", p.companyEmail),
      ("company_phone", p.companyPhone),
      ("client_address", p.clientAddress), ("client_city", p.clientCity),
      ("client_state", p.clientState), ("client_zip_code", p.clientZipCode),
      ("client_country", p.clientCountry), ("client_email", p.clientEmail),
      ("client_phone", p.clientPhone), ("notes", p.notes) ]
  }

  function OptionalErrors(fields: seq<(string, Field<string>)>): seq<FieldErrors>
  {
    if fields == [] then []
    else Report(fields[0].0, CharField(OptionalText, fields[0].1)) + OptionalErrors(fields[1..])
  }

  /** `serializer.errors`: every failing field with its codes. The required
      fields come first here; the grouping does not change which fields
      fail. */
  function Validate(p: CreatePayload): seq<FieldErrors>
  {
    Report("company_name", CharField(NameSpec, p.companyName))
    + Report("client_name", CharField(NameSpec, p.clientName))
    + Report("invoice_number", CharField(InvoiceNumberSpec, p.invoiceNumber))
    + Report("invoice_date", DateField(p.invoiceDate))
    + Report("due_date", DateField(p.dueDate))
    + Report("subtotal", DecimalField(AmountSpec, p.subtotal))
    + Report("tax_rate", DecimalField(TaxRateSpec, p.taxRate))
    + Report("tax_amount", DecimalField(AmountSpec, p.taxAmount))
    + Report("total", DecimalField(AmountSpec, p.total))
    + Report("items", ItemsField(p.items))
    + OptionalErrors(OptionalFields(p))
  }

  /** An optional text field fails only on `null` or on text holding a NUL
      character. */
  lemma OptionalTextIff(input: Field<string>)
    ensures CharField(OptionalText, input).Rejected? <==>
      input.Null? || (input.Given? && '\0' in Strip(input.value))
  {
  }

  lemma {:induction false} OptionalErrorsEmpty(fields: seq<(string, Field<string>)>)
    ensures OptionalErrors(fields) == [] <==>
      forall i :: 0 <= i < |fields| ==> !CharField(OptionalText, fields[i].1).Rejected?
  {
    if fields != [] {
      OptionalErrorsEmpty(fields[1..]);
      assert forall i :: 1 <= i < |fields| ==> fields[i] == fields[1..][i - 1];
    }
  }

  /** Every field passes its own check and the item list is present. */
  predicate FieldsPass(p: CreatePayload)
  {
    && !CharField(NameSpec, p.companyName).Rejected?
    && !CharField(NameSpec, p.clientName).Rejected?
    && !CharField(InvoiceNumberSpec, p.invoiceNumber).Rejected?
    && !DateField(p.invoiceDate).Rejected? && !DateField(p.dueDate).Rejected?
    && !DecimalField(AmountSpec, p.subtotal).Rejected?
    && !DecimalField(TaxRateSpec, p.taxRate).Rejected?
    && !DecimalField(AmountSpec, p.taxAmount).Rejected?
    && !DecimalField(AmountSpec, p.total).Rejected?
    && p.items.Given?
    && forall i :: 0 <= i < |OptionalFields(p)| ==> !CharField(OptionalText, OptionalFields(p)[i].1).Rejected?
  }

  lemma ConcatEmpty(a: seq<FieldErrors>, b: seq<FieldErrors>, c: seq<FieldErrors>, d: seq<FieldErrors>,
                    e: seq<FieldErrors>, f: seq<FieldErrors>, g: seq<FieldErrors>, h: seq<FieldErrors>,
                    i: seq<FieldErrors>, j: seq<FieldErrors>, k: seq<FieldErrors>)
    ensures a + b + c + d + e + f + g + h + i + j + k == [] <==>
      a == [] && b == [] && c == [] && d == [] && e == [] && f == [] && g == [] && h == [] && i == [] && j == [] && k == []
  {
  }

  /** `Validate` is empty exactly when each field's report is. */
  lemma ValidateParts(p: CreatePayload)
    ensures Validate(p) == [] <==>
      && Report("company_name", CharField(NameSpec, p.companyName)) == []
      && Report("client_name", CharField(NameSpec, p.clientName)) == []
      && Report("invoice_number", CharField(InvoiceNumberSpec, p.invoiceNumber)) == []
      && Report("invoice_date", DateField(p.invoiceDate)) == []
      && Report("due_date", DateField(p.dueDate)) == []
      && Report("subtotal", DecimalField(AmountSpec, p.subtotal)) == []
      && Report("tax_rate", DecimalField(TaxRateSpec, p.taxRate)) == []
      && Report("tax_amount", DecimalField(AmountSpec, p.taxAmount)) == []
      && Report("total", DecimalField(AmountSpec, p.total)) == []
      && Report("items", ItemsField(p.items)) == []
      && OptionalErrors(OptionalFields(p)) == []
  {
    ConcatEmpty(Report("company_name", CharField(NameSpec, p.companyName)),
                Report("client_name", CharField(NameSpec, p.clientName)),
                Report("invoice_number", CharField(InvoiceNumberSpec, p.invoiceNumber)),
                Report("invoice_date", DateField(p.invoiceDate)),
                Report("due_date", DateField(p.dueDate)),
                Report("subtotal", DecimalField(AmountSpec, p.subtotal)),
                Report("tax_rate", DecimalField(TaxRateSpec, p.taxRate)),
                Report("tax_amount", DecimalField(AmountSpec, p.taxAmount)),
                Report("total", DecimalField(AmountSpec, p.total)),
                Report("items", ItemsField(p.items)),
                OptionalErrors(OptionalFields(p)));
  }

  /** Each field's report is empty exactly when it passes. */
  lemma ReportsEmpty(p: CreatePayload)
    ensures Report("company_name", CharField(NameSpec, p.companyName)) == [] <==> !CharField(NameSpec, p.companyName).Rejected?
    ensures Report("client_name", CharField(NameSpec, p.clientName)) == [] <==> !CharField(NameSpec, p.clientName).Rejected?
    ensures Report("invoice_number", CharField(InvoiceNumberSpec, p.invoiceNumber)) == [] <==> !CharField(InvoiceNumberSpec, p.invoiceNumber).Rejected?
    ensures Report("invoice_date", DateField(p.invoiceDate)) == [] <==> !DateField(p.invoiceDate).Rejected?
    ensures Report("due_date", DateField(p.dueDate)) == [] <==> !DateField(p.dueDate).Rejected?
    ensures Report("subtotal", DecimalField(AmountSpec, p.subtotal)) == [] <==> !DecimalField(AmountSpec, p.subtotal).Rejected?
    ensures Report("tax_rate", DecimalField(TaxRateSpec, p.taxRate)) == [] <==> !DecimalField(TaxRateSpec, p.taxRate).Rejected?
    ensures Report("tax_amount", DecimalField(AmountSpec, p.taxAmount)) == [] <==> !DecimalField(AmountSpec, p.taxAmount).Rejected?
    ensures Report("total", DecimalField(AmountSpec, p.total)) == [] <==> !DecimalField(AmountSpec, p.total).Rejected?
    ensures Report("items", ItemsField(p.items)) == [] <==> p.items.Given?
  {
  }

  /** The payload is valid exactly when no field is rejected and the item
      list is present. */
  lemma ValidateIff(p: CreatePayload)
    ensures Validate(p) == [] <==> FieldsPass(p)
  {
    ValidateParts(p);
    ReportsEmpty(p);
    OptionalErrorsEmpty(OptionalFields(p));
  }

  /** The due date may come before the invoice date: swapping the two never
      changes the verdict. */
  lemma DatesUnordered(p: CreatePayload)
    ensures Validate(p) == [] <==> Validate(p.(invoiceDate := p.dueDate, dueDate := p.invoiceDate)) == []
  {
    var q := p.(invoiceDate := p.dueDate, dueDate := p.invoiceDate);
    ValidateIff(p);
    ValidateIff(q);
    assert OptionalFields(p) == OptionalFields(q);
  }

  /** An optional text field left out or sent blank passes. */
  lemma BlankOptionalPasses(blank: Field<string>)
    requires blank == Absent || blank == Given("")
    ensures !CharField(OptionalText, blank).Rejected?
  {
    if blank.Given? {
      assert Strip(blank.value) == "";
    }
  }

  lemma OptionalFieldsAre(q: CreatePayload, blank: Field<string>)
    requires q.companyAddress == q.companyCity == q.companyState == q.companyZipCode == blank
    requires q.companyCountry == q.companyEmail == q.companyPhone == q.clientAddress == blank
    requires q.clientCity == q.clientState == q.clientZipCode == q.clientCountry == blank
    requires q.clientEmail == q.clientPhone == q.notes == blank
    ensures forall i :: 0 <= i < |OptionalFields(q)| ==> OptionalFields(q)[i].1 == blank
  {
    var fs := OptionalFields(q);
    forall i | 0 <= i < |fs|
      ensures fs[i].1 == blank
    {
      if i < 8 {
        if i < 4 {} else {}
      } else {
        if i < 12 {} else {}
      }
    }
  }

  /** Every optional text field may be left out or sent blank. */
  lemma OptionalFieldsMayBeBlank(p: CreatePayload, blank: Field<string>)
    requires Validate(p) == []
    requires blank == Absent || blank == Given("")
    ensures var q := p.(companyAddress := blank, companyCity := blank, companyState := blank,
                        companyZipCode := blank, companyCountry := blank, companyEmail := blank,
                        companyPhone := blank, clientAddress := blank, clientCity := blank,
                        clientState := blank, clientZipCode := blank, clientCountry := blank,
                        clientEmail := blank, clientPhone := blank, notes := blank);
      Validate(q) == []
  {
    var q := p.(companyAddress := blank, companyCity := blank, companyState := blank,
                companyZipCode := blank, companyCountry := blank, companyEmail := blank,
                companyPhone := blank, clientAddress := blank, clientCity := blank,
                clientState := blank, clientZipCode := blank, clientCountry := blank,
                clientEmail := blank, clientPhone := blank, notes := blank);
    ValidateIff(p);
    BlankOptionalPasses(blank);
    OptionalFieldsAre(q, blank);
    assert FieldsPass(q);
    ValidateIff(q);
  }
}
