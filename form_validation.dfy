/** Client-side field validation of the invoice form, as react-hook-form
    applies the rules each input is registered with. The two form components
    register the same fields with different rule tables. */
module FormValidation {
  import opened Common
  import opened InvoiceTypes

  /** `required` and `maxLength` of a text input, each with its message. */
  datatype TextRule = TextRule(required: Option<string>, maxLength: Option<(nat, string)>)

  /** `required`, `min` and `max` of a numeric input read with `valueAsNumber`;
      bounds are in hundredths. */
  datatype NumberRule = NumberRule(required: Option<string>, min: Option<(int, string)>, max: Option<(int, string)>)

  const NoRule := TextRule(None, None)

  /** The message shown under a text input, if any: an empty value fails
      `required` (and skips `maxLength`); a longer one fails `maxLength`. */
  function TextError(rule: TextRule, value: string): Option<string>
  {
    if value == "" then rule.required
    else match rule.maxLength
      case Some((n, msg)) => if |value| > n then Some(msg) else None
      case None => None
  }

  /** The message shown under a numeric input, if any: a blank field (NaN)
      fails `required` and skips `min`/`max`; otherwise `max` is checked
      before `min`. */
  function NumberError(rule: NumberRule, value: NumInput): Option<string>
  {
    match value
    case NaN => rule.required
    case Fixed(h) =>
      if rule.max.Some? && h > rule.max.value.0 then Some(rule.max.value.1)
      else if rule.min.Some? && h < rule.min.value.0 then Some(rule.min.value.1)
      else None
  }

  /** The rule each registered input uses. */
  datatype RuleTable = RuleTable(
    companyName: TextRule,
    billTo: TextRule,
    invoiceNumber: TextRule,
    invoiceDate: TextRule,
    dueDate: TextRule,
    city: TextRule,
    state: TextRule,
    zipCode: TextRule,
    country: TextRule,
    phone: TextRule,
    itemDescription: TextRule,
    quantity: NumberRule,
    rate: NumberRule,
    taxRate: NumberRule)

  /** The `validationRules` table of the form under `frontend/`, with the
      inline `required` rules of the two date inputs. */
  const FrontendRules := RuleTable(
    companyName := TextRule(Some("Company name is required"), Some((200, "Company name cannot exceed 200 characters"))),
    billTo := TextRule(Some("Bill to name is required"), Some((200, "Client name cannot exceed 200 characters"))),
    invoiceNumber := TextRule(Some("Invoice number is required"), Some((50, "Invoice number cannot exceed 50 characters"))),
    invoiceDate := TextRule(Some("Invoice date is required"), None),
    dueDate := TextRule(Some("Due date is required"), None),
    city := TextRule(None, Some((100, "City cannot exceed 100 characters"))),
    state := TextRule(None, Some((100, "State cannot exceed 100 characters"))),
    zipCode := TextRule(None, Some((20, "ZIP code cannot exceed 20 characters"))),
    country := TextRule(None, Some((100, "Country cannot exceed 100 characters"))),
    phone := TextRule(None, Some((20, "Phone number cannot exceed 20 characters"))),
    itemDescription := TextRule(Some("Description is required"), Some((500, "Description cannot exceed 500 characters"))),
    quantity := NumberRule(Some("Quantity is required"),
                           Some((1, "Quantity must be greater than 0")),
                           Some((99999999, "Quantity cannot exceed 999,999.99"))),
    rate := NumberRule(Some("Rate is required"),
                       Some((0, "Rate cannot be negative")),
                       Some((9999999999, "Rate cannot exceed 99,999,999.99"))),
    taxRate := NumberRule(None,
                          Some((0, "Tax rate cannot be negative")),
                          Some((10000, "Tax rate cannot exceed 100%"))))

  /** The inline rules of the form under `src/`: `required` only, lower
      bounds on quantity and rate, and no length or upper bounds. */
  const SrcRules := RuleTable(
    companyName := TextRule(Some("Company name is required"), None),
    billTo := TextRule(Some("Bill to name is required"), None),
    invoiceNumber := TextRule(Some("Invoice number is required"), None),
    invoiceDate := TextRule(Some("Invoice date is required"), None),
    dueDate := TextRule(Some("Due date is required"), None),
    city := NoRule,
    state := NoRule,
    zipCode := NoRule,
    country := NoRule,
    phone := NoRule,
    itemDescription := TextRule(Some("Description is required"), None),
    quantity := NumberRule(Some("Quantity is required"), Some((1, "Quantity must be greater than 0")), None),
    rate := NumberRule(Some("Rate is required"), Some((0, "Rate must be 0 or greater")), None),
    taxRate := NumberRule(None,
                          Some((0, "Tax rate must be 0 or greater")),
                          Some((10000, "Tax rate cannot exceed 100%"))))

  /** An entry of react-hook-form's `errors`: the field path and its message. */
  datatype FieldError = FieldError(path: string, message: string)

  function Report(path: string, e: Option<string>): seq<FieldError>
  {
    if e.Some? then [FieldError(path, e.value)] else []
  }

  function RowErrors(item: InvoiceItem, index: nat, t: RuleTable): seq<FieldError>
  {
    var prefix := "items." + NatToString(index) + ".";
    Report(prefix + "description", TextError(t.itemDescription, item.description))
    + Report(prefix + "quantity", NumberError(t.quantity, item.quantity))
    + Report(prefix + "rate", NumberError(t.rate, item.rate))
  }

  function ItemErrors(items: seq<InvoiceItem>, t: RuleTable, from: nat): seq<FieldError>
    decreases |items| - from
  {
    if from >= |items| then [] else RowErrors(items[from], from, t) + ItemErrors(items, t, from + 1)
  }

  /** Every failing field of the record, in the order the inputs are
      registered; the form submits only when this is empty. */
  function Validate(f: InvoiceForm, t: RuleTable): seq<FieldError>
  {
    var c, b := f.companyDetails, f.billingInfo;
    Report("companyDetails.name", TextError(t.companyName, c.name))
    + Report("companyDetails.city", TextError(t.city, c.city))
    + Report("companyDetails.state", TextError(t.state, c.state))
    + Report("companyDetails.zipCode", TextError(t.zipCode, c.zipCode))
    + Report("companyDetails.country", TextError(t.country, c.country))
    + Report("companyDetails.phone", TextError(t.phone, c.phone))
    + Report("invoiceNumber", TextError(t.invoiceNumber, f.invoiceNumber))
    + Report("invoiceDate", TextError(t.invoiceDate, f.invoiceDate))
    + Report("dueDate", TextError(t.dueDate, f.dueDate))
    + Report("billingInfo.billTo", TextError(t.billTo, b.billTo))
    + Report("billingInfo.city", TextError(t.city, b.city))
    + Report("billingInfo.state", TextError(t.state, b.state))
    + Report("billingInfo.zipCode", TextError(t.zipCode, b.zipCode))
    + Report("billingInfo.country", TextError(t.country, b.country))
    + Report("billingInfo.phone", TextError(t.phone, b.phone))
    + ItemErrors(f.items, t, 0)
    + Report("taxRate", NumberError(t.taxRate, f.taxRate))
  }

  predicate RowPasses(item: InvoiceItem, t: RuleTable)
  {
    TextError(t.itemDescription, item.description).None?
    && NumberError(t.quantity, item.quantity).None?
    && NumberError(t.rate, item.rate).None?
  }

  lemma {:induction false} ItemErrorsEmpty(items: seq<InvoiceItem>, t: RuleTable, from: nat)
    ensures ItemErrors(items, t, from) == [] <==> forall i :: from <= i < |items| ==> RowPasses(items[i], t)
    decreases |items| - from
  {
    if from < |items| {
      ItemErrorsEmpty(items, t, from + 1);
    }
  }

  /** The record passes a table exactly when no single field fails it. */
  lemma ValidateEmpty(f: InvoiceForm, t: RuleTable)
    ensures Validate(f, t) == [] <==>
      && TextError(t.companyName, f.companyDetails.name).None?
      && TextError(t.city, f.companyDetails.city).None?
      && TextError(t.state, f.companyDetails.state).None?
      && TextError(t.zipCode, f.companyDetails.zipCode).None?
      && TextError(t.country, f.companyDetails.country).None?
      && TextError(t.phone, f.companyDetails.phone).None?
      && TextError(t.invoiceNumber, f.invoiceNumber).None?
      && TextError(t.invoiceDate, f.invoiceDate).None?
      && TextError(t.dueDate, f.dueDate).None?
      && TextError(t.billTo, f.billingInfo.billTo).None?
      && TextError(t.city, f.billingInfo.city).None?
      && TextError(t.state, f.billingInfo.state).None?
      && TextError(t.zipCode, f.billingInfo.zipCode).None?
      && TextError(t.country, f.billingInfo.country).None?
      && TextError(t.phone, f.billingInfo.phone).None?
      && (forall i :: 0 <= i < |f.items| ==> RowPasses(f.items[i], t))
      && NumberError(t.taxRate, f.taxRate).None?
  {
    ItemErrorsEmpty(f.items, t, 0);
  }

  /** What the frontend rule table demands of a record, field by field. */
  predicate FrontendAccepts(f: InvoiceForm)
  {
    var c, b := f.companyDetails, f.billingInfo;
    && 1 <= |c.name| <= 200 && 1 <= |b.billTo| <= 200
    && 1 <= |f.invoiceNumber| <= 50
    && f.invoiceDate != "" && f.dueDate != ""
    && |c.city| <= 100 && |c.state| <= 100 && |c.country| <= 100 && |c.zipCode| <= 20 && |c.phone| <= 20
    && |b.city| <= 100 && |b.state| <= 100 && |b.country| <= 100 && |b.zipCode| <= 20 && |b.phone| <= 20
    && (forall i :: 0 <= i < |f.items| ==> FrontendRowAccepts(f.items[i]))
    && (f.taxRate.NaN? || 0 <= f.taxRate.hundredths <= 10000)
  }

  /** What the inline rules of the `src/` form demand: presence and lower
      bounds only. */
  predicate SrcAccepts(f: InvoiceForm)
  {
    && f.companyDetails.name != "" && f.billingInfo.billTo != ""
    && f.invoiceNumber != "" && f.invoiceDate != "" && f.dueDate != ""
    && (forall i :: 0 <= i < |f.items| ==> SrcRowAccepts(f.items[i]))
    && (f.taxRate.NaN? || 0 <= f.taxRate.hundredths <= 10000)
  }

  /** The frontend form submits exactly the records that meet every bound:
      names 1-200 characters, invoice number 1-50, descriptions 1-500, city,
      state and country at most 100, ZIP code and phone at most 20, quantity
      in [0.01, 999999.99], rate in [0, 99999999.99], tax rate blank or in
      [0, 100], and both dates present. */
  lemma FrontendValidationIff(f: InvoiceForm)
    ensures Validate(f, FrontendRules) == [] <==> FrontendAccepts(f)
  {
    ValidateEmpty(f, FrontendRules);
    forall i | 0 <= i < |f.items|
      ensures RowPasses(f.items[i], FrontendRules) <==> FrontendRowAccepts(f.items[i])
    {
      FrontendRowIff(f.items[i]);
    }
  }

  predicate FrontendRowAccepts(item: InvoiceItem)
  {
    && 1 <= |item.description| <= 500
    && item.quantity.Fixed? && 1 <= item.quantity.hundredths <= 99999999
    && item.rate.Fixed? && 0 <= item.rate.hundredths <= 9999999999
  }

  lemma FrontendRowIff(item: InvoiceItem)
    ensures RowPasses(item, FrontendRules) <==> FrontendRowAccepts(item)
  {
  }

  /** The `src/` form submits exactly the records with every required field
      present, quantity at least 0.01, rate at least 0 and the tax rate blank
      or in [0, 100]. */
  lemma SrcValidationIff(f: InvoiceForm)
    ensures Validate(f, SrcRules) == [] <==> SrcAccepts(f)
  {
    ValidateEmpty(f, SrcRules);
    forall i | 0 <= i < |f.items|
      ensures RowPasses(f.items[i], SrcRules) <==> SrcRowAccepts(f.items[i])
    {
      SrcRowIff(f.items[i]);
    }
  }

  predicate SrcRowAccepts(item: InvoiceItem)
  {
    && item.description != ""
    && item.quantity.Fixed? && item.quantity.hundredths >= 1
    && item.rate.Fixed? && item.rate.hundredths >= 0
  }

  lemma SrcRowIff(item: InvoiceItem)
    ensures RowPasses(item, SrcRules) <==> SrcRowAccepts(item)
  {
  }

  /** Every record the frontend form submits, the `src/` form submits too. */
  lemma FrontendStricterThanSrc(f: InvoiceForm)
    requires Validate(f, FrontendRules) == []
    ensures Validate(f, SrcRules) == []
  {
    FrontendValidationIff(f);
    SrcValidationIff(f);
  }

  /** The `src/` form puts no upper bound on the company name: any non-empty
      name leaves its verdict unchanged, while the frontend form rejects a
      name of 201 characters. */
  lemma SrcHasNoLengthBound(f: InvoiceForm, name: string)
    requires name != ""
    ensures Validate(f.(companyDetails := f.companyDetails.(name := name)), SrcRules) == Validate(f, SrcRules)
              || f.companyDetails.name == ""
    ensures |name| > 200 ==> Validate(f.(companyDetails := f.companyDetails.(name := name)), FrontendRules) != []
  {
    var g := f.(companyDetails := f.companyDetails.(name := name));
    if |name| > 200 {
      FrontendValidationIff(g);
    }
  }
}
