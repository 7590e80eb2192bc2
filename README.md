# invoice-generator: a verified model of the invoice form, the invoice document and the backend serializers

This project models the core of the invoice generator, in which a user fills in an invoice in a
React form and gets a one-page PDF. A Django REST backend checks and stores the invoices.

**Form and totals (`InvoiceTypes`, `Calculation`, `InvoiceEditor`).** There are two near-identical
form components, under `frontend/` and `src/`. Both keep an invoice record (`InvoiceFormState`) with:
- an item list that is never empty;
- three derived totals: subtotal, tax amount and total.

After every edit of an item or of the tax rate, a recompute effect does three things:
- it writes each item's amount as quantity × rate;
- it writes the subtotal as the sum of those amounts;
- it writes the tax as subtotal × rate / 100, and the total as subtotal + tax.

A blank or zero input counts as 0. The code never rounds stored values: amounts and totals are exact
products and sums, modelled as exact reals. Rounding to two places happens only where a value is shown
(`toFixed(2)`). Quantities, rates and the tax rate are typed into `step="0.01"` inputs. They are
modelled as whole hundredths, or NaN for a blank input.

**Client-side validation (`FormValidation`).** Each form registers every input with a rule table:
- required, with its message;
- a maximum length;
- a numeric minimum and maximum.

The frontend form has length and upper bounds. The `src/` form has only presence checks and lower
bounds.

**Document (`Formatters`, `IsoDate`, `InvoiceDocument`).** The document is a pure function from a
submitted record to a list of sections in page order. It uses three formatters:
- `formatCurrency`: `$` followed by `toFixed(2)`;
- `formatAddress`: the non-empty address lines joined by newlines;
- `formatDate`: a `YYYY-MM-DD` calendar day is shown as "MMMM dd, yyyy", and any other string is
  shown unchanged.

Each number rendering is proved against a decimal reader that reads the text back.

**Backend (`CreateSerializer`, `InvoiceStore`).** `InvoiceCreateSerializer` is modelled with Django
REST framework's field semantics:
- `CharField`: strip, blank, null, required, `max_length`, NUL characters;
- `DecimalField`: `max_digits` and `decimal_places` over the decimal's digit tuple;
- `DateField`: ISO 8601 only.

The payload is valid exactly when no field reports an error.

`InvoiceSerializer.create` and `update` are methods of a `Store` class. The class holds the invoice
table and the item table. An invoice's items are the item rows pointing at it, in creation order.

The defining functions (`Calculation.Recomputed`, `Formatters.FormatCurrency`, `FormatAddress` and
`FormatDate`, `InvoiceDocument.Build`, `CreateSerializer.CharField`, `DecimalField`, `DateField` and
`Validate`, `FormValidation.Validate`) follow the source branch for branch. The table below lists the
lemmas and methods whose contracts state what those definitions guarantee.

## Model

| member | source | states |
|---|---|---|
| Calculation.DefaultForm | frontend/src/components/InvoiceForm.tsx:11-41 | a fresh record has one item (quantity 1, rate 0), tax rate 0, subtotal, tax and total 0, the two given dates, and already satisfies the derived-field invariant |
| Calculation.DefaultInvoiceNumber | frontend/src/components/InvoiceForm.tsx:32 | the default invoice number is `INV-` followed by digits that read back as the clock reading |
| Calculation.RecomputedIsConsistent | frontend/src/components/InvoiceForm.tsx:52-70 | after a recompute, every amount is quantity × rate (blank as 0), the subtotal is the sum of the amounts, tax is subtotal × rate / 100 and total is subtotal + tax, whatever the derived fields held before |
| Calculation.SubtotalIsSumOfAmounts | frontend/src/components/InvoiceForm.tsx:54-69 | the subtotal the effect computes equals the sum of the amounts it writes |
| Calculation.SubtotalIgnoresAmounts | frontend/src/components/InvoiceForm.tsx:54-57 | the subtotal reads only quantities and rates, never the stored amounts |
| Calculation.SubtotalPermutation | frontend/src/components/InvoiceForm.tsx:54-57 | the subtotal does not depend on the order of the items |
| Calculation.SubtotalAppend | src/components/InvoiceForm.tsx:55-58 | the subtotal of two lists joined is the sum of their subtotals |
| Calculation.ConsistentIsFixpoint | frontend/src/components/InvoiceForm.tsx:52-70 | a record satisfies the derived-field invariant exactly when recomputing it changes nothing |
| Calculation.RecomputeIdempotent | src/components/InvoiceForm.tsx:53-72 | recomputing twice gives the same record as recomputing once |
| Calculation.RecomputeReadsOnlyInputs | src/components/InvoiceForm.tsx:53-72 | records that agree on quantities, rates and tax rate get the same amounts, subtotal, tax and total |
| Calculation.AppendBlankKeepsConsistent | frontend/src/components/InvoiceForm.tsx:72-80 | appending the blank row to a consistent record keeps it consistent |
| InvoiceEditor.RemoveItemSpec | frontend/src/components/InvoiceForm.tsx:82-86 | with more than one row, removal deletes exactly the row at the index and shifts the later ones down in order; with one row, or an index past the end, the list is unchanged; the list never becomes empty |
| InvoiceEditor.RemoveUndoesAdd | src/components/InvoiceForm.tsx:74-88 | removing the row `addItem` just appended gives back the previous list |
| InvoiceEditor.InvoiceFormState.constructor | frontend/src/components/InvoiceForm.tsx:10-42 | the form starts from the default record, with a non-empty item list and consistent totals |
| InvoiceEditor.InvoiceFormState.Recompute | frontend/src/components/InvoiceForm.tsx:52-70 | the loop of `setValue` calls leaves the state equal to the recomputed record, which is consistent |
| InvoiceEditor.InvoiceFormState.AddItem | frontend/src/components/InvoiceForm.tsx:52-80 | appends one blank row (quantity 1, rate 0, amount 0) at the end and the triggered recompute leaves the record consistent; a record that was consistent before changes in nothing but the new row, since a blank row adds 0 to every total |
| InvoiceEditor.InvoiceFormState.RemoveItem | frontend/src/components/InvoiceForm.tsx:52-86 | with more than one row, removes the row at the index and the triggered recompute leaves the record consistent, with the subtotal lowered by exactly the removed row's amount; with one row nothing changes; a consistent record stays consistent |
| InvoiceEditor.RemoveRecomputeSubtotal | frontend/src/components/InvoiceForm.tsx:52-86 | after a row is removed, the recomputed subtotal is the old one less that row's amount |
| InvoiceEditor.InvoiceFormState.EditItem | frontend/src/components/InvoiceForm.tsx:392-425 | an edit of one row's inputs sets them, keeps the row's id, every other row's inputs and every other field of the record, and the triggered recompute leaves the record consistent |
| InvoiceEditor.InvoiceFormState.SetTaxRate | frontend/src/components/InvoiceForm.tsx:466-470 | an edit of the tax rate, followed by the recompute, gives the recomputed record with the new rate |
| FormValidation.ItemErrorsEmpty | frontend/src/components/InvoiceForm.tsx:392-425 | the item rows report no error exactly when every row passes its description, quantity and rate rules |
| FormValidation.ValidateEmpty | frontend/src/components/InvoiceForm.tsx:88-134 | a record passes a rule table exactly when no registered input fails its rule |
| FormValidation.FrontendRowIff | frontend/src/components/InvoiceForm.tsx:116-129 | a row passes exactly when the description is 1-500 characters, quantity is in [0.01, 999999.99] and rate is in [0, 99999999.99] |
| FormValidation.FrontendValidationIff | frontend/src/components/InvoiceForm.tsx:88-134 | the frontend form accepts exactly the records with names of 1-200 characters, an invoice number of 1-50, city, state and country at most 100, ZIP code and phone at most 20, valid rows, a blank tax rate or one in [0, 100], and both dates present |
| FormValidation.SrcRowIff | src/components/InvoiceForm.tsx:289-313 | a row of the `src/` form passes exactly when it has a description, quantity at least 0.01 and rate at least 0 |
| FormValidation.SrcValidationIff | src/components/InvoiceForm.tsx:105-355 | the `src/` form accepts exactly the records with every required field present, valid rows and a blank tax rate or one in [0, 100] |
| FormValidation.FrontendStricterThanSrc | frontend/src/components/InvoiceForm.tsx:88-134 | every record the frontend form accepts, the `src/` form accepts too |
| FormValidation.SrcHasNoLengthBound | src/components/InvoiceForm.tsx:105 | the `src/` form puts no upper bound on the company name, while the frontend form rejects one of 201 characters |
| Formatters.RoundedCents | frontend/src/components/InvoicePDF.tsx:174 | `toFixed(2)` writes the nearest whole number of hundredths, within half a hundredth |
| Formatters.ToFixed2Nearest | frontend/src/components/InvoicePDF.tsx:174 | the text `toFixed(2)` writes reads back as a value within half a hundredth of the number |
| Formatters.CentsTextShape | frontend/src/components/InvoicePDF.tsx:174 | a number of hundredths is written with an integer part without leading zeros, a point and exactly two fraction digits |
| Formatters.ToFixed2Shape | frontend/src/components/InvoicePDF.tsx:174 | `toFixed(2)` writes a minus sign exactly for a negative number, then the magnitude with exactly two fraction digits |
| Formatters.ToFixed2Cents | frontend/src/components/InvoicePDF.tsx:174 | a whole number of cents is written with exactly two fraction digits, signed exactly when negative, and reads back unchanged |
| Formatters.FormatCurrencyNearest | frontend/src/components/InvoicePDF.tsx:173-175 | `formatCurrency` writes `$`, a minus sign exactly for a negative amount, and exactly two fraction digits, reading back within half a cent of the amount |
| Formatters.FormatInputCurrencyRoundTrip | frontend/src/components/InvoicePDF.tsx:261 | a typed rate is shown exactly, with two fraction digits; a blank rate shows `$NaN`, which reads as no amount |
| Formatters.NumberTextRoundTrip | frontend/src/components/InvoicePDF.tsx:260 | `String(quantity)` reads back as the typed quantity; a blank one shows `NaN`, which is no number |
| Formatters.NumberTextInjective | frontend/src/components/InvoicePDF.tsx:278 | two different tax rates never show the same label text |
| Formatters.AddressLines | frontend/src/components/InvoicePDF.tsx:177-183 | every kept address line is non-empty |
| Formatters.FormatAddressSplit | frontend/src/components/InvoicePDF.tsx:177-186 | with single-line inputs, splitting the formatted address at newlines gives back exactly the non-empty parts, in order |
| Formatters.CityStateLine | frontend/src/components/InvoicePDF.tsx:180 | the second line is "city, state", or whichever of the two is given, and is empty when both are empty |
| Formatters.FormatDateFallback | frontend/src/components/InvoicePDF.tsx:165-171 | a date string is shown unchanged exactly when it does not name a `YYYY-MM-DD` calendar day |
| Formatters.FormatDateOfIsoDate | frontend/src/components/InvoicePDF.tsx:165-171 | every calendar day written `YYYY-MM-DD` is shown as "MMMM dd, yyyy" |
| Formatters.LongDateYear | frontend/src/components/InvoicePDF.tsx:167 | the shown year is four digits naming the year of the era, so year 0 is shown as 0001 and never as 0000 |
| IsoDate.ParseIsoDate | frontend/src/components/InvoicePDF.tsx:167 | a parsed date is a real calendar day and the text has the `YYYY-MM-DD` shape |
| IsoDate.ParseIsoDateSound | backend/invoices/serializers.py:80-81 | a parsed date written back as `YYYY-MM-DD` is exactly the text it was read from |
| IsoDate.ParseFormatIsoDate | frontend/src/components/InvoiceForm.tsx:33-34 | every valid date, written `YYYY-MM-DD`, parses back to itself |
| InvoiceDocument.DocumentLayout | frontend/src/components/InvoicePDF.tsx:188-300 | the document holds, in order: the title; From with the company name and its address, e-mail and phone lines; the invoice number and the two formatted dates as labelled details; Bill To with the client name and its lines; the table with the four-column header and one row per item; and the totals; a notes section comes last exactly when there are notes |
| InvoiceDocument.NotesSection | frontend/src/components/InvoicePDF.tsx:292-297 | the notes section appears exactly when the notes are non-empty, with the notes text |
| InvoiceDocument.ItemTableRow | frontend/src/components/InvoicePDF.tsx:257-264 | row i of the table renders item i |
| InvoiceDocument.ItemRowReadsBack | frontend/src/components/InvoicePDF.tsx:259-262 | each row shows the description, a quantity and a rate that read back exactly (nothing for a blank input), and the amount to the nearest cent; both money cells have exactly two fraction digits |
| InvoiceDocument.TotalsRowShape | frontend/src/components/InvoicePDF.tsx:268-289 | the totals block has the subtotal first and the total last, only the total marked final, and the tax row between them exactly when the tax rate is above zero |
| InvoiceDocument.TotalsBlock | frontend/src/components/InvoicePDF.tsx:268-289 | the totals rows carry their captions, the tax label reads back the rate, and each amount has exactly two fraction digits and reads back within half a cent of the stored value |
| InvoiceDocument.PartyBlock | frontend/src/components/InvoicePDF.tsx:199-211 | the address is shown only when the street address is given, and then first; e-mail and then phone follow it, each only when given; the address line splits back into its parts |
| InvoiceDocument.ShownAmountsNeedNotAddUp | frontend/src/components/InvoicePDF.tsx:257-272 | since stored amounts are unrounded, two rows showing $0.01 each can sit above a subtotal showing $0.01 |
| CreateSerializer.StripSpec | backend/invoices/serializers.py:59 | `strip()` keeps a middle slice of the text and removes only whitespace |
| CreateSerializer.StripEnds | backend/invoices/serializers.py:59 | stripped text starts and ends with a non-space character |
| CreateSerializer.StripIdempotent | backend/invoices/serializers.py:59 | stripping twice is stripping once |
| CreateSerializer.CharFieldIff | backend/invoices/serializers.py:59-86 | a `CharField` accepts given text exactly when its stripped form is blank and blanks are allowed, or is within `max_length` and free of NUL; it then holds the stripped text |
| CreateSerializer.CharFieldOnTrimmedText | backend/invoices/serializers.py:59-79 | unpadded text without NUL is rejected with `max_length` exactly when it is too long, and otherwise kept unchanged |
| CreateSerializer.LengthBoundaries | backend/invoices/serializers.py:79 | names are accepted up to 200 characters and rejected from 201; invoice numbers up to 50 and rejected from 51 |
| CreateSerializer.OptionalTextIff | backend/invoices/serializers.py:60-66 | an optional text field fails only on null or on a NUL character |
| CreateSerializer.DecimalFieldBound | backend/invoices/serializers.py:82-85 | an accepted decimal has at most `decimal_places` fraction digits and fewer than `10^max_digits` units |
| CreateSerializer.DecimalFieldComplete | backend/invoices/serializers.py:82-85 | every value below the bound, written with exactly `decimal_places` fraction digits, is accepted as that value |
| CreateSerializer.TaxRateBoundaries | backend/invoices/serializers.py:83 | 999.99 is accepted, 1000.00 is rejected with `max_digits`, and 1.000 is rejected with `max_decimal_places` |
| CreateSerializer.DateFieldSound | backend/invoices/serializers.py:80-81 | an accepted date is a calendar day of years 1-9999 whose `YYYY-MM-DD` form is exactly the text sent |
| CreateSerializer.DateFieldComplete | backend/invoices/serializers.py:80-81 | every calendar day of years 1-9999, written `YYYY-MM-DD`, is accepted |
| CreateSerializer.OptionalErrorsEmpty | backend/invoices/serializers.py:60-86 | the optional fields report nothing exactly when none of them is rejected |
| CreateSerializer.ValidateIff | backend/invoices/serializers.py:57-89 | the payload is valid exactly when no field is rejected and the item list is present |
| CreateSerializer.DatesUnordered | backend/invoices/serializers.py:80-81 | swapping the invoice and due dates never changes the verdict, so no order between them is required |
| CreateSerializer.OptionalFieldsMayBeBlank | backend/invoices/serializers.py:70-76 | in a valid payload, every optional text field may be left out or sent blank |
| InvoiceStore.Attach | backend/invoices/serializers.py:37-38 | one new row per submitted item, in submitted order, each pointing at the invoice |
| InvoiceStore.Unlinked | backend/invoices/serializers.py:51 | deleting an invoice's items keeps exactly the rows pointing elsewhere |
| InvoiceStore.RowsOfAttach | backend/invoices/serializers.py:52-53 | the rows attached to an invoice are exactly its items, and belong to no other invoice |
| InvoiceStore.RowsOfUnlinked | backend/invoices/serializers.py:51 | after the delete, the invoice has no items and every other invoice keeps its own |
| InvoiceStore.ApplyFields | backend/invoices/serializers.py:46-47 | the `setattr` loop gives the record overridden by every supplied field, in any iteration order |
| InvoiceStore.Store.Create | backend/invoices/serializers.py:33-40 | a new invoice holds the submitted fields without `items`; its items are the submitted ones in order; other invoices keep their items |
| InvoiceStore.Store.Update | backend/invoices/serializers.py:42-55 | each supplied field is overwritten, the item list is replaced by the supplied one (empty when `items` is missing), and other invoices keep their items |

## Left out

- `Calculation.RecomputedIsConsistent` and the other totals members use exact arithmetic. JavaScript's binary floating point, and its rounding of products and sums, are not modelled.
- `Formatters.ToFixed2` rounds the exact value half up. `toFixed` rounds the nearest binary double, so a value such as 1.005 can come out differently. Its exponent notation at 10^21 and above is not modelled either.
- `Formatters.FormatDate` parses only strict `YYYY-MM-DD` calendar days. V8's lenient parsing of other strings (day overflow, other formats) is not modelled. The UTC-parse/local-format timezone shift is not modelled either.
- `Formatters.FormatDateOfIsoDate` renders the calendar day as written. In the browser, `new Date` reads `YYYY-MM-DD` as UTC midnight and `format` writes local time, so west of UTC the shown day (and on 1 January the year) is one earlier. Year 0 is accepted and shown as era year 0001, as date-fns' `yyyy` does; `CreateSerializer.DateField` rejects it and requires years 1 to 9999, as Python's `date` does.
- `CreateSerializer.DateField` does not model Python's one-digit months or days, other `fromisoformat` variants, Unicode digits, or a single trailing newline. Django's fallback pattern ends in `$`, which also matches just before a final `\n`, so `"2024-01-15\n"` is accepted as 15 January 2024; the model rejects it as invalid.
- `CreateSerializer.CharField` models the email fields as plain `CharField`s. The `EmailField` address-format regex is library behaviour and is left out.
- `CreateSerializer.CharField` takes strings only. DRF's conversion of other JSON values (numbers, booleans) to text is not modelled.
- `CreateSerializer.DecimalField` receives the already-parsed decimal (`DecimalInput`). Parsing decimal text, including NaN and infinities, is abstracted into the `NotFinite` case.
- `CreateSerializer.ItemsField` accepts any item list. The per-item checks come from the item model, which is not part of this model (`models.py` is not part of this model).
- `CreateSerializer.Validate` lists the required fields first and the optional ones after them. DRF reports errors keyed by field in declaration order. The set of failing fields is the same.
- `FormValidation.FrontendValidationIff` models the react-hook-form rules only. The two e-mail inputs are `type="email"` without `noValidate` (`frontend/src/components/InvoiceForm.tsx:214,346`, `src/components/InvoiceForm.tsx:147,246`), so the browser's own e-mail format check can also block submission; that check is not modelled.
- `Formatters.NumberText` writes `String(n)` in plain decimal form. JavaScript's exponent notation for magnitudes of 10^21 and above is not modelled.
- `FormValidation.TextError` measures length in characters (code points). The browser measures `maxLength` in UTF-16 code units.
- `FormValidation.Validate` does not model react-hook-form's mechanics: `register`, `watch`, effect dependency tracking, and re-validation on change or blur.
- `InvoiceEditor.InvoiceFormState.Recompute` is called explicitly after each edit instead of running as a reactive effect. Edits of the text fields are plain assignments and have no methods.
- `InvoiceEditor.InvoiceFormState.RemoveItem` takes a non-negative index. The UI never passes a negative one.
- The form's on-screen amounts and totals (`toFixed(2)` at `frontend/src/components/InvoiceForm.tsx:436,461,482,486`) are display only. They use the same rendering as `Formatters.ToFixed2`.
- `InvoiceStore.Store.Create` requires `items` in the validated data, because the serializer declares it required. The `KeyError` path of `pop('items')` therefore cannot arise.
- `InvoiceStore.Store` models ORM persistence as two in-memory tables. Primary keys are handed out as consecutive numbers, and items are ordered by creation. Timestamps, `save()` side effects and transactions are not modelled.
- `generateInvoicePDF` (the PDF blob, the download link and the object URL) is foreign I/O and is left out. So are fonts, colours and page positions.
- `frontend/src/App.tsx` and `src/App.tsx` (localStorage history, alerts, the in-flight overlay) are UI glue. `backend/invoices/views.py` and `urls.py` are HTTP and ORM plumbing.
- The clock (`Date.now()`, today's date and the date in 30 days) is passed in as parameters.
