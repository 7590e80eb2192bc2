/** The invoice record the form edits and the document is built from
    (`frontend/src/types/invoice.ts`). */
module InvoiceTypes {

  /** A number typed into an `<input type="number" step="0.01">` and read with
      `valueAsNumber`: a blank field reads as NaN, anything else as a whole
      number of hundredths. */
  datatype NumInput = NaN | Fixed(hundredths: int)

  /** JavaScript's `n || 0`: NaN (and 0) become 0. */
  function OrZero(n: NumInput): real
  {
    match n
    case NaN => 0.0
    case Fixed(h) => h as real / 100.0
  }

  /** `amount` is a derived field: the exact product of quantity and rate. */
  datatype InvoiceItem = InvoiceItem(
    id: string,
    description: string,
    quantity: NumInput,
    rate: NumInput,
    amount: real)

  datatype CompanyDetails = CompanyDetails(
    name: string,
    address: string,
    city: string,
    state: string,
    zipCode: string,
    country: string,
    email: string,
    phone: string)

  datatype BillingInfo = BillingInfo(
    billTo: string,
    address: string,
    city: string,
    state: string,
    zipCode: string,
    country: string,
    email: string,
    phone: string)

  /** `subtotal`, `taxAmount` and `total` are derived fields. */
  datatype InvoiceForm = InvoiceForm(
    companyDetails: CompanyDetails,
    billingInfo: BillingInfo,
    invoiceNumber: string,
    invoiceDate: string,
    dueDate: string,
    items: seq<InvoiceItem>,
    notes: string,
    subtotal: real,
    taxRate: NumInput,
    taxAmount: real,
    total: real)
}
