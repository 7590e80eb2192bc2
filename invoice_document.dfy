/** The content of the one-page A4 invoice document `InvoicePDF` lays out
    from a submitted record: its sections in page order and the text of each.
    Fonts, colours and positions are not modelled. */
module InvoiceDocument {
  import opened Common
  import opened InvoiceTypes
  import opened Calculation
  import opened Formatters

  /** A label with its value; `final` marks the emphasised grand-total row. */
  datatype LabelledRow = LabelledRow(caption: string, value: string, final: bool)

  datatype Section =
    | Title(text: string)
    | Party(heading: string, name: string, lines: seq<string>)
    | Details(heading: string, rows: seq<LabelledRow>)
    | ItemTable(header: seq<string>, body: seq<seq<string>>)
    | Totals(rows: seq<LabelledRow>)
    | Notes(heading: string, text: string)

  /** Under the party's name: the formatted address only when the street
      address is given, then the e-mail and the phone when given. */
  function PartyLines(a: Address, email: string, phone: string): seq<string>
  {
    (if a.address != "" then [FormatAddress(a)] else [])
    + (if email != "" then [email] else [])
    + (if phone != "" then [phone] else [])
  }

  const TableHeader := ["Description", "Qty", "Rate", "Amount"]

  /** One table row: description, `String(quantity)`, and the rate and amount
      as currency. */
  function ItemRow(item: InvoiceItem): seq<string>
  {
    [item.description, NumberText(item.quantity), FormatInputCurrency(item.rate), FormatCurrency(item.amount)]
  }

  /** `taxRate > 0`: false for a blank rate (NaN) and for zero. */
  predicate ShowsTax(taxRate: NumInput)
  {
    taxRate.Fixed? && taxRate.hundredths > 0
  }

  function SubtotalRow(inv: InvoiceForm): LabelledRow
  {
    LabelledRow("Subtotal:", FormatCurrency(inv.subtotal), false)
  }

  function TaxRow(inv: InvoiceForm): LabelledRow
  {
    LabelledRow("Tax (" + NumberText(inv.taxRate) + "%):", FormatCurrency(inv.taxAmount), false)
  }

  function TotalRow(inv: InvoiceForm): LabelledRow
  {
    LabelledRow("Total:", FormatCurrency(inv.total), true)
  }

  /** The totals block: subtotal, the tax row only when the rate is above
      zero, then the grand total. */
  function TotalRows(inv: InvoiceForm): seq<LabelledRow>
  {
    [SubtotalRow(inv)] + (if ShowsTax(inv.taxRate) then [TaxRow(inv)] else []) + [TotalRow(inv)]
  }

  function FromParty(inv: InvoiceForm): Section
  {
    var c := inv.companyDetails;
    Party("From", c.name, PartyLines(CompanyAddress(c), c.email, c.phone))
  }

  function DetailsBlock(inv: InvoiceForm): Section
  {
    Details("Invoice Details",
            [ LabelledRow("Invoice Number:", inv.invoiceNumber, false),
              LabelledRow("Invoice Date:", FormatDate(inv.invoiceDate), false),
              LabelledRow("Due Date:", FormatDate(inv.dueDate), false) ])
  }

  function BillToParty(inv: InvoiceForm): Section
  {
    var b := inv.billingInfo;
    Party("Bill To", b.billTo, PartyLines(BillingAddress(b), b.email, b.phone))
  }

  function ItemTableOf(inv: InvoiceForm): Section
  {
    ItemTable(TableHeader, seq(|inv.items|, i requires 0 <= i < |inv.items| => ItemRow(inv.items[i])))
  }

  /** The document for a submitted record, section by section in page order. */
  function Build(inv: InvoiceForm): seq<Section>
  {
    [Title("INVOICE"), FromParty(inv), DetailsBlock(inv), BillToParty(inv), ItemTableOf(inv), Totals(TotalRows(inv))]
    + (if inv.notes != "" then [Notes("Notes", inv.notes)] else [])
  }

  lemma TitleSection(inv: InvoiceForm)
    ensures Build(inv)[0] == Title("INVOICE")
  {
  }

  lemma FromSection(inv: InvoiceForm)
    ensures var c := inv.companyDetails;
      Build(inv)[1] == Party("From", c.name, PartyLines(CompanyAddress(c), c.email, c.phone))
  {
  }

  lemma DetailsSection(inv: InvoiceForm)
    ensures Build(inv)[2] == Details("Invoice Details",
      [ LabelledRow("Invoice Number:", inv.invoiceNumber, false),
        LabelledRow("Invoice Date:", FormatDate(inv.invoiceDate), false),
        LabelledRow("Due Date:", FormatDate(inv.dueDate), false) ])
  {
  }

  lemma BillToSection(inv: InvoiceForm)
    ensures var b := inv.billingInfo;
      Build(inv)[3] == Party("Bill To", b.billTo, PartyLines(BillingAddress(b), b.email, b.phone))
  {
  }

  lemma TableSection(inv: InvoiceForm)
    ensures Build(inv)[4].ItemTable? && Build(inv)[4].header == TableHeader
    ensures |Build(inv)[4].body| == |inv.items|
  {
  }

  /** Row `i` of the item table renders item `i`. */
  lemma ItemTableRow(inv: InvoiceForm, i: nat)
    requires i < |inv.items|
    ensures Build(inv)[4].ItemTable? && i < |Build(inv)[4].body|
    ensures Build(inv)[4].body[i] == ItemRow(inv.items[i])
  {
  }

  lemma TotalsSection(inv: InvoiceForm)
    ensures Build(inv)[5] == Totals(TotalRows(inv))
  {
  }

  lemma NotesSection(inv: InvoiceForm)
    ensures |Build(inv)| == 7 <==> inv.notes != ""
    ensures |Build(inv)| == 6 <==> inv.notes == ""
    ensures |Build(inv)| == 7 ==> Build(inv)[6] == Notes("Notes", inv.notes)
  {
  }

  /** The page holds the title, the sender with its name and party lines,
      the invoice number with the two formatted dates, the client with its
      name and party lines, the item table and the totals, in that order, and
      a notes section last exactly when there are notes; the table has the
      four-column header and one row per item. */
  lemma DocumentLayout(inv: InvoiceForm)
    ensures var doc, c, b := Build(inv), inv.companyDetails, inv.billingInfo;
      && (|doc| == 7 <==> inv.notes != "") && (|doc| == 6 <==> inv.notes == "")
      && doc[0] == Title("INVOICE")
      && doc[1] == Party("From", c.name, PartyLines(CompanyAddress(c), c.email, c.phone))
      && doc[2] == Details("Invoice Details",
                           [ LabelledRow("Invoice Number:", inv.invoiceNumber, false),
                             LabelledRow("Invoice Date:", FormatDate(inv.invoiceDate), false),
                             LabelledRow("Due Date:", FormatDate(inv.dueDate), false) ])
      && doc[3] == Party("Bill To", b.billTo, PartyLines(BillingAddress(b), b.email, b.phone))
      && doc[4].ItemTable? && doc[4].header == TableHeader && |doc[4].body| == |inv.items|
      && doc[5] == Totals(TotalRows(inv))
      && (|doc| == 7 ==> doc[6] == Notes("Notes", inv.notes))
  {
    TitleSection(inv);
    FromSection(inv);
    DetailsSection(inv);
    BillToSection(inv);
    TableSection(inv);
    TotalsSection(inv);
    NotesSection(inv);
  }

  /** Every cell of an item row reads back as what the record holds: the
      quantity exactly, a rate in cents exactly (a blank rate shows no
      amount), and the amount to the nearest cent; both money cells are
      written with exactly two fraction digits. */
  lemma ItemRowReadsBack(item: InvoiceItem)
    ensures var row := ItemRow(item);
      && row[0] == item.description
      && (item.quantity.Fixed? ==> ParseDecimal(row[1]) == Some(item.quantity.hundredths))
      && (item.quantity.NaN? ==> ParseDecimal(row[1]).None?)
      && (item.rate.Fixed? ==> ReadCurrency(row[2]) == Some(item.rate.hundredths))
      && (item.rate.NaN? ==> ReadCurrency(row[2]).None?)
      && (item.rate.Fixed? ==> MoneyText(row[2]))
      && ReadCurrency(row[3]).Some? && MoneyText(row[3])
      && -0.5 <= ReadCurrency(row[3]).value as real - 100.0 * item.amount <= 0.5
  {
    var row := ItemRow(item);
    CellsReadBack(item, row[1], row[2], row[3]);
  }

  lemma CellsReadBack(item: InvoiceItem, quantity: string, rate: string, amount: string)
    requires quantity == NumberText(item.quantity)
    requires rate == FormatInputCurrency(item.rate)
    requires amount == FormatCurrency(item.amount)
    ensures item.quantity.Fixed? ==> ParseDecimal(quantity) == Some(item.quantity.hundredths)
    ensures item.quantity.NaN? ==> ParseDecimal(quantity).None?
    ensures item.rate.Fixed? ==> ReadCurrency(rate) == Some(item.rate.hundredths) && MoneyText(rate)
    ensures item.rate.NaN? ==> ReadCurrency(rate).None?
    ensures ReadCurrency(amount).Some? && MoneyText(amount)
    ensures -0.5 <= ReadCurrency(amount).value as real - 100.0 * item.amount <= 0.5
  {
    NumberTextRoundTrip(item.quantity);
    FormatInputCurrencyRoundTrip(item.rate);
    FormatCurrencyNearest(item.amount);
  }

  lemma TotalsRowShape(inv: InvoiceForm)
    ensures var rows := TotalRows(inv);
      && (|rows| == 3 <==> ShowsTax(inv.taxRate)) && (|rows| == 2 <==> !ShowsTax(inv.taxRate))
      && rows[0] == SubtotalRow(inv) && rows[|rows| - 1] == TotalRow(inv)
      && (forall i :: 0 <= i < |rows| ==> (rows[i].final <==> i == |rows| - 1))
      && (ShowsTax(inv.taxRate) ==> rows[1] == TaxRow(inv))
  {
    var shows := ShowsTax(inv.taxRate);
    var sub, tax, tot := SubtotalRow(inv), TaxRow(inv), TotalRow(inv);
    assert TotalRows(inv) == [sub] + (if shows then [tax] else []) + [tot];
    RowsShape(TotalRows(inv), sub, tax, tot, shows);
  }

  lemma RowsShape(rows: seq<LabelledRow>, sub: LabelledRow, tax: LabelledRow, tot: LabelledRow, shows: bool)
    requires rows == [sub] + (if shows then [tax] else []) + [tot]
    requires !sub.final && !tax.final && tot.final
    ensures (|rows| == 3 <==> shows) && (|rows| == 2 <==> !shows)
    ensures rows[0] == sub && rows[|rows| - 1] == tot && (shows ==> rows[1] == tax)
    ensures forall i :: 0 <= i < |rows| ==> (rows[i].final <==> i == |rows| - 1)
  {
    if shows {
      assert rows == [sub, tax, tot];
    } else {
      assert rows == [sub, tot];
    }
  }

  /** The tax row is shown exactly when the tax rate is above zero, between
      the subtotal and the total, with a caption that reads back the rate; the
      total row comes last and is the only one marked final, and each shown
      amount is the stored one to the nearest cent, written with exactly two
      fraction digits. */
  lemma TotalsBlock(inv: InvoiceForm)
    ensures var rows := TotalRows(inv);
      && (|rows| == 3 <==> ShowsTax(inv.taxRate)) && (|rows| == 2 <==> !ShowsTax(inv.taxRate))
      && rows[0].caption == "Subtotal:"
      && rows[|rows| - 1].caption == "Total:"
      && (forall i :: 0 <= i < |rows| ==> (rows[i].final <==> i == |rows| - 1))
      && (forall i :: 0 <= i < |rows| ==> MoneyText(rows[i].value))
      && ReadCurrency(rows[0].value).Some?
      && -0.5 <= ReadCurrency(rows[0].value).value as real - 100.0 * inv.subtotal <= 0.5
      && ReadCurrency(rows[|rows| - 1].value).Some?
      && -0.5 <= ReadCurrency(rows[|rows| - 1].value).value as real - 100.0 * inv.total <= 0.5
      && (ShowsTax(inv.taxRate) ==>
            && rows[1].caption == "Tax (" + NumberText(inv.taxRate) + "%):"
            && ParseDecimal(NumberText(inv.taxRate)) == Some(inv.taxRate.hundredths)
            && ReadCurrency(rows[1].value).Some?
            && -0.5 <= ReadCurrency(rows[1].value).value as real - 100.0 * inv.taxAmount <= 0.5)
  {
    TotalsRowShape(inv);
    TotalsMoney(inv);
    FormatCurrencyNearest(inv.subtotal);
    FormatCurrencyNearest(inv.taxAmount);
    FormatCurrencyNearest(inv.total);
    NumberTextRoundTrip(inv.taxRate);
  }

  lemma TotalsMoney(inv: InvoiceForm)
    ensures forall i :: 0 <= i < |TotalRows(inv)| ==> MoneyText(TotalRows(inv)[i].value)
  {
    var shows := ShowsTax(inv.taxRate);
    var sub, tax, tot := SubtotalRow(inv), TaxRow(inv), TotalRow(inv);
    FormatCurrencyShape(inv.subtotal);
    FormatCurrencyShape(inv.taxAmount);
    FormatCurrencyShape(inv.total);
    assert TotalRows(inv) == [sub] + (if shows then [tax] else []) + [tot];
    RowsMoney(TotalRows(inv), sub, tax, tot, shows);
  }

  lemma RowsMoney(rows: seq<LabelledRow>, sub: LabelledRow, tax: LabelledRow, tot: LabelledRow, shows: bool)
    requires rows == [sub] + (if shows then [tax] else []) + [tot]
    requires MoneyText(sub.value) && MoneyText(tax.value) && MoneyText(tot.value)
    ensures forall i :: 0 <= i < |rows| ==> MoneyText(rows[i].value)
  {
    if shows {
      assert rows == [sub, tax, tot];
    } else {
      assert rows == [sub, tot];
    }
  }

  /** The sender and client blocks: the address is shown only when the street
      address is given (city, state, ZIP code and country alone are not
      shown), and with single-line inputs its lines split back into the
      non-empty address parts; e-mail and phone follow when given. */
  lemma PartyBlock(a: Address, email: string, phone: string)
    ensures var lines := PartyLines(a, email, phone);
      && |lines| == (if a.address != "" then 1 else 0) + (if email != "" then 1 else 0) + (if phone != "" then 1 else 0)
      && (a.address == "" ==> lines == (if email != "" then [email] else []) + (if phone != "" then [phone] else []))
      && (a.address != "" ==>
            && lines[0] == FormatAddress(a)
            && lines[1..] == (if email != "" then [email] else []) + (if phone != "" then [phone] else []))
      && (a.address != "" && NoNewline(a.address) && NoNewline(a.city) && NoNewline(a.state)
          && NoNewline(a.zipCode) && NoNewline(a.country) ==>
            Split(lines[0], '\n') == AddressLines(a) && AddressLines(a)[0] == a.address)
  {
    var rest := (if email != "" then [email] else []) + (if phone != "" then [phone] else []);
    if a.address != "" {
      assert PartyLines(a, email, phone) == [FormatAddress(a)] + rest;
      assert PartyLines(a, email, phone)[1..] == rest;
      assert [a.address, Join(NonEmpty([a.city, a.state]), ", "), a.zipCode, a.country][0] == a.address;
      if NoNewline(a.address) && NoNewline(a.city) && NoNewline(a.state) && NoNewline(a.zipCode) && NoNewline(a.country) {
        FormatAddressSplit(a);
      }
    }
  }

  /** Amounts are stored unrounded, so the amounts shown in the table need
      not add up to the subtotal shown: in a consistent record with two rows
      of quantity 0.5 at rate 0.01, each row shows $0.01 and so does the
      subtotal. */
  lemma ShownAmountsNeedNotAddUp(inv: InvoiceForm)
    requires Consistent(inv) && |inv.items| == 2
    requires forall i :: 0 <= i < 2 ==> inv.items[i].quantity == Fixed(50) && inv.items[i].rate == Fixed(1)
    ensures ReadCurrency(ItemRow(inv.items[0])[3]) == Some(1)
    ensures ReadCurrency(ItemRow(inv.items[1])[3]) == Some(1)
    ensures ReadCurrency(TotalRows(inv)[0].value) == Some(1)
  {
    var items := inv.items;
    assert items[0].amount == 0.005 && items[1].amount == 0.005;
    assert SumAmounts(items) == 0.01 by {
      assert items[..1][..0] == [];
      assert SumAmounts(items[..1]) == 0.005;
    }
    TotalsRowShape(inv);
    CurrencyOfOneCent(0.005);
    CurrencyOfOneCent(0.01);
  }

  lemma CurrencyOfOneCent(x: real)
    requires 0.005 <= x < 0.015
    ensures ReadCurrency(FormatCurrency(x)) == Some(1)
  {
    assert RoundedCents(x) == 1;
    ParseCentsText(1);
    assert FormatCurrency(x)[1..] == CentsText(1);
    ParseSign(CentsText(1));
  }
}
