/** The invoice form's state as both form components keep it: the record's
    fields, edited in place, with the item list `useFieldArray` manages and
    the derived fields the recompute effect writes back with `setValue`. */
module InvoiceEditor {
  import opened InvoiceTypes
  import opened Calculation

  /** The row `addItem` appends; `id` is `Date.now().toString()` at the click. */
  function NewItem(id: string): InvoiceItem
  {
    InvoiceItem(id, "", Fixed(100), Fixed(0), 0.0)
  }

  /** `remove(index)` on the field array: the row at `index` goes, the others
      keep their order; an index past the end removes nothing. */
  function RemoveAt(items: seq<InvoiceItem>, index: nat): seq<InvoiceItem>
  {
    if index < |items| then items[..index] + items[index + 1..] else items
  }

  /** `removeItem`: deletes exactly the row at `index` and shifts the later
      rows down by one, keeping their order; with a single row left, or an
      index past the end, the list is unchanged. */
  lemma RemoveItemSpec(items: seq<InvoiceItem>, index: nat)
    ensures var r := if |items| > 1 then RemoveAt(items, index) else items;
      && (|items| > 1 && index < |items| ==>
            && |r| == |items| - 1
            && (forall j :: 0 <= j < index ==> r[j] == items[j])
            && (forall j :: index <= j < |r| ==> r[j] == items[j + 1])
            && multiset(r) + multiset{items[index]} == multiset(items))
      && (|items| <= 1 || index >= |items| ==> r == items)
      && (|items| >= 1 ==> |r| >= 1)
  {
    if |items| > 1 && index < |items| {
      assert items == items[..index] + [items[index]] + items[index + 1..];
    }
  }

  /** Removing the row `addItem` just appended gives back the list before it. */
  lemma {:induction false} RemoveUndoesAdd(items: seq<InvoiceItem>, id: string)
    requires |items| >= 1
    ensures var added := items + [NewItem(id)];
      |added| > 1 && RemoveAt(added, |items|) == items
  {
    var added := items + [NewItem(id)];
    assert added[..|items|] == items;
    assert added[|items| + 1..] == [];
  }

  /** Removing a row and recomputing lowers the subtotal by exactly that
      row's line amount. */
  lemma RemoveRecomputeSubtotal(f: InvoiceForm, index: nat)
    requires index < |f.items|
    ensures Recomputed(f.(items := RemoveAt(f.items, index))).subtotal
      == Recomputed(f).subtotal - LineAmount(f.items[index])
  {
    SubtotalRemove(f.items, index);
  }

  class InvoiceFormState {
    var companyDetails: CompanyDetails
    var billingInfo: BillingInfo
    var invoiceNumber: string
    var invoiceDate: string
    var dueDate: string
    var items: seq<InvoiceItem>
    var notes: string
    var subtotal: real
    var taxRate: NumInput
    var taxAmount: real
    var total: real

    /** The item list is never empty. */
    ghost predicate Valid()
      reads this
    {
      |items| >= 1
    }

    /** The record `handleSubmit` hands to `onSubmit`. */
    function Values(): InvoiceForm
      reads this
    {
      InvoiceForm(companyDetails, billingInfo, invoiceNumber, invoiceDate, dueDate,
                  items, notes, subtotal, taxRate, taxAmount, total)
    }

    /** `useForm({ defaultValues })`: one blank row (quantity 1, rate 0,
        amount 0), every total 0; the clock readings are parameters. */
    constructor (nowMillis: nat, today: string, in30Days: string)
      ensures Valid() && Consistent(Values())
      ensures Values() == DefaultForm(nowMillis, today, in30Days)
    {
      var f := DefaultForm(nowMillis, today, in30Days);
      companyDetails, billingInfo := f.companyDetails, f.billingInfo;
      invoiceNumber, invoiceDate, dueDate := f.invoiceNumber, f.invoiceDate, f.dueDate;
      items, notes := f.items, f.notes;
      subtotal, taxRate, taxAmount, total := f.subtotal, f.taxRate, f.taxAmount, f.total;
    }

    /** The recompute effect: subtotal, tax and total from the quantities,
        rates and tax rate, then each row's amount, one `setValue` per row. */
    method Recompute()
      modifies this
      ensures Values() == Recomputed(old(Values()))
      ensures Consistent(Values())
      ensures |items| == |old(items)|
    {
      ghost var before := Values();
      var s := Subtotal(items);
      var t := TaxAmount(s, taxRate);
      subtotal := s;
      taxAmount := t;
      total := s + t;
      var i := 0;
      while i < |items|
        invariant 0 <= i <= |items| == |old(items)|
        invariant forall j :: 0 <= j < i ==> items[j] == old(items)[j].(amount := LineAmount(old(items)[j]))
        invariant forall j :: i <= j < |items| ==> items[j] == old(items)[j]
        invariant Values().(items := before.items) == before.(subtotal := s, taxAmount := t, total := s + t)
      {
        items := items[i := items[i].(amount := LineAmount(items[i]))];
        i := i + 1;
      }
      assert items == WithAmounts(before.items);
      assert Values() == Recomputed(before);
      RecomputedIsConsistent(before);
    }

    /** `addItem`: appends one blank row and leaves the others as they were;
        the changed item list triggers the recompute effect, which moves no
        total of a consistent record. */
    method AddItem(id: string)
      requires Valid()
      modifies this
      ensures Valid() && Consistent(Values())
      ensures Values() == Recomputed(old(Values()).(items := old(items) + [NewItem(id)]))
      ensures old(Consistent(Values())) ==> Values() == old(Values()).(items := old(items) + [NewItem(id)])
    {
      ghost var before := Values();
      items := items + [NewItem(id)];
      if Consistent(before) {
        AppendBlankKeepsConsistent(before, NewItem(id));
        ConsistentIsFixpoint(Values());
      }
      Recompute();
    }

    /** `removeItem`: removes the row at `index` unless it is the only one;
        the changed item list triggers the recompute effect, so the subtotal
        drops by the removed row's line amount. */
    method RemoveItem(index: nat)
      requires Valid()
      modifies this
      ensures Valid()
      ensures Values() == if |old(items)| > 1
        then Recomputed(old(Values()).(items := RemoveAt(old(items), index)))
        else old(Values())
      ensures |old(items)| > 1 ==> Consistent(Values())
      ensures old(Consistent(Values())) ==> Consistent(Values())
      ensures |old(items)| > 1 && index < |old(items)| ==>
        subtotal == old(Subtotal(items)) - LineAmount(old(items)[index])
    {
      if |items| > 1 {
        ghost var before := items;
        items := RemoveAt(items, index);
        Recompute();
        if index < |before| {
          SubtotalRemove(before, index);
        }
      }
    }

    /** An edit of one row's inputs, followed by the effect it triggers: the
        record is the old one with that row's inputs replaced, recomputed. */
    method EditItem(index: nat, description: string, quantity: NumInput, rate: NumInput)
      requires Valid() && index < |items|
      modifies this
      ensures Valid() && Consistent(Values())
      ensures Values() == Recomputed(old(Values()).(items := old(items)[index :=
        old(items)[index].(description := description, quantity := quantity, rate := rate)]))
      ensures |items| == |old(items)|
      ensures items[index].id == old(items[index].id) && items[index].description == description
      ensures items[index].quantity == quantity && items[index].rate == rate
      ensures forall j :: 0 <= j < |items| && j != index ==>
        items[j] == old(items[j]).(amount := LineAmount(old(items[j])))
    {
      items := items[index := items[index].(description := description, quantity := quantity, rate := rate)];
      Recompute();
    }

    /** An edit of the tax-rate field, followed by the effect it triggers. */
    method SetTaxRate(rate: NumInput)
      requires Valid()
      modifies this
      ensures Valid() && Consistent(Values()) && taxRate == rate
      ensures Values() == Recomputed(old(Values()).(taxRate := rate))
    {
      taxRate := rate;
      Recompute();
    }
  }
}
