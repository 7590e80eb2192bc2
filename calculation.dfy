/** The totals recomputation both invoice forms run whenever an item or the
    tax rate changes: each item's `amount`, then `subtotal`, `taxAmount` and
    `total`. Arithmetic is exact; nothing is rounded when it is stored. */
module Calculation {
  import opened Common
  import opened InvoiceTypes

  /** `(item.quantity || 0) * (item.rate || 0)`. */
  function LineAmount(item: InvoiceItem): real
  {
    OrZero(item.quantity) * OrZero(item.rate)
  }

  /** `items.reduce((sum, item) => sum + LineAmount(item), 0)`, folded from the left. */
  function Subtotal(items: seq<InvoiceItem>): real
  {
    if items == [] then 0.0 else Subtotal(items[..|items| - 1]) + LineAmount(items[|items| - 1])
  }

  /** `(subtotal * (taxRate || 0)) / 100`. */
  function TaxAmount(subtotal: real, taxRate: NumInput): real
  {
    subtotal * OrZero(taxRate) / 100.0
  }

  /** The sum of the `amount` fields as they are stored. */
  function SumAmounts(items: seq<InvoiceItem>): real
  {
    if items == [] then 0.0 else SumAmounts(items[..|items| - 1]) + items[|items| - 1].amount
  }

  /** Every item with its `amount` rewritten from its quantity and rate. */
  function WithAmounts(items: seq<InvoiceItem>): seq<InvoiceItem>
  {
    seq(|items|, i requires 0 <= i < |items| => items[i].(amount := LineAmount(items[i])))
  }

  /** The record after one run of the recompute effect. */
  function Recomputed(f: InvoiceForm): InvoiceForm
  {
    var s := Subtotal(f.items);
    var t := TaxAmount(s, f.taxRate);
    f.(items := WithAmounts(f.items), subtotal := s, taxAmount := t, total := s + t)
  }

  /** The derived-field invariant: each amount is quantity times rate, the
      subtotal is the sum of the amounts, the tax is subtotal * taxRate / 100
      and the total is subtotal plus tax. */
  predicate Consistent(f: InvoiceForm)
  {
    && (forall i :: 0 <= i < |f.items| ==> f.items[i].amount == LineAmount(f.items[i]))
    && f.subtotal == SumAmounts(f.items)
    && f.taxAmount == f.subtotal * OrZero(f.taxRate) / 100.0
    && f.total == f.subtotal + f.taxAmount
  }

  /** The record a freshly mounted form starts from. The clock readings
      (`Date.now()` in milliseconds, and today's and in-30-days' dates as
      `YYYY-MM-DD`) are parameters. A fresh record already satisfies the
      invariant. */
  function DefaultForm(nowMillis: nat, today: string, in30Days: string): (f: InvoiceForm)
    ensures Consistent(f)
    ensures |f.items| == 1 && f.items[0].quantity == Fixed(100) && f.items[0].rate == Fixed(0)
    ensures f.subtotal == 0.0 && f.taxRate == Fixed(0) && f.taxAmount == 0.0 && f.total == 0.0
    ensures f.invoiceDate == today && f.dueDate == in30Days
  {
    var invoiceNumber := "INV-" + NatToString(nowMillis);
    InvoiceForm(
      CompanyDetails("", "", "", "", "", "", "", ""),
      BillingInfo("", "", "", "", "", "", "", ""),
      invoiceNumber, today, in30Days,
      [InvoiceItem("1", "", Fixed(100), Fixed(0), 0.0)],
      "", 0.0, Fixed(0), 0.0, 0.0)
  }

  /** The default invoice number is `INV-` followed by the clock reading in
      decimal, which reads back as that reading. */
  lemma DefaultInvoiceNumber(nowMillis: nat, today: string, in30Days: string)
    ensures var n := DefaultForm(nowMillis, today, in30Days).invoiceNumber;
      && |n| > 4 && n[..4] == "INV-" && AllDigits(n[4..]) && ParseNat(n[4..]) == nowMillis
  {
    var digits := NatToString(nowMillis);
    var n := DefaultForm(nowMillis, today, in30Days).invoiceNumber;
    assert n == "INV-" + digits;
    assert n[..4] == "INV-" && n[4..] == digits;
    ParseNatToString(nowMillis);
  }

  lemma {:induction false} SubtotalAppend(a: seq<InvoiceItem>, b: seq<InvoiceItem>)
    ensures Subtotal(a + b) == Subtotal(a) + Subtotal(b)
  {
    if b == [] {
      assert a + b == a;
    } else {
      assert (a + b)[..|a + b| - 1] == a + b[..|b| - 1];
      SubtotalAppend(a, b[..|b| - 1]);
    }
  }

  lemma {:induction false} SumAmountsAppend(a: seq<InvoiceItem>, b: seq<InvoiceItem>)
    ensures SumAmounts(a + b) == SumAmounts(a) + SumAmounts(b)
  {
    if b == [] {
      assert a + b == a;
    } else {
      assert (a + b)[..|a + b| - 1] == a + b[..|b| - 1];
      SumAmountsAppend(a, b[..|b| - 1]);
    }
  }

  /** The subtotal does not depend on the order of the items (only the table does). */
  lemma {:induction false} SubtotalPermutation(a: seq<InvoiceItem>, b: seq<InvoiceItem>)
    requires multiset(a) == multiset(b)
    ensures Subtotal(a) == Subtotal(b)
  {
    if a != [] {
      var n := |a| - 1;
      var x := a[n];
      assert a == a[..n] + [x];
      assert x in multiset(b);
      var j :| 0 <= j < |b| && b[j] == x;
      var rest := b[..j] + b[j + 1..];
      RemoveOneMultiset(a[..n], b, x, j);
      SubtotalPermutation(a[..n], rest);
      SubtotalRemove(b, j);
    }
  }

  /** Taking `x` off the end of one sequence and out of position `j` of
      another with the same elements leaves the same elements. */
  lemma RemoveOneMultiset(init: seq<InvoiceItem>, b: seq<InvoiceItem>, x: InvoiceItem, j: nat)
    requires j < |b| && b[j] == x && multiset(init + [x]) == multiset(b)
    ensures multiset(init) == multiset(b[..j] + b[j + 1..])
  {
    var rest := b[..j] + b[j + 1..];
    SplitAround(b, j);
    assert multiset(b) == multiset(rest) + multiset{x};
    assert multiset(init + [x]) == multiset(init) + multiset{x};
    assert multiset(init) == multiset(b) - multiset{x};
    assert multiset(rest) == multiset(b) - multiset{x};
  }

  /** The subtotal is the subtotal without row `j` plus row `j`'s amount. */
  lemma SubtotalRemove(b: seq<InvoiceItem>, j: nat)
    requires j < |b|
    ensures Subtotal(b) == Subtotal(b[..j] + b[j + 1..]) + LineAmount(b[j])
  {
    var pre, x, post := b[..j], b[j], b[j + 1..];
    SplitAround(b, j);
    SubtotalAppend(pre + [x], post);
    SubtotalAppend(pre, [x]);
    SubtotalAppend(pre, post);
    SubtotalSingle(x);
  }

  /** A sequence is what comes before position `j`, the element there, and
      what comes after. */
  lemma SplitAround(b: seq<InvoiceItem>, j: nat)
    requires j < |b|
    ensures b == b[..j] + [b[j]] + b[j + 1..]
  {
  }

  lemma SubtotalSingle(x: InvoiceItem)
    ensures Subtotal([x]) == LineAmount(x)
  {
    assert [x][..0] == [];
  }

  /** The subtotal the effect computes equals the sum of the amounts it writes. */
  lemma {:induction false} SubtotalIsSumOfAmounts(items: seq<InvoiceItem>)
    ensures SumAmounts(WithAmounts(items)) == Subtotal(items)
  {
    if items != [] {
      var n := |items| - 1;
      assert WithAmounts(items)[..n] == WithAmounts(items[..n]);
      SubtotalIsSumOfAmounts(items[..n]);
    }
  }

  /** The subtotal reads only quantities and rates, never the stored amounts. */
  lemma {:induction false} SubtotalIgnoresAmounts(a: seq<InvoiceItem>, b: seq<InvoiceItem>)
    requires |a| == |b|
    requires forall i :: 0 <= i < |a| ==> a[i].quantity == b[i].quantity && a[i].rate == b[i].rate
    ensures Subtotal(a) == Subtotal(b)
  {
    if a != [] {
      SubtotalIgnoresAmounts(a[..|a| - 1], b[..|b| - 1]);
    }
  }

  /** After a recompute the invariant holds, whatever the derived fields held before. */
  lemma RecomputedIsConsistent(f: InvoiceForm)
    ensures Consistent(Recomputed(f))
  {
    var g := Recomputed(f);
    assert g.items == WithAmounts(f.items);
    assert g.subtotal == Subtotal(f.items) && g.taxRate == f.taxRate;
    SubtotalIsSumOfAmounts(f.items);
    assert g.subtotal == SumAmounts(g.items);
    forall i | 0 <= i < |g.items| ensures g.items[i].amount == LineAmount(g.items[i]) {
      assert g.items[i] == f.items[i].(amount := LineAmount(f.items[i]));
      LineAmountOfInputs(f.items[i], g.items[i]);
    }
    assert g.taxAmount == TaxAmount(g.subtotal, g.taxRate);
    assert g.total == g.subtotal + g.taxAmount;
  }

  /** An item's line amount depends on its quantity and rate only. */
  lemma LineAmountOfInputs(a: InvoiceItem, b: InvoiceItem)
    requires a.quantity == b.quantity && a.rate == b.rate
    ensures LineAmount(a) == LineAmount(b)
  {
  }

  /** A record is consistent exactly when recomputing it changes nothing. */
  lemma ConsistentIsFixpoint(f: InvoiceForm)
    ensures Consistent(f) <==> Recomputed(f) == f
  {
    if Consistent(f) {
      assert WithAmounts(f.items) == f.items;
      SubtotalIgnoresAmounts(f.items, WithAmounts(f.items));
      SubtotalIsSumOfAmounts(f.items);
    } else {
      RecomputedIsConsistent(f);
    }
  }

  /** Recomputing twice gives the same record as recomputing once. */
  lemma RecomputeIdempotent(f: InvoiceForm)
    ensures Recomputed(Recomputed(f)) == Recomputed(f)
  {
    RecomputedIsConsistent(f);
    ConsistentIsFixpoint(Recomputed(f));
  }

  /** The derived fields after a recompute depend only on the quantities,
      rates and tax rate: two records that agree on those get the same
      amounts, subtotal, tax and total, whatever their previous derived values. */
  lemma RecomputeReadsOnlyInputs(f: InvoiceForm, g: InvoiceForm)
    requires |f.items| == |g.items| && f.taxRate == g.taxRate
    requires forall i :: 0 <= i < |f.items| ==>
      f.items[i].quantity == g.items[i].quantity && f.items[i].rate == g.items[i].rate
    ensures Recomputed(f).subtotal == Recomputed(g).subtotal
    ensures Recomputed(f).taxAmount == Recomputed(g).taxAmount
    ensures Recomputed(f).total == Recomputed(g).total
    ensures forall i :: 0 <= i < |f.items| ==>
      Recomputed(f).items[i].amount == Recomputed(g).items[i].amount
  {
    SubtotalIgnoresAmounts(f.items, g.items);
  }

  /** A new row (quantity 1, rate 0, amount 0) appended to a consistent record
      keeps it consistent: its amount is already right and the totals do not move. */
  lemma AppendBlankKeepsConsistent(f: InvoiceForm, item: InvoiceItem)
    requires Consistent(f)
    requires item.quantity == Fixed(100) && item.rate == Fixed(0) && item.amount == 0.0
    ensures Consistent(f.(items := f.items + [item]))
  {
    var g := f.(items := f.items + [item]);
    SumAmountsAppend(f.items, [item]);
    assert [item][..0] == [];
    forall i | 0 <= i < |g.items| ensures g.items[i].amount == LineAmount(g.items[i]) {
      if i < |f.items| {
        assert g.items[i] == f.items[i];
      }
    }
  }
}
