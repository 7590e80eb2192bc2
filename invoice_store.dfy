/** `InvoiceSerializer.create` and `update`: what they write to the invoice
    table and to the item table. An invoice row is a map from column name to
    value; an item row points at its invoice by key, and an invoice's items
    are the item rows pointing at it, in the order they were created. */
module InvoiceStore {

  /** The validated columns of one item (description, quantity, rate,
      amount), by name. */
  type ItemData = map<string, string>

  /** A value in `validated_data`: a column value, or the nested item list. */
  datatype Value = Scalar(text: string) | ItemList(items: seq<ItemData>)

  /** One row of the item table: the key of its invoice and its columns. */
  datatype ItemRow = ItemRow(invoice: nat, data: ItemData)

  /** The columns of the item rows that point at invoice `id`, in table order. */
  function RowsOf(rows: seq<ItemRow>, id: nat): seq<ItemData>
  {
    if rows == [] then []
    else (if rows[0].invoice == id then [rows[0].data] else []) + RowsOf(rows[1..], id)
  }

  /** The rows `InvoiceItem.objects.create(invoice=..., **item_data)` adds,
      one per submitted item, in submitted order. */
  function Attach(id: nat, items: seq<ItemData>): (r: seq<ItemRow>)
    ensures |r| == |items|
    ensures forall i :: 0 <= i < |r| ==> r[i].invoice == id && r[i].data == items[i]
  {
    seq(|items|, i requires 0 <= i < |items| => ItemRow(id, items[i]))
  }

  /** What `instance.items.all().delete()` leaves: every row pointing elsewhere. */
  function Unlinked(rows: seq<ItemRow>, id: nat): (r: seq<ItemRow>)
    ensures forall i :: 0 <= i < |r| ==> r[i].invoice != id && r[i] in rows
    ensures forall x :: x in rows && x.invoice != id ==> x in r
  {
    if rows == [] then []
    else (if rows[0].invoice == id then [] else [rows[0]]) + Unlinked(rows[1..], id)
  }

  /** The item list `update` installs: the supplied one, or none when the key
      is missing. */
  function SuppliedItems(data: map<string, Value>): seq<ItemData>
    requires "items" in data ==> data["items"].ItemList?
  {
    if "items" in data then data["items"].items else []
  }

  lemma {:induction false} RowsOfAppend(a: seq<ItemRow>, b: seq<ItemRow>, id: nat)
    ensures RowsOf(a + b, id) == RowsOf(a, id) + RowsOf(b, id)
  {
    if a == [] {
      assert a + b == b;
    } else {
      var head := if a[0].invoice == id then [a[0].data] else [];
      assert (a + b)[0] == a[0] && (a + b)[1..] == a[1..] + b;
      assert RowsOf(a + b, id) == head + RowsOf(a[1..] + b, id);
      RowsOfAppend(a[1..], b, id);
      assert RowsOf(a, id) == head + RowsOf(a[1..], id);
    }
  }

  /** An invoice no row points at has no items. */
  lemma {:induction false} RowsOfNone(rows: seq<ItemRow>, id: nat)
    requires forall i :: 0 <= i < |rows| ==> rows[i].invoice != id
    ensures RowsOf(rows, id) == []
  {
    if rows != [] {
      RowsOfNone(rows[1..], id);
    }
  }

  /** The rows attached to `id` are exactly its items, and no other
      invoice's. */
  lemma {:induction false} RowsOfAttach(id: nat, items: seq<ItemData>, other: nat)
    ensures RowsOf(Attach(id, items), id) == items
    ensures other != id ==> RowsOf(Attach(id, items), other) == []
  {
    if items != [] {
      assert Attach(id, items)[1..] == Attach(id, items[1..]);
      RowsOfAttach(id, items[1..], other);
    }
  }

  /** Deleting `id`'s rows empties its item list and keeps every other
      invoice's list as it was. */
  lemma {:induction false} RowsOfUnlinked(rows: seq<ItemRow>, id: nat, other: nat)
    ensures RowsOf(Unlinked(rows, id), id) == []
    ensures other != id ==> RowsOf(Unlinked(rows, id), other) == RowsOf(rows, other)
  {
    if rows != [] {
      RowsOfUnlinked(rows[1..], id, other);
      RowsOfAppend(if rows[0].invoice == id then [] else [rows[0]], Unlinked(rows[1..], id), id);
      RowsOfAppend(if rows[0].invoice == id then [] else [rows[0]], Unlinked(rows[1..], id), other);
    }
  }

  /** The `setattr` loop of `update`: each supplied column is set in turn,
      in whatever order the dictionary yields them. */
  method ApplyFields(record: map<string, Value>, attrs: map<string, Value>) returns (r: map<string, Value>)
    ensures r == record + attrs
  {
    r := record;
    var pending := attrs.Keys;
    ghost var done: set<string> := {};
    while pending != {}
      invariant done + pending == attrs.Keys && done !! pending
      invariant r == record + Restrict(attrs, done)
      decreases |pending|
    {
      var k :| k in pending;
      RestrictGrow(record, attrs, done, k);
      r := r[k := attrs[k]];
      pending := pending - {k};
      done := done + {k};
    }
    assert Restrict(attrs, done) == attrs;
  }

  /** The entries of `m` whose keys are in `keys`. */
  function Restrict(m: map<string, Value>, keys: set<string>): map<string, Value>
    requires keys <= m.Keys
  {
    map k | k in keys :: m[k]
  }

  lemma RestrictGrow(base: map<string, Value>, m: map<string, Value>, keys: set<string>, k: string)
    requires keys <= m.Keys && k in m
    ensures (base + Restrict(m, keys))[k := m[k]] == base + Restrict(m, keys + {k})
  {
  }

  /** The invoice table, the item table and the next invoice key. */
  class Store {
    var invoices: map<nat, map<string, Value>>
    var rows: seq<ItemRow>
    var nextId: nat

    /** Keys are handed out in order, and every item row points at a stored
        invoice. */
    ghost predicate Valid()
      reads this
    {
      && (forall id :: id in invoices ==> id < nextId)
      && (forall i :: 0 <= i < |rows| ==> rows[i].invoice in invoices)
    }

    /** `instance.items.all()`: the items of invoice `id`. */
    function ItemsOf(id: nat): seq<ItemData>
      reads this
    {
      RowsOf(rows, id)
    }

    constructor ()
      ensures Valid() && invoices == map[] && rows == []
    {
      invoices, rows, nextId := map[], [], 0;
    }

    /** `create`: pops `items`, stores the remaining columns as a new invoice,
        then creates one item row per submitted item, in order. */
    method Create(data: map<string, Value>) returns (id: nat)
      requires Valid() && "items" in data && data["items"].ItemList?
      modifies this
      ensures Valid()
      ensures id !in old(invoices)
      ensures invoices == old(invoices)[id := data - {"items"}]
      ensures "items" !in invoices[id]
      ensures rows == old(rows) + Attach(id, data["items"].items)
      ensures ItemsOf(id) == data["items"].items
      ensures forall other :: other != id ==> ItemsOf(other) == old(ItemsOf(other))
    {
      var itemsData := data["items"].items;
      var attrs := data - {"items"};
      id := nextId;
      invoices := invoices[id := attrs];
      nextId := nextId + 1;
      var i := 0;
      while i < |itemsData|
        invariant 0 <= i <= |itemsData|
        invariant invoices == old(invoices)[id := attrs] && nextId == id + 1
        invariant rows == old(rows) + Attach(id, itemsData[..i])
      {
        assert Attach(id, itemsData[..i + 1]) == Attach(id, itemsData[..i]) + [ItemRow(id, itemsData[i])];
        rows := rows + [ItemRow(id, itemsData[i])];
        i := i + 1;
      }
      assert itemsData[..i] == itemsData;
      forall other | other != id
        ensures ItemsOf(other) == old(ItemsOf(other))
      {
        RowsOfAppend(old(rows), Attach(id, itemsData), other);
        RowsOfAttach(id, itemsData, other);
      }
      RowsOfNone(old(rows), id);
      RowsOfAppend(old(rows), Attach(id, itemsData), id);
      RowsOfAttach(id, itemsData, id);
    }

    /** `update`: sets each supplied column on invoice `id`, saves it, deletes
        all of its item rows and creates one per supplied item, in order. */
    method Update(id: nat, data: map<string, Value>)
      requires Valid() && id in invoices
      requires "items" in data ==> data["items"].ItemList?
      modifies this
      ensures Valid()
      ensures invoices == old(invoices)[id := old(invoices)[id] + (data - {"items"})]
      ensures rows == Unlinked(old(rows), id) + Attach(id, SuppliedItems(data))
      ensures ItemsOf(id) == SuppliedItems(data)
      ensures "items" !in data ==> ItemsOf(id) == []
      ensures forall other :: other != id ==> ItemsOf(other) == old(ItemsOf(other))
    {
      var itemsData := SuppliedItems(data);
      var attrs := data - {"items"};
      var record := ApplyFields(invoices[id], attrs);
      invoices := invoices[id := record];
      rows := Unlinked(rows, id);
      var i := 0;
      while i < |itemsData|
        invariant 0 <= i <= |itemsData|
        invariant invoices == old(invoices)[id := record] && nextId == old(nextId)
        invariant rows == Unlinked(old(rows), id) + Attach(id, itemsData[..i])
      {
        assert Attach(id, itemsData[..i + 1]) == Attach(id, itemsData[..i]) + [ItemRow(id, itemsData[i])];
        rows := rows + [ItemRow(id, itemsData[i])];
        i := i + 1;
      }
      assert itemsData[..i] == itemsData;
      forall other | other != id
        ensures ItemsOf(other) == old(ItemsOf(other))
      {
        RowsOfAppend(Unlinked(old(rows), id), Attach(id, itemsData), other);
        RowsOfAttach(id, itemsData, other);
        RowsOfUnlinked(old(rows), id, other);
      }
      RowsOfAppend(Unlinked(old(rows), id), Attach(id, itemsData), id);
      RowsOfAttach(id, itemsData, id);
      RowsOfUnlinked(old(rows), id, id);
    }
  }
}
