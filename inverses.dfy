/** Operations of the ledger undone by their opposite: deleting a customer
    or product right after adding it, and deleting an entry right after
    saving it, give back the location as it was. */
module Inverses {
  import opened Entities
  import opened Ledger
  import opened Consistency

  /** A customer added under a fresh id and then deleted leaves no trace:
      no entry can name an id no customer had. */
  lemma AddThenDeleteCustomer(loc: Location, id: string, name: string, phone: string)
    requires WellFormed(loc) && Fresh(loc, id) && name != ""
    ensures AddCustomer(loc, id, name, phone).Ok?
    ensures DeleteCustomer(AddCustomer(loc, id, name, phone).value, id) == loc
  {
    var added := AddCustomer(loc, id, name, phone).value;
    assert added.customers == loc.customers + [Customer(id, name, phone, 0.0, [])];
    assert (loc.customers + [Customer(id, name, phone, 0.0, [])])[..|loc.customers|] == loc.customers;
    assert RemoveEntriesOfCustomer(loc.entries, id) == loc.entries;
  }

  /** The same for a product. */
  lemma AddThenDeleteProduct(loc: Location, id: string, name: string, rate: Parsed)
    requires WellFormed(loc) && Fresh(loc, id) && name != "" && rate.Value?
    ensures AddProduct(loc, id, name, rate).Ok?
    ensures DeleteProduct(AddProduct(loc, id, name, rate).value, id) == loc
  {
    var added := AddProduct(loc, id, name, rate).value;
    assert added.products == loc.products + [Product(id, name, rate.x)];
    assert (loc.products + [Product(id, name, rate.x)])[..|loc.products|] == loc.products;
    assert RemoveEntriesOfProduct(loc.entries, id) == loc.entries;
  }

  /** Deleting an entry right after saving it restores the location,
      balance and history of its customer included, provided the
      customer's history held no item with the same date, quantity and
      amount (which the history filter would take away as well). */
  lemma SaveThenDeleteEntry(loc: Location, entryId: string, customerId: string, productId: string,
                            date: Date, qty: Parsed, rate: Parsed)
    requires Fresh(loc, entryId)
    requires SaveEntry(loc, entryId, customerId, productId, date, qty, rate).Ok?
    requires forall h :: h in loc.customers[IndexOf(CustomerIds(loc.customers), customerId).value].history ==>
      !(h.date == date && h.qty == qty.x && h.amount == Round2(qty.x * rate.x))
    ensures DeleteEntry(SaveEntry(loc, entryId, customerId, productId, date, qty, rate).value, entryId) == loc
  {
    var ci := IndexOf(CustomerIds(loc.customers), customerId).value;
    var pi := IndexOf(ProductIds(loc.products), productId).value;
    var c, p := loc.customers[ci], loc.products[pi];
    var amount := Round2(qty.x * rate.x);
    var e := Entry(entryId, date, customerId, c.name, productId, p.name, qty.x, rate.x, amount);
    assert SaveEntry(loc, entryId, customerId, productId, date, qty, rate).value == Saved(loc, ci, e);
    DeleteSaved(loc, ci, e);
  }

  /** Customer `c` charged for entry `e`, as SaveEntry leaves it. */
  function Paid(c: Customer, e: Entry): Customer
  {
    c.(balance := c.balance + e.amount, history := c.history + [ItemOf(e)])
  }

  lemma DeleteSaved(loc: Location, ci: nat, e: Entry)
    requires ci < |loc.customers| && loc.customers[ci].id == e.customerId
    requires IndexOf(CustomerIds(loc.customers), e.customerId) == Some(ci)
    requires e.id !in EntryIds(loc.entries)
    requires forall h :: h in loc.customers[ci].history ==> !SameDelivery(h, e)
    ensures DeleteEntry(Saved(loc, ci, e), e.id) == loc
  {
    var saved := Saved(loc, ci, e);
    var r := DeleteEntry(saved, e.id);
    FoundAgain(loc, ci, e);
    DeleteEntryParts(saved, e.id, |loc.entries|, ci);
    EntryRemovedAgain(loc.entries, e);
    RefundPaid(loc.customers[ci], e);
    assert |r.customers| == |loc.customers| == |saved.customers|;
    assert saved.customers[ci] == Paid(loc.customers[ci], e);
    assert r.customers[ci] == loc.customers[ci];
    assert forall j :: 0 <= j < |loc.customers| && j != ci ==> r.customers[j] == saved.customers[j];
    assert forall j :: 0 <= j < |loc.customers| && j != ci ==> saved.customers[j] == loc.customers[j];
    RestoredAt(loc.customers, saved.customers, r.customers, ci);
  }

  /** The location SaveEntry leaves: customer `ci` charged for `e`, which
      is appended to the entries. */
  function Saved(loc: Location, ci: nat, e: Entry): Location
    requires ci < |loc.customers|
  {
    Location(loc.customers[ci := Paid(loc.customers[ci], e)], loc.products, loc.entries + [e])
  }

  /** In the saved location, the entry is found last and its customer
      where it was. */
  lemma FoundAgain(loc: Location, ci: nat, e: Entry)
    requires ci < |loc.customers| && loc.customers[ci].id == e.customerId
    requires IndexOf(CustomerIds(loc.customers), e.customerId) == Some(ci)
    requires e.id !in EntryIds(loc.entries)
    ensures IndexOf(EntryIds(Saved(loc, ci, e).entries), e.id) == Some(|loc.entries|)
    ensures Saved(loc, ci, e).entries[|loc.entries|] == e
    ensures IndexOf(CustomerIds(Saved(loc, ci, e).customers), e.customerId) == Some(ci)
  {
    EntryRemovedAgain(loc.entries, e);
    assert CustomerIds(Saved(loc, ci, e).customers) == CustomerIds(loc.customers);
  }

  /** Taking back the amount and the matching deliveries of an entry just
      charged restores the customer. */
  lemma RefundPaid(c: Customer, e: Entry)
    requires forall h :: h in c.history ==> !SameDelivery(h, e)
    ensures Paid(c, e).(balance := Paid(c, e).balance - e.amount, history := RemoveDeliveries(Paid(c, e).history, e)) == c
  {
    DeliveryRemovedAgain(c.history, e);
  }

  /** `r` agrees with `b` off position `ci`, `b` with `a`, and `r` with `a`
      at `ci`: so `r` is `a`. */
  lemma RestoredAt<T>(a: seq<T>, b: seq<T>, r: seq<T>, ci: nat)
    requires |r| == |a| == |b| && ci < |a| && r[ci] == a[ci]
    requires forall j :: 0 <= j < |a| && j != ci ==> r[j] == b[j]
    requires forall j :: 0 <= j < |a| && j != ci ==> b[j] == a[j]
    ensures r == a
  {
  }

  /** What DeleteEntry leaves when the entry is found at `k` and its owner
      at `ci`. */
  lemma DeleteEntryParts(loc: Location, id: string, k: nat, ci: nat)
    requires IndexOf(EntryIds(loc.entries), id) == Some(k)
    requires IndexOf(CustomerIds(loc.customers), loc.entries[k].customerId) == Some(ci)
    ensures DeleteEntry(loc, id).entries == RemoveEntry(loc.entries, id)
    ensures DeleteEntry(loc, id).products == loc.products
    ensures |DeleteEntry(loc, id).customers| == |loc.customers|
    ensures forall j :: 0 <= j < |loc.customers| && j != ci ==> DeleteEntry(loc, id).customers[j] == loc.customers[j]
    ensures var c, e := loc.customers[ci], loc.entries[k];
      DeleteEntry(loc, id).customers[ci] ==
        c.(balance := c.balance - e.amount, history := RemoveDeliveries(c.history, e))
  {
  }

  /** Filtering out an entry appended under a fresh id gives back the
      entries, and the appended entry is the one found under that id. */
  lemma EntryRemovedAgain(es: seq<Entry>, e: Entry)
    requires e.id !in EntryIds(es)
    ensures RemoveEntry(es + [e], e.id) == es
    ensures IndexOf(EntryIds(es + [e]), e.id) == Some(|es|)
  {
    assert (es + [e])[..|es|] == es;
    assert EntryIds(es + [e]) == EntryIds(es) + [e.id];
    IndexOfLast(EntryIds(es), e.id);
  }

  /** Filtering an entry's deliveries out of a history that gained only its
      item gives back the history, when no older item matched. */
  lemma DeliveryRemovedAgain(hs: seq<HistoryItem>, e: Entry)
    requires forall h :: h in hs ==> !SameDelivery(h, e)
    ensures RemoveDeliveries(hs + [ItemOf(e)], e) == hs
  {
    assert (hs + [ItemOf(e)])[..|hs|] == hs;
  }

  /** The position of an id appended to a list that did not hold it. */
  lemma IndexOfLast(ids: seq<string>, id: string)
    requires id !in ids
    ensures IndexOf(ids + [id], id) == Some(|ids|)
  {
    assert (ids + [id])[|ids|] == id;
  }
}
