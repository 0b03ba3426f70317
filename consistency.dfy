/** The ledger invariant of a location: every customer's balance is the sum
    of the amounts of the entries charged to it, and its history is those
    entries' deliveries in order. Saving and deleting entries and the
    customer operations keep it; deleting a product does not, and deleting
    one of two indistinguishable deliveries loses both history items. */
module Consistency {
  import opened Entities
  import opened Ledger

  /** Every entry names a customer and a product of its own location. */
  predicate EntriesLinked(loc: Location)
  {
    forall e :: e in loc.entries ==>
      e.customerId in CustomerIds(loc.customers) && e.productId in ProductIds(loc.products)
  }

  /** Ids are unique per kind (they come from `uid()`) and entries are linked.
      Every operation keeps this. */
  predicate WellFormed(loc: Location)
  {
    && Distinct(CustomerIds(loc.customers))
    && Distinct(ProductIds(loc.products))
    && Distinct(EntryIds(loc.entries))
    && EntriesLinked(loc)
  }

  predicate BalancesMatch(loc: Location)
  {
    forall c :: c in loc.customers ==> c.balance == SumAmount(EntriesOf(loc.entries, c.id))
  }

  predicate HistoriesMatch(loc: Location)
  {
    forall c :: c in loc.customers ==> c.history == History(EntriesOf(loc.entries, c.id))
  }

  predicate Consistent(loc: Location)
  {
    WellFormed(loc) && BalancesMatch(loc) && HistoriesMatch(loc)
  }

  /** No other entry of the same customer has the same date, quantity and
      amount as entry `k`, so the history filter of DeleteEntry can only
      match entry `k`'s own item. */
  predicate Unambiguous(es: seq<Entry>, k: nat)
    requires k < |es|
  {
    forall j :: 0 <= j < |es| && j != k && es[j].customerId == es[k].customerId ==>
      !SameDelivery(ItemOf(es[j]), es[k])
  }

  // ---------------------------------------------------------------------
  // Facts about the filters and sums.

  lemma {:induction false} EntriesOfAppend(a: seq<Entry>, b: seq<Entry>, id: string)
    ensures EntriesOf(a + b, id) == EntriesOf(a, id) + EntriesOf(b, id)
    decreases |b|
  {
    if b == [] {
      assert a + b == a;
    } else {
      var init := b[..|b| - 1];
      assert (a + b)[..|a + b| - 1] == a + init;
      EntriesOfAppend(a, init, id);
    }
  }

  lemma {:induction false} SumAmountAppend(a: seq<Entry>, b: seq<Entry>)
    ensures SumAmount(a + b) == SumAmount(a) + SumAmount(b)
    decreases |b|
  {
    if b == [] {
      assert a + b == a;
    } else {
      var init := b[..|b| - 1];
      assert (a + b)[..|a + b| - 1] == a + init;
      SumAmountAppend(a, init);
    }
  }

  lemma {:induction false} RemoveDeliveriesAppend(a: seq<HistoryItem>, b: seq<HistoryItem>, e: Entry)
    ensures RemoveDeliveries(a + b, e) == RemoveDeliveries(a, e) + RemoveDeliveries(b, e)
    decreases |b|
  {
    if b == [] {
      assert a + b == a;
    } else {
      var init := b[..|b| - 1];
      assert (a + b)[..|a + b| - 1] == a + init;
      RemoveDeliveriesAppend(a, init, e);
    }
  }

  /** The filters run left to right: filtering a concatenation filters each
      part and keeps the parts in order. With the one-element case this fixes
      the order and the number of the survivors. */
  lemma {:induction false} RemoveProductAppend(a: seq<Product>, b: seq<Product>, id: string)
    ensures RemoveProduct(a + b, id) == RemoveProduct(a, id) + RemoveProduct(b, id)
    decreases |b|
  {
    if b == [] {
      assert a + b == a;
    } else {
      var init := b[..|b| - 1];
      assert (a + b)[..|a + b| - 1] == a + init;
      RemoveProductAppend(a, init, id);
    }
  }

  lemma RemoveProductOne(p: Product, id: string)
    ensures RemoveProduct([p], id) == if p.id == id then [] else [p]
  {
    assert [p][..0] == [];
  }

  lemma {:induction false} RemoveEntriesOfCustomerAppend(a: seq<Entry>, b: seq<Entry>, id: string)
    ensures RemoveEntriesOfCustomer(a + b, id) == RemoveEntriesOfCustomer(a, id) + RemoveEntriesOfCustomer(b, id)
    decreases |b|
  {
    if b == [] {
      assert a + b == a;
    } else {
      var init := b[..|b| - 1];
      assert (a + b)[..|a + b| - 1] == a + init;
      RemoveEntriesOfCustomerAppend(a, init, id);
    }
  }

  lemma RemoveEntriesOfCustomerOne(e: Entry, id: string)
    ensures RemoveEntriesOfCustomer([e], id) == if e.customerId == id then [] else [e]
  {
    assert [e][..0] == [];
  }

  lemma {:induction false} RemoveEntriesOfProductAppend(a: seq<Entry>, b: seq<Entry>, id: string)
    ensures RemoveEntriesOfProduct(a + b, id) == RemoveEntriesOfProduct(a, id) + RemoveEntriesOfProduct(b, id)
    decreases |b|
  {
    if b == [] {
      assert a + b == a;
    } else {
      var init := b[..|b| - 1];
      assert (a + b)[..|a + b| - 1] == a + init;
      RemoveEntriesOfProductAppend(a, init, id);
    }
  }

  lemma RemoveEntriesOfProductOne(e: Entry, id: string)
    ensures RemoveEntriesOfProduct([e], id) == if e.productId == id then [] else [e]
  {
    assert [e][..0] == [];
  }

  /** Removing a customer's entries leaves every other customer's entries,
      in their order. */
  lemma {:induction false} EntriesOfOthersKept(es: seq<Entry>, gone: string, id: string)
    requires gone != id
    ensures EntriesOf(RemoveEntriesOfCustomer(es, gone), id) == EntriesOf(es, id)
    decreases |es|
  {
    if es != [] {
      var init, last := es[..|es| - 1], es[|es| - 1];
      EntriesOfOthersKept(init, gone, id);
      var rest := RemoveEntriesOfCustomer(init, gone);
      if last.customerId != gone {
        assert (rest + [last])[..|rest + [last]| - 1] == rest;
      }
    }
  }

  /** Dropping position `k` of a sequence commutes with taking off its last
      element, when `k` is not the last position. */
  lemma DropBeforeLast<T>(s: seq<T>, k: nat)
    requires k < |s| - 1
    ensures s[..k] + s[k + 1..] == (s[..|s| - 1][..k] + s[..|s| - 1][k + 1..]) + [s[|s| - 1]]
  {
    assert s[k + 1..] == s[..|s| - 1][k + 1..] + [s[|s| - 1]];
  }

  /** With unique entry ids, filtering out the id of entry `k` removes that
      entry alone and keeps the rest in order. */
  lemma {:induction false} RemoveEntryAt(es: seq<Entry>, k: nat)
    requires Distinct(EntryIds(es)) && k < |es|
    ensures RemoveEntry(es, es[k].id) == es[..k] + es[k + 1..]
    decreases |es|
  {
    var init, last := es[..|es| - 1], es[|es| - 1];
    assert EntryIds(init) == EntryIds(es)[..|es| - 1];
    if k == |es| - 1 {
      assert es[k].id !in EntryIds(init) by {
        forall i | 0 <= i < |init| ensures EntryIds(init)[i] != es[k].id {
          assert EntryIds(es)[i] != EntryIds(es)[k];
        }
      }
      assert init == es[..k] + es[k + 1..];
    } else {
      assert EntryIds(es)[k] != EntryIds(es)[|es| - 1];
      RemoveEntryAt(init, k);
      DropBeforeLast(es, k);
    }
  }

  /** With unique customer ids, filtering out the id of customer `k` removes
      that customer alone and keeps the rest in order. */
  lemma {:induction false} RemoveCustomerAt(cs: seq<Customer>, k: nat)
    requires Distinct(CustomerIds(cs)) && k < |cs|
    ensures RemoveCustomer(cs, cs[k].id) == cs[..k] + cs[k + 1..]
    decreases |cs|
  {
    var init, last := cs[..|cs| - 1], cs[|cs| - 1];
    assert CustomerIds(init) == CustomerIds(cs)[..|cs| - 1];
    if k == |cs| - 1 {
      assert cs[k].id !in CustomerIds(init) by {
        forall i | 0 <= i < |init| ensures CustomerIds(init)[i] != cs[k].id {
          assert CustomerIds(cs)[i] != CustomerIds(cs)[k];
        }
      }
      assert init == cs[..k] + cs[k + 1..];
    } else {
      assert CustomerIds(cs)[k] != CustomerIds(cs)[|cs| - 1];
      RemoveCustomerAt(init, k);
      DropBeforeLast(cs, k);
    }
  }

  lemma EntryIdsWithout(es: seq<Entry>, k: nat)
    requires k < |es|
    ensures EntryIds(es[..k] + es[k + 1..]) == EntryIds(es)[..k] + EntryIds(es)[k + 1..]
  {
  }

  /** A sequence without repeated ids stays so when one element is dropped. */
  lemma DistinctWithout(ids: seq<string>, k: nat)
    requires Distinct(ids) && k < |ids|
    ensures Distinct(ids[..k] + ids[k + 1..])
  {
    var r := ids[..k] + ids[k + 1..];
    forall i, j | 0 <= i < j < |r| ensures r[i] != r[j] {
      var i', j' := if i < k then i else i + 1, if j < k then j else j + 1;
      assert r[i] == ids[i'] && r[j] == ids[j'];
    }
  }

  lemma {:induction false} RemoveEntriesOfCustomerDistinct(es: seq<Entry>, id: string)
    requires Distinct(EntryIds(es))
    ensures Distinct(EntryIds(RemoveEntriesOfCustomer(es, id)))
    decreases |es|
  {
    if es != [] {
      var init, last := es[..|es| - 1], es[|es| - 1];
      assert EntryIds(init) == EntryIds(es)[..|es| - 1];
      RemoveEntriesOfCustomerDistinct(init, id);
      var rest := RemoveEntriesOfCustomer(init, id);
      if last.customerId != id {
        forall e | e in rest ensures e.id != last.id {
          var i :| 0 <= i < |init| && init[i] == e;
          assert EntryIds(es)[i] != EntryIds(es)[|es| - 1];
        }
        assert EntryIds(rest + [last]) == EntryIds(rest) + [last.id];
      }
    }
  }

  lemma {:induction false} RemoveEntriesOfProductDistinct(es: seq<Entry>, id: string)
    requires Distinct(EntryIds(es))
    ensures Distinct(EntryIds(RemoveEntriesOfProduct(es, id)))
    decreases |es|
  {
    if es != [] {
      var init, last := es[..|es| - 1], es[|es| - 1];
      assert EntryIds(init) == EntryIds(es)[..|es| - 1];
      RemoveEntriesOfProductDistinct(init, id);
      var rest := RemoveEntriesOfProduct(init, id);
      if last.productId != id {
        forall e | e in rest ensures e.id != last.id {
          var i :| 0 <= i < |init| && init[i] == e;
          assert EntryIds(es)[i] != EntryIds(es)[|es| - 1];
        }
        assert EntryIds(rest + [last]) == EntryIds(rest) + [last.id];
      }
    }
  }

  lemma {:induction false} RemoveProductDistinct(ps: seq<Product>, id: string)
    requires Distinct(ProductIds(ps))
    ensures Distinct(ProductIds(RemoveProduct(ps, id)))
    decreases |ps|
  {
    if ps != [] {
      var init, last := ps[..|ps| - 1], ps[|ps| - 1];
      assert ProductIds(init) == ProductIds(ps)[..|ps| - 1];
      RemoveProductDistinct(init, id);
      var rest := RemoveProduct(init, id);
      if last.id != id {
        forall p | p in rest ensures p.id != last.id {
          var i :| 0 <= i < |init| && init[i] == p;
          assert ProductIds(ps)[i] != ProductIds(ps)[|ps| - 1];
        }
        assert ProductIds(rest + [last]) == ProductIds(rest) + [last.id];
      }
    }
  }

  lemma {:induction false} RemoveCustomerDistinct(cs: seq<Customer>, id: string)
    requires Distinct(CustomerIds(cs))
    ensures Distinct(CustomerIds(RemoveCustomer(cs, id)))
    decreases |cs|
  {
    if cs != [] {
      var init, last := cs[..|cs| - 1], cs[|cs| - 1];
      assert CustomerIds(init) == CustomerIds(cs)[..|cs| - 1];
      RemoveCustomerDistinct(init, id);
      var rest := RemoveCustomer(init, id);
      if last.id != id {
        forall c | c in rest ensures c.id != last.id {
          var i :| 0 <= i < |init| && init[i] == c;
          assert CustomerIds(cs)[i] != CustomerIds(cs)[|cs| - 1];
        }
        assert CustomerIds(rest + [last]) == CustomerIds(rest) + [last.id];
      }
    }
  }

  lemma CustomerIdOf(cs: seq<Customer>, c: Customer)
    requires c in cs
    ensures c.id in CustomerIds(cs)
  {
    var i :| 0 <= i < |cs| && cs[i] == c;
    assert CustomerIds(cs)[i] == c.id;
  }

  lemma ProductIdOf(ps: seq<Product>, p: Product)
    requires p in ps
    ensures p.id in ProductIds(ps)
  {
    var i :| 0 <= i < |ps| && ps[i] == p;
    assert ProductIds(ps)[i] == p.id;
  }

  // ---------------------------------------------------------------------
  // Customer registry.

  /** A new customer starts with balance 0 and no history, which is exactly
      what its (nonexistent) entries add up to. */
  lemma AddCustomerKeepsConsistent(loc: Location, id: string, name: string, phone: string)
    requires Consistent(loc) && Fresh(loc, id) && name != ""
    ensures AddCustomer(loc, id, name, phone).Ok?
    ensures Consistent(AddCustomer(loc, id, name, phone).value)
  {
    var r := AddCustomer(loc, id, name, phone).value;
    var added := Customer(id, name, phone, 0.0, []);
    assert r.customers == loc.customers + [added];
    assert CustomerIds(r.customers) == CustomerIds(loc.customers) + [id];
    assert EntriesOf(loc.entries, id) == [] by {
      forall e | e in loc.entries ensures e.customerId != id {
      }
      if EntriesOf(loc.entries, id) != [] {
        assert EntriesOf(loc.entries, id)[0] in EntriesOf(loc.entries, id);
      }
    }
  }

  /** Renaming a customer touches neither balances nor histories. */
  lemma EditCustomerKeepsConsistent(loc: Location, id: string, name: string, phone: string)
    requires Consistent(loc)
    requires EditCustomer(loc, id, name, phone).Ok?
    ensures Consistent(EditCustomer(loc, id, name, phone).value)
  {
    var r := EditCustomer(loc, id, name, phone).value;
    assert CustomerIds(r.customers) == CustomerIds(loc.customers);
    forall c | c in r.customers
      ensures c.balance == SumAmount(EntriesOf(r.entries, c.id))
      ensures c.history == History(EntriesOf(r.entries, c.id))
    {
      var j :| 0 <= j < |r.customers| && r.customers[j] == c;
      assert loc.customers[j] in loc.customers;
    }
  }

  /** Deleting a customer together with its entries keeps ids unique, and
      no surviving entry names a customer that is gone. */
  lemma DeleteCustomerKeepsWellFormed(loc: Location, id: string)
    requires WellFormed(loc)
    ensures WellFormed(DeleteCustomer(loc, id))
  {
    var r := DeleteCustomer(loc, id);
    RemoveCustomerDistinct(loc.customers, id);
    RemoveEntriesOfCustomerDistinct(loc.entries, id);
    forall e | e in r.entries ensures e.customerId in CustomerIds(r.customers) {
      var c := loc.customers[IndexOf(CustomerIds(loc.customers), e.customerId).value];
      CustomerIdOf(r.customers, c);
    }
  }

  /** Deleting a customer together with its entries keeps every other
      customer's balance and history in step with its entries. */
  lemma DeleteCustomerKeepsConsistent(loc: Location, id: string)
    requires Consistent(loc)
    ensures Consistent(DeleteCustomer(loc, id))
  {
    var r := DeleteCustomer(loc, id);
    DeleteCustomerKeepsWellFormed(loc, id);
    forall c | c in r.customers
      ensures c.balance == SumAmount(EntriesOf(r.entries, c.id))
      ensures c.history == History(EntriesOf(r.entries, c.id))
    {
      EntriesOfOthersKept(loc.entries, id, c.id);
    }
  }

  /** Deleting a customer leaves the others in their order, the surviving
      entries in their order (each entry `j` stays between the survivors
      before it and those after it), and so every other customer's entries
      in their order. */
  lemma DeleteCustomerKeepsOrder(loc: Location, k: nat)
    requires WellFormed(loc) && k < |loc.customers|
    ensures DeleteCustomer(loc, loc.customers[k].id).customers == loc.customers[..k] + loc.customers[k + 1..]
    ensures forall j :: 0 <= j < |loc.entries| ==>
      DeleteCustomer(loc, loc.customers[k].id).entries ==
        RemoveEntriesOfCustomer(loc.entries[..j], loc.customers[k].id)
        + (if loc.entries[j].customerId == loc.customers[k].id then [] else [loc.entries[j]])
        + RemoveEntriesOfCustomer(loc.entries[j + 1..], loc.customers[k].id)
    ensures forall c :: c in DeleteCustomer(loc, loc.customers[k].id).customers ==>
      EntriesOf(DeleteCustomer(loc, loc.customers[k].id).entries, c.id) == EntriesOf(loc.entries, c.id)
  {
    var id, es := loc.customers[k].id, loc.entries;
    forall j | 0 <= j < |es|
      ensures RemoveEntriesOfCustomer(es, id) ==
        RemoveEntriesOfCustomer(es[..j], id)
        + (if es[j].customerId == id then [] else [es[j]])
        + RemoveEntriesOfCustomer(es[j + 1..], id)
    {
      assert es == es[..j] + [es[j]] + es[j + 1..];
      RemoveEntriesOfCustomerAppend(es[..j] + [es[j]], es[j + 1..], id);
      RemoveEntriesOfCustomerAppend(es[..j], [es[j]], id);
      RemoveEntriesOfCustomerOne(es[j], id);
    }
    RemoveCustomerAt(loc.customers, k);
    forall c | c in DeleteCustomer(loc, loc.customers[k].id).customers
      ensures EntriesOf(DeleteCustomer(loc, loc.customers[k].id).entries, c.id) == EntriesOf(loc.entries, c.id)
    {
      EntriesOfOthersKept(loc.entries, loc.customers[k].id, c.id);
    }
  }

  // ---------------------------------------------------------------------
  // Product registry.

  lemma AddProductKeepsConsistent(loc: Location, id: string, name: string, rate: Parsed)
    requires Consistent(loc) && Fresh(loc, id)
    requires AddProduct(loc, id, name, rate).Ok?
    ensures Consistent(AddProduct(loc, id, name, rate).value)
  {
    var r := AddProduct(loc, id, name, rate).value;
    assert ProductIds(r.products) == ProductIds(loc.products) + [id];
  }

  lemma EditProductKeepsConsistent(loc: Location, id: string, name: string, rate: Parsed)
    requires Consistent(loc)
    requires EditProduct(loc, id, name, rate).Ok?
    ensures Consistent(EditProduct(loc, id, name, rate).value)
  {
    var r := EditProduct(loc, id, name, rate).value;
    assert ProductIds(r.products) == ProductIds(loc.products);
  }

  /** Deleting a product keeps ids unique and entries linked. */
  lemma DeleteProductKeepsWellFormed(loc: Location, id: string)
    requires WellFormed(loc)
    ensures WellFormed(DeleteProduct(loc, id))
  {
    var r := DeleteProduct(loc, id);
    RemoveProductDistinct(loc.products, id);
    RemoveEntriesOfProductDistinct(loc.entries, id);
    forall e | e in r.entries ensures e.productId in ProductIds(r.products) {
      var p := loc.products[IndexOf(ProductIds(loc.products), e.productId).value];
      ProductIdOf(r.products, p);
    }
  }

  /** A product no entry uses can be deleted without disturbing anything. */
  lemma DeleteUnusedProductKeepsConsistent(loc: Location, id: string)
    requires Consistent(loc)
    requires forall e :: e in loc.entries ==> e.productId != id
    ensures Consistent(DeleteProduct(loc, id))
  {
    DeleteProductKeepsWellFormed(loc, id);
  }

  /** With no negative amounts, dropping a product's entries never raises a
      customer's total, and lowers it when one of them was positive. */
  lemma {:induction false} DroppedProductLowersTotal(es: seq<Entry>, customerId: string, productId: string)
    requires forall x :: x in es ==> x.amount >= 0.0
    ensures SumAmount(EntriesOf(RemoveEntriesOfProduct(es, productId), customerId)) <= SumAmount(EntriesOf(es, customerId))
    ensures (exists x :: x in es && x.customerId == customerId && x.productId == productId && x.amount > 0.0) ==>
      SumAmount(EntriesOf(RemoveEntriesOfProduct(es, productId), customerId)) < SumAmount(EntriesOf(es, customerId))
    decreases |es|
  {
    if es != [] {
      var init, last := es[..|es| - 1], es[|es| - 1];
      assert es == init + [last];
      DroppedProductLowersTotal(init, customerId, productId);
      var rest := RemoveEntriesOfProduct(init, productId);
      AppendEntry(init, last, customerId);
      if last.productId != productId {
        AppendEntry(rest, last, customerId);
      }
      if exists x :: x in es && x.customerId == customerId && x.productId == productId && x.amount > 0.0 {
        var x :| x in es && x.customerId == customerId && x.productId == productId && x.amount > 0.0;
        if x != last {
          assert x in init;
        }
      }
    }
  }

  /** Deleting a product removes its entries but refunds nobody: when one of
      them carried a positive amount (and no amount is negative), the
      customer it was charged to keeps a balance its remaining entries no
      longer add up to, and a history item for a vanished entry. */
  lemma DeleteProductLeavesStaleBalance(loc: Location, k: nat)
    requires Consistent(loc) && k < |loc.entries|
    requires loc.entries[k].amount > 0.0
    requires forall e :: e in loc.entries ==> e.amount >= 0.0
    ensures !BalancesMatch(DeleteProduct(loc, loc.entries[k].productId))
    ensures !HistoriesMatch(DeleteProduct(loc, loc.entries[k].productId))
  {
    var e := loc.entries[k];
    var r := DeleteProduct(loc, e.productId);
    var c := loc.customers[IndexOf(CustomerIds(loc.customers), e.customerId).value];
    assert c in r.customers;
    DroppedProductLowersTotal(loc.entries, c.id, e.productId);
    assert e in EntriesOf(loc.entries, c.id);
    assert |EntriesOf(r.entries, c.id)| < |EntriesOf(loc.entries, c.id)| by {
      LengthOfRemoved(loc.entries, c.id, e.productId, k);
    }
  }

  /** Dropping a product's entries shortens the list of entries of a
      customer charged for it. */
  lemma {:induction false} LengthOfRemoved(es: seq<Entry>, customerId: string, productId: string, k: nat)
    requires k < |es| && es[k].customerId == customerId && es[k].productId == productId
    ensures |EntriesOf(RemoveEntriesOfProduct(es, productId), customerId)| < |EntriesOf(es, customerId)|
    decreases |es|
  {
    var init, last := es[..|es| - 1], es[|es| - 1];
    assert es == init + [last];
    var rest := RemoveEntriesOfProduct(init, productId);
    AppendEntry(init, last, customerId);
    if last.productId != productId {
      AppendEntry(rest, last, customerId);
    }
    if k < |es| - 1 {
      LengthOfRemoved(init, customerId, productId, k);
    } else {
      LengthNotAbove(init, customerId, productId);
    }
  }

  lemma {:induction false} LengthNotAbove(es: seq<Entry>, customerId: string, productId: string)
    ensures |EntriesOf(RemoveEntriesOfProduct(es, productId), customerId)| <= |EntriesOf(es, customerId)|
    decreases |es|
  {
    if es != [] {
      var init, last := es[..|es| - 1], es[|es| - 1];
      assert es == init + [last];
      var rest := RemoveEntriesOfProduct(init, productId);
      AppendEntry(init, last, customerId);
      if last.productId != productId {
        AppendEntry(rest, last, customerId);
      }
      LengthNotAbove(init, customerId, productId);
    }
  }

  // ---------------------------------------------------------------------
  // The entry ledger.

  /** What appending one entry does to one customer's entries, total and
      history. */
  lemma AppendEntry(es: seq<Entry>, e: Entry, id: string)
    ensures e.customerId == id ==> EntriesOf(es + [e], id) == EntriesOf(es, id) + [e]
    ensures e.customerId != id ==> EntriesOf(es + [e], id) == EntriesOf(es, id)
    ensures SumAmount(EntriesOf(es, id) + [e]) == SumAmount(EntriesOf(es, id)) + e.amount
    ensures History(EntriesOf(es, id) + [e]) == History(EntriesOf(es, id)) + [ItemOf(e)]
  {
    assert (es + [e])[..|es + [e]| - 1] == es;
    var mine := EntriesOf(es, id);
    assert (mine + [e])[..|mine + [e]| - 1] == mine;
  }

  /** Saving an entry keeps every balance equal to the sum of the customer's
      entries and every history equal to their deliveries. */
  lemma SaveEntryKeepsConsistent(loc: Location, entryId: string, customerId: string, productId: string,
                                 date: Date, qty: Parsed, rate: Parsed)
    requires Consistent(loc) && Fresh(loc, entryId)
    requires SaveEntry(loc, entryId, customerId, productId, date, qty, rate).Ok?
    ensures Consistent(SaveEntry(loc, entryId, customerId, productId, date, qty, rate).value)
  {
    var r := SaveEntry(loc, entryId, customerId, productId, date, qty, rate).value;
    SaveEntryKeepsWellFormed(loc, entryId, customerId, productId, date, qty, rate);
    forall c | c in r.customers
      ensures c.balance == SumAmount(EntriesOf(r.entries, c.id))
      ensures c.history == History(EntriesOf(r.entries, c.id))
    {
      var j :| 0 <= j < |r.customers| && r.customers[j] == c;
      SaveEntryKeepsCustomer(loc, entryId, customerId, productId, date, qty, rate, j);
    }
  }

  lemma SaveEntryKeepsWellFormed(loc: Location, entryId: string, customerId: string, productId: string,
                                 date: Date, qty: Parsed, rate: Parsed)
    requires WellFormed(loc) && Fresh(loc, entryId)
    requires SaveEntry(loc, entryId, customerId, productId, date, qty, rate).Ok?
    ensures WellFormed(SaveEntry(loc, entryId, customerId, productId, date, qty, rate).value)
  {
    var r := SaveEntry(loc, entryId, customerId, productId, date, qty, rate).value;
    assert CustomerIds(r.customers) == CustomerIds(loc.customers);
    assert EntryIds(r.entries) == EntryIds(loc.entries) + [entryId];
  }

  /** Customer `j` after SaveEntry: its balance and history follow its
      entries, whether or not the new entry is its own. */
  lemma SaveEntryKeepsCustomer(loc: Location, entryId: string, customerId: string, productId: string,
                               date: Date, qty: Parsed, rate: Parsed, j: nat)
    requires Consistent(loc)
    requires SaveEntry(loc, entryId, customerId, productId, date, qty, rate).Ok?
    requires j < |loc.customers|
    ensures var r := SaveEntry(loc, entryId, customerId, productId, date, qty, rate).value;
      && r.customers[j].balance == SumAmount(EntriesOf(r.entries, r.customers[j].id))
      && r.customers[j].history == History(EntriesOf(r.entries, r.customers[j].id))
  {
    var r := SaveEntry(loc, entryId, customerId, productId, date, qty, rate).value;
    var ci := IndexOf(CustomerIds(loc.customers), customerId).value;
    var e := r.entries[|loc.entries|];
    assert r.entries == loc.entries + [e];
    assert loc.customers[j] in loc.customers;
    AppendEntry(loc.entries, e, loc.customers[j].id);
    if j != ci {
      assert CustomerIds(loc.customers)[j] != CustomerIds(loc.customers)[ci];
    }
  }

  /** With unique entry ids, deleting an existing entry drops that entry
      alone and keeps the remaining ones in their order. */
  lemma DeleteEntryRemovesOne(loc: Location, k: nat)
    requires WellFormed(loc) && k < |loc.entries|
    ensures DeleteEntry(loc, loc.entries[k].id).entries == loc.entries[..k] + loc.entries[k + 1..]
  {
    RemoveEntryAt(loc.entries, k);
  }

  /** One customer's entries around position `k`, with and without it. */
  lemma SplitAt(es: seq<Entry>, k: nat, id: string)
    requires k < |es|
    ensures EntriesOf(es[..k] + es[k + 1..], id) == EntriesOf(es[..k], id) + EntriesOf(es[k + 1..], id)
    ensures EntriesOf(es, id) ==
      if es[k].customerId == id then EntriesOf(es[..k], id) + [es[k]] + EntriesOf(es[k + 1..], id)
      else EntriesOf(es[..k], id) + EntriesOf(es[k + 1..], id)
  {
    assert es == es[..k] + [es[k]] + es[k + 1..];
    EntriesOfAppend(es[..k], [es[k]], id);
    EntriesOfAppend(es[..k] + [es[k]], es[k + 1..], id);
    EntriesOfAppend(es[..k], es[k + 1..], id);
    assert [es[k]][..0] == [];
  }

  /** Dropping entry `k` lowers its customer's total by its amount and no
      other customer's total. */
  lemma SumWithout(es: seq<Entry>, k: nat, id: string)
    requires k < |es|
    ensures SumAmount(EntriesOf(es[..k] + es[k + 1..], id)) ==
      SumAmount(EntriesOf(es, id)) - (if es[k].customerId == id then es[k].amount else 0.0)
  {
    SplitAt(es, k, id);
    var before, after := EntriesOf(es[..k], id), EntriesOf(es[k + 1..], id);
    SumAmountAppend(before, after);
    if es[k].customerId == id {
      SumAmountAppend(before + [es[k]], after);
      assert (before + [es[k]])[..|before|] == before;
    }
  }

  lemma HistoryConcat(a: seq<Entry>, b: seq<Entry>)
    ensures History(a + b) == History(a) + History(b)
  {
  }

  /** The history filter leaves the deliveries of entries it does not match. */
  lemma NoMatchKept(part: seq<Entry>, e: Entry)
    requires forall x :: x in part ==> !SameDelivery(ItemOf(x), e)
    ensures RemoveDeliveries(History(part), e) == History(part)
  {
    forall h | h in History(part) ensures !SameDelivery(h, e) {
      var i :| 0 <= i < |History(part)| && History(part)[i] == h;
      assert part[i] in part;
    }
  }

  /** Under Unambiguous, no entry of the customer before or after position
      `k` delivers what entry `k` does. */
  lemma NoTwinsAround(es: seq<Entry>, k: nat)
    requires k < |es| && Unambiguous(es, k)
    ensures forall x :: x in EntriesOf(es[..k], es[k].customerId) ==> !SameDelivery(ItemOf(x), es[k])
    ensures forall x :: x in EntriesOf(es[k + 1..], es[k].customerId) ==> !SameDelivery(ItemOf(x), es[k])
  {
    forall x | x in es[..k] && x.customerId == es[k].customerId ensures !SameDelivery(ItemOf(x), es[k]) {
      var t :| 0 <= t < k && es[..k][t] == x;
    }
    forall x | x in es[k + 1..] && x.customerId == es[k].customerId ensures !SameDelivery(ItemOf(x), es[k]) {
      var t :| 0 <= t < |es| - k - 1 && es[k + 1..][t] == x;
      assert es[k + 1 + t] == x;
    }
  }

  /** Under Unambiguous, the history filter of DeleteEntry removes exactly
      entry `k`'s own item from its customer's history. */
  lemma HistoryWithout(es: seq<Entry>, k: nat)
    requires k < |es| && Unambiguous(es, k)
    ensures RemoveDeliveries(History(EntriesOf(es, es[k].customerId)), es[k]) ==
      History(EntriesOf(es[..k] + es[k + 1..], es[k].customerId))
  {
    var e, id := es[k], es[k].customerId;
    SplitAt(es, k, id);
    var before, after := EntriesOf(es[..k], id), EntriesOf(es[k + 1..], id);
    HistoryAround(before, e, after);
    NoTwinsAround(es, k);
    DropOwnItem(History(before), History(after), e);
    NoMatchKept(before, e);
    NoMatchKept(after, e);
  }

  lemma HistoryAround(before: seq<Entry>, e: Entry, after: seq<Entry>)
    ensures History(before + [e] + after) == History(before) + [ItemOf(e)] + History(after)
    ensures History(before + after) == History(before) + History(after)
  {
    HistoryConcat(before + [e], after);
    HistoryConcat(before, [e]);
    HistoryConcat(before, after);
    assert History([e]) == [ItemOf(e)];
  }

  /** Filtering `e`'s deliveries out of a history that holds `e`'s own item
      between two parts filters the parts and drops the item. */
  lemma DropOwnItem(a: seq<HistoryItem>, b: seq<HistoryItem>, e: Entry)
    ensures RemoveDeliveries(a + [ItemOf(e)] + b, e) == RemoveDeliveries(a, e) + RemoveDeliveries(b, e)
  {
    RemoveDeliveriesAppend(a + [ItemOf(e)], b, e);
    RemoveDeliveriesAppend(a, [ItemOf(e)], e);
    assert RemoveDeliveries([ItemOf(e)], e) == [] by {
      assert [ItemOf(e)][..0] == [];
    }
  }

  /** Deleting an entry keeps ids unique, entries linked and every balance
      equal to the sum of its customer's remaining entries. */
  lemma DeleteEntryKeepsBalances(loc: Location, id: string)
    requires WellFormed(loc) && BalancesMatch(loc)
    ensures WellFormed(DeleteEntry(loc, id)) && BalancesMatch(DeleteEntry(loc, id))
  {
    var r := DeleteEntry(loc, id);
    match IndexOf(EntryIds(loc.entries), id)
    case None =>
    case Some(k) =>
      var es, e := loc.entries, loc.entries[k];
      RemoveEntryAt(es, k);
      EntryIdsWithout(es, k);
      DistinctWithout(EntryIds(es), k);
      var ci := IndexOf(CustomerIds(loc.customers), e.customerId).value;
      assert CustomerIds(r.customers) == CustomerIds(loc.customers);
      forall c | c in r.customers ensures c.balance == SumAmount(EntriesOf(r.entries, c.id)) {
        var j :| 0 <= j < |r.customers| && r.customers[j] == c;
        assert loc.customers[j] in loc.customers;
        SumWithout(es, k, c.id);
        if j != ci {
          assert CustomerIds(loc.customers)[j] != CustomerIds(loc.customers)[ci];
        }
      }
  }

  /** When no other entry of the same customer shares the deleted entry's
      date, quantity and amount, deleting it keeps the whole invariant:
      exactly its own history item is filtered out. */
  lemma DeleteEntryKeepsConsistent(loc: Location, k: nat)
    requires Consistent(loc) && k < |loc.entries| && Unambiguous(loc.entries, k)
    ensures Consistent(DeleteEntry(loc, loc.entries[k].id))
  {
    var es, e := loc.entries, loc.entries[k];
    var r := DeleteEntry(loc, e.id);
    DeleteEntryKeepsBalances(loc, e.id);
    IndexOfDistinct(EntryIds(es), k);
    RemoveEntryAt(es, k);
    var ci := IndexOf(CustomerIds(loc.customers), e.customerId).value;
    forall c | c in r.customers ensures c.history == History(EntriesOf(r.entries, c.id)) {
      var j :| 0 <= j < |r.customers| && r.customers[j] == c;
      assert loc.customers[j] in loc.customers;
      if j == ci {
        HistoryWithout(es, k);
      } else {
        assert CustomerIds(loc.customers)[j] != CustomerIds(loc.customers)[ci];
        SplitAt(es, k, c.id);
      }
    }
  }

  /** Deleting one of two entries of a customer that agree on date,
      quantity and amount removes both history items: the entry that stays
      has no history item any more. */
  lemma DeleteEntryDropsTwinHistory(loc: Location, k: nat, t: nat)
    requires Consistent(loc) && k < |loc.entries| && t < |loc.entries| && t != k
    requires loc.entries[t].customerId == loc.entries[k].customerId
    requires SameDelivery(ItemOf(loc.entries[t]), loc.entries[k])
    ensures loc.entries[t] in DeleteEntry(loc, loc.entries[k].id).entries
    ensures !HistoriesMatch(DeleteEntry(loc, loc.entries[k].id))
  {
    var es, e, twin := loc.entries, loc.entries[k], loc.entries[t];
    var r := DeleteEntry(loc, e.id);
    IndexOfDistinct(EntryIds(es), k);
    assert EntryIds(es)[t] != EntryIds(es)[k];
    var ci := IndexOf(CustomerIds(loc.customers), e.customerId).value;
    var owner := r.customers[ci];
    assert owner in r.customers;
    assert twin in EntriesOf(r.entries, owner.id);
    var i :| 0 <= i < |EntriesOf(r.entries, owner.id)| && EntriesOf(r.entries, owner.id)[i] == twin;
    assert History(EntriesOf(r.entries, owner.id))[i] == ItemOf(twin);
    assert ItemOf(twin) !in owner.history;
  }
}
