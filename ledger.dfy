/** What each mutating handler of script.js does to the record of the current
    location: the registry operations (customers, products) and the entry
    ledger (save and delete entry). Every `list.filter(...)` of these handlers
    is one of the Remove functions below; each keeps the surviving elements
    in their original order. */
module Ledger {
  import opened Entities

  // ---------------------------------------------------------------------
  // The filters the handlers apply. Each is written as `filter` runs: left
  // to right, so the result for a longer list extends the result for its
  // prefix.

  /** `loc.customers.filter(c => c.id !== id)` */
  function RemoveCustomer(cs: seq<Customer>, id: string): (r: seq<Customer>)
    ensures forall c :: c in r <==> c in cs && c.id != id
    ensures id !in CustomerIds(cs) ==> r == cs
  {
    if cs == [] then []
    else
      var init, last := cs[..|cs| - 1], cs[|cs| - 1];
      assert cs == init + [last];
      assert CustomerIds(cs) == CustomerIds(init) + [last.id];
      var rest := RemoveCustomer(init, id);
      if last.id == id then rest else rest + [last]
  }

  /** `loc.products.filter(p => p.id !== id)` */
  function RemoveProduct(ps: seq<Product>, id: string): (r: seq<Product>)
    ensures forall p :: p in r <==> p in ps && p.id != id
    ensures id !in ProductIds(ps) ==> r == ps
  {
    if ps == [] then []
    else
      var init, last := ps[..|ps| - 1], ps[|ps| - 1];
      assert ps == init + [last];
      assert ProductIds(ps) == ProductIds(init) + [last.id];
      var rest := RemoveProduct(init, id);
      if last.id == id then rest else rest + [last]
  }

  /** `loc.entries.filter(e => e.id !== id)` */
  function RemoveEntry(es: seq<Entry>, id: string): (r: seq<Entry>)
    ensures forall e :: e in r <==> e in es && e.id != id
    ensures id !in EntryIds(es) ==> r == es
  {
    if es == [] then []
    else
      var init, last := es[..|es| - 1], es[|es| - 1];
      assert es == init + [last];
      assert EntryIds(es) == EntryIds(init) + [last.id];
      var rest := RemoveEntry(init, id);
      if last.id == id then rest else rest + [last]
  }

  /** `loc.entries.filter(e => e.customerId !== id)` */
  function RemoveEntriesOfCustomer(es: seq<Entry>, id: string): (r: seq<Entry>)
    ensures forall e :: e in r <==> e in es && e.customerId != id
    ensures (forall e :: e in es ==> e.customerId != id) ==> r == es
  {
    if es == [] then []
    else
      var init, last := es[..|es| - 1], es[|es| - 1];
      assert es == init + [last];
      var rest := RemoveEntriesOfCustomer(init, id);
      if last.customerId == id then rest else rest + [last]
  }

  /** `loc.entries.filter(e => e.productId !== id)` */
  function RemoveEntriesOfProduct(es: seq<Entry>, id: string): (r: seq<Entry>)
    ensures forall e :: e in r <==> e in es && e.productId != id
    ensures (forall e :: e in es ==> e.productId != id) ==> r == es
  {
    if es == [] then []
    else
      var init, last := es[..|es| - 1], es[|es| - 1];
      assert es == init + [last];
      var rest := RemoveEntriesOfProduct(init, id);
      if last.productId == id then rest else rest + [last]
  }

  /** The test deleting an entry applies to the owner's history items:
      same date, same amount and same quantity (product and rate are not
      compared). */
  predicate SameDelivery(h: HistoryItem, e: Entry)
  {
    h.date == e.date && h.amount == e.amount && h.qty == e.qty
  }

  /** `cust.history.filter(h => !(h.date === e.date && h.amount === e.amount && h.qty === e.qty))` */
  function RemoveDeliveries(hs: seq<HistoryItem>, e: Entry): (r: seq<HistoryItem>)
    ensures forall h :: h in r <==> h in hs && !SameDelivery(h, e)
    ensures (forall h :: h in hs ==> !SameDelivery(h, e)) ==> r == hs
  {
    if hs == [] then []
    else
      var init, last := hs[..|hs| - 1], hs[|hs| - 1];
      assert hs == init + [last];
      var rest := RemoveDeliveries(init, e);
      if SameDelivery(last, e) then rest else rest + [last]
  }

  // ---------------------------------------------------------------------
  // What a customer's balance and history are meant to reflect.

  /** The entries of a location that belong to customer `id`, in order. */
  function EntriesOf(es: seq<Entry>, id: string): (r: seq<Entry>)
    ensures forall e :: e in r <==> e in es && e.customerId == id
  {
    if es == [] then []
    else
      var init, last := es[..|es| - 1], es[|es| - 1];
      assert es == init + [last];
      var rest := EntriesOf(init, id);
      if last.customerId == id then rest + [last] else rest
  }

  /** The history item saving an entry appends for its customer. */
  function ItemOf(e: Entry): HistoryItem
  {
    HistoryItem(e.date, e.productName, e.qty, e.rate, e.amount)
  }

  /** The history items a list of entries gives, one per entry, in order. */
  function History(es: seq<Entry>): (hs: seq<HistoryItem>)
    ensures |hs| == |es| && forall i :: 0 <= i < |es| ==> hs[i] == ItemOf(es[i])
  {
    seq(|es|, i requires 0 <= i < |es| => ItemOf(es[i]))
  }

  /** The total of the `amount` fields, added left to right. */
  function SumAmount(es: seq<Entry>): real
  {
    if es == [] then 0.0 else SumAmount(es[..|es| - 1]) + es[|es| - 1].amount
  }

  // ---------------------------------------------------------------------
  // Customer registry (script.js:191-199, 280-297).

  /** The "Add customer" handler once a location is selected: an empty or
      cancelled name prompt stops it; otherwise the customer is appended with
      balance 0 and no history. */
  function AddCustomer(loc: Location, id: string, name: string, phone: string): (r: Result<Location>)
    ensures r.Err? <==> name == ""
    ensures r.Err? ==> r.why == EmptyName
    ensures r.Ok? ==>
      && |r.value.customers| == |loc.customers| + 1
      && r.value.customers[..|loc.customers|] == loc.customers
      && r.value.customers[|loc.customers|] == Customer(id, name, phone, 0.0, [])
      && r.value.products == loc.products
      && r.value.entries == loc.entries
  {
    if name == "" then Err(EmptyName)
    else Ok(loc.(customers := loc.customers + [Customer(id, name, phone, 0.0, [])]))
  }

  /** The "Edit" handler for a customer: the first customer with the id gets
      the new name and phone, and nothing else changes; entries keep the name
      they were saved with. */
  function EditCustomer(loc: Location, id: string, name: string, phone: string): (r: Result<Location>)
    ensures r.Err? <==> id !in CustomerIds(loc.customers) || name == ""
    ensures id !in CustomerIds(loc.customers) ==> r == Err(UnknownId)
    ensures r.Ok? ==>
      var i := IndexOf(CustomerIds(loc.customers), id).value;
      && r.value.products == loc.products
      && r.value.entries == loc.entries
      && |r.value.customers| == |loc.customers|
      && (forall j :: 0 <= j < |loc.customers| && j != i ==> r.value.customers[j] == loc.customers[j])
      && r.value.customers[i] == loc.customers[i].(name := name, phone := phone)
  {
    match IndexOf(CustomerIds(loc.customers), id)
    case None => Err(UnknownId)
    case Some(i) =>
      if name == "" then Err(EmptyName)
      else Ok(loc.(customers := loc.customers[i := loc.customers[i].(name := name, phone := phone)]))
  }

  /** The "Delete" handler for a customer, once confirmed: the customer and
      every entry charged to it go; no balance is touched. */
  function DeleteCustomer(loc: Location, id: string): (r: Location)
    ensures id !in CustomerIds(r.customers)
    ensures forall e :: e in r.entries ==> e.customerId != id
    ensures forall c :: c in r.customers <==> c in loc.customers && c.id != id
    ensures forall e :: e in r.entries <==> e in loc.entries && e.customerId != id
    ensures r.products == loc.products
  {
    Location(RemoveCustomer(loc.customers, id), loc.products, RemoveEntriesOfCustomer(loc.entries, id))
  }

  // ---------------------------------------------------------------------
  // Product registry (script.js:202-212, 307-322).

  /** The "Add product" handler once a location is selected: an empty name
      stops it, a rate that does not parse is refused; any other rate,
      negative ones included, is stored. */
  function AddProduct(loc: Location, id: string, name: string, rate: Parsed): (r: Result<Location>)
    ensures r.Err? <==> name == "" || rate.NaN?
    ensures name == "" ==> r == Err(EmptyName)
    ensures name != "" && rate.NaN? ==> r == Err(InvalidRate)
    ensures r.Ok? ==>
      && |r.value.products| == |loc.products| + 1
      && r.value.products[..|loc.products|] == loc.products
      && r.value.products[|loc.products|] == Product(id, name, rate.x)
      && r.value.customers == loc.customers
      && r.value.entries == loc.entries
  {
    if name == "" then Err(EmptyName)
    else if rate.NaN? then Err(InvalidRate)
    else Ok(loc.(products := loc.products + [Product(id, name, rate.x)]))
  }

  /** The "Edit" handler for a product: the first product with the id gets
      the new name and rate; entries keep the name and rate they were saved
      with. */
  function EditProduct(loc: Location, id: string, name: string, rate: Parsed): (r: Result<Location>)
    ensures r.Err? <==> id !in ProductIds(loc.products) || name == "" || rate.NaN?
    ensures id !in ProductIds(loc.products) ==> r == Err(UnknownId)
    ensures r.Ok? ==>
      var i := IndexOf(ProductIds(loc.products), id).value;
      && r.value.customers == loc.customers
      && r.value.entries == loc.entries
      && |r.value.products| == |loc.products|
      && (forall j :: 0 <= j < |loc.products| && j != i ==> r.value.products[j] == loc.products[j])
      && r.value.products[i] == Product(id, name, rate.x)
  {
    match IndexOf(ProductIds(loc.products), id)
    case None => Err(UnknownId)
    case Some(i) =>
      if name == "" then Err(EmptyName)
      else if rate.NaN? then Err(InvalidRate)
      else Ok(loc.(products := loc.products[i := loc.products[i].(name := name, rate := rate.x)]))
  }

  /** The "Delete" handler for a product, once confirmed: the product and
      every entry for it go, while customers, their balances and their
      histories stay exactly as they were. */
  function DeleteProduct(loc: Location, id: string): (r: Location)
    ensures id !in ProductIds(r.products)
    ensures forall e :: e in r.entries ==> e.productId != id
    ensures forall p :: p in r.products <==> p in loc.products && p.id != id
    ensures forall e :: e in r.entries <==> e in loc.entries && e.productId != id
    ensures r.customers == loc.customers
  {
    Location(loc.customers, RemoveProduct(loc.products, id), RemoveEntriesOfProduct(loc.entries, id))
  }

  // ---------------------------------------------------------------------
  // The entry ledger (script.js:229-278).

  /** The "Save entry" handler once a location is selected. Empty customer
      or product ids and unparsable quantity or rate are refused; an id that
      matches no customer (then no product) throws before anything is
      written. Otherwise the entry is appended with amount
      `round(qty * rate, 2)` and the current names, and the customer's balance
      and history grow by that amount and that delivery. The rate is the one
      typed in the form, not the product's stored rate. */
  function SaveEntry(loc: Location, entryId: string, customerId: string, productId: string,
                     date: Date, qty: Parsed, rate: Parsed): (r: Result<Location>)
    ensures (customerId == "" || productId == "" || qty.NaN? || rate.NaN?) ==> r == Err(MissingField)
    ensures r.Err? <==>
      || customerId == "" || productId == "" || qty.NaN? || rate.NaN?
      || customerId !in CustomerIds(loc.customers) || productId !in ProductIds(loc.products)
    ensures r.Ok? ==>
      var ci := IndexOf(CustomerIds(loc.customers), customerId).value;
      var c := loc.customers[ci];
      var p := loc.products[IndexOf(ProductIds(loc.products), productId).value];
      var amount := Round2(qty.x * rate.x);
      && r.value.entries == loc.entries + [Entry(entryId, date, customerId, c.name, productId, p.name, qty.x, rate.x, amount)]
      && r.value.products == loc.products
      && |r.value.customers| == |loc.customers|
      && (forall j :: 0 <= j < |loc.customers| && j != ci ==> r.value.customers[j] == loc.customers[j])
      && r.value.customers[ci].balance == c.balance + amount
      && r.value.customers[ci].history == c.history + [HistoryItem(date, p.name, qty.x, rate.x, amount)]
      && r.value.customers[ci].(balance := c.balance, history := c.history) == c
  {
    if customerId == "" || productId == "" || qty.NaN? || rate.NaN? then Err(MissingField)
    else match IndexOf(CustomerIds(loc.customers), customerId)
      case None => Err(UnknownCustomer)
      case Some(ci) =>
        match IndexOf(ProductIds(loc.products), productId)
        case None => Err(UnknownProduct)
        case Some(pi) =>
          var c, p := loc.customers[ci], loc.products[pi];
          var amount := Round2(qty.x * rate.x);
          var entry := Entry(entryId, date, customerId, c.name, productId, p.name, qty.x, rate.x, amount);
          var paid := c.(balance := c.balance + amount, history := c.history + [ItemOf(entry)]);
          Ok(Location(loc.customers[ci := paid], loc.products, loc.entries + [entry]))
  }

  /** The "Delete entry" handler, once confirmed. If an entry has the id, the
      first customer with its customerId loses its amount from the balance
      and EVERY history item with the same date, amount and quantity. Then
      every entry with the id is filtered out; an unknown id changes
      nothing. */
  function DeleteEntry(loc: Location, id: string): (r: Location)
    ensures id !in EntryIds(loc.entries) ==> r == loc
    ensures forall e :: e in r.entries <==> e in loc.entries && e.id != id
    ensures id !in EntryIds(r.entries)
    ensures r.products == loc.products
    ensures |r.customers| == |loc.customers|
    ensures id in EntryIds(loc.entries) ==>
      var e := loc.entries[IndexOf(EntryIds(loc.entries), id).value];
      match IndexOf(CustomerIds(loc.customers), e.customerId)
      case None => r.customers == loc.customers
      case Some(ci) =>
        var c := loc.customers[ci];
        && (forall j :: 0 <= j < |loc.customers| && j != ci ==> r.customers[j] == loc.customers[j])
        && r.customers[ci].balance == c.balance - e.amount
        && (forall h :: h in r.customers[ci].history <==> h in c.history && !SameDelivery(h, e))
        && r.customers[ci].(balance := c.balance, history := c.history) == c
  {
    var entries := RemoveEntry(loc.entries, id);
    match IndexOf(EntryIds(loc.entries), id)
    case None => loc.(entries := entries)
    case Some(k) =>
      var e := loc.entries[k];
      match IndexOf(CustomerIds(loc.customers), e.customerId)
      case None => loc.(entries := entries)
      case Some(ci) =>
        var c := loc.customers[ci];
        var refunded := c.(balance := c.balance - e.amount, history := RemoveDeliveries(c.history, e));
        Location(loc.customers[ci := refunded], loc.products, entries)
  }
}
