/** The application state of script.js: the `data.locations` object (its
    keys in `Object.keys` order and the record under each key) and the
    `currentLocation` variable, with one method per handler that changes
    them. Each method checks what the handler checks before its first
    write, then replaces the current location's record by the Ledger
    function of the old one; `save()` writes the same state to storage and
    is not modelled. */
module Store {
  import opened Entities
  import Ledger
  import opened Consistency
  import opened Aggregates

  /** What a handler ended with: the change was made, or it returned (or
      threw) before writing anything. */
  datatype Outcome = Done | Refused(why: Refusal)

  /** The location seeded into an empty store. */
  const MainFarm := "Main Farm"

  /** `Object.keys` after `delete data.locations[k]`: the other keys, in
      their order. */
  function RemoveKey(ks: seq<string>, k: string): (r: seq<string>)
    ensures forall x :: x in r <==> x in ks && x != k
    ensures k !in ks ==> r == ks
  {
    if ks == [] then []
    else
      var init, last := ks[..|ks| - 1], ks[|ks| - 1];
      assert ks == init + [last];
      var rest := RemoveKey(init, k);
      if last == k then rest else rest + [last]
  }

  lemma {:induction false} RemoveKeyDistinct(ks: seq<string>, k: string)
    requires Distinct(ks)
    ensures Distinct(RemoveKey(ks, k))
    decreases |ks|
  {
    if ks != [] {
      var init, last := ks[..|ks| - 1], ks[|ks| - 1];
      assert ks == init + [last];
      RemoveKeyDistinct(init, k);
      var rest := RemoveKey(init, k);
      if last != k {
        assert last !in init;
        assert last !in rest;
        var r := rest + [last];
        forall i, j | 0 <= i < j < |r| ensures r[i] != r[j] {
          if j == |r| - 1 {
            assert r[i] in rest;
          }
        }
      }
    }
  }

  /** `delete` keeps the other keys in their order: removing from a
      concatenation removes from each part. */
  lemma {:induction false} RemoveKeyAppend(a: seq<string>, b: seq<string>, k: string)
    ensures RemoveKey(a + b, k) == RemoveKey(a, k) + RemoveKey(b, k)
    decreases |b|
  {
    if b == [] {
      assert a + b == a;
    } else {
      var init := b[..|b| - 1];
      assert (a + b)[..|a + b| - 1] == a + init;
      RemoveKeyAppend(a, init, k);
    }
  }

  lemma RemoveKeyOne(x: string, k: string)
    ensures RemoveKey([x], k) == if x == k then [] else [x]
  {
    assert [x][..0] == [];
  }

  /** The key that becomes current after a delete: the first key when
      another location was deleted, otherwise the second one. */
  lemma FirstRemainingKey(ks: seq<string>, k: string)
    requires Distinct(ks) && ks != []
    ensures ks[0] != k ==> RemoveKey(ks, k) != [] && RemoveKey(ks, k)[0] == ks[0]
    ensures ks[0] == k ==> RemoveKey(ks, k) == ks[1..]
  {
    assert ks == [ks[0]] + ks[1..];
    RemoveKeyAppend([ks[0]], ks[1..], ks[0]);
    RemoveKeyAppend([ks[0]], ks[1..], k);
    RemoveKeyOne(ks[0], k);
    assert ks[0] !in ks[1..];
  }

  /** Deleting a location that was just added gives back the old keys. */
  lemma RemoveAddedKey(ks: seq<string>, k: string)
    requires k !in ks
    ensures RemoveKey(ks + [k], k) == ks
  {
    assert (ks + [k])[..|ks|] == ks;
  }

  /** A handler's effect on the location map when it applies a Ledger
      operation `res` to location `n`: the new record on success, nothing
      on refusal. */
  predicate Applies(o: Outcome, before: map<string, Location>, after: map<string, Location>,
                    n: string, res: Result<Location>)
  {
    match res
    case Ok(l) => o == Done && after == before[n := l]
    case Err(w) => o == Refused(w) && after == before
  }

  /** Replacing one record of a consistent store by a consistent record
      keeps the whole store consistent. */
  lemma ReplaceKeepsConsistent(ls: map<string, Location>, n: string, l: Location, after: map<string, Location>)
    requires Consistent(l) && forall k :: k in ls ==> Consistent(ls[k])
    requires after == ls[n := l]
    ensures forall k :: k in after ==> Consistent(after[k])
  {
  }

  class Store {
    var order: seq<string>
    var locations: map<string, Location>
    var current: Option<string>

    /** The keys are the map's, each once; a location is current exactly
        when there is one, and it is one of them. */
    predicate Valid()
      reads this
    {
      && Distinct(order)
      && (forall n :: n in order ==> n in locations)
      && (forall n :: n in locations ==> n in order)
      && (current.None? <==> order == [])
      && (current.Some? ==> current.value in locations)
    }

    /** The test `if (!currentLocation)` fails: there is a current location
        and its name is not the empty string. */
    predicate Selected()
      reads this
    {
      current.Some? && current.value != ""
    }

    /** An id `uid()` could return: used by no record of any location. */
    predicate FreshId(id: string)
      reads this
    {
      forall n :: n in locations ==> Fresh(locations[n], id)
    }

    predicate AllWellFormed()
      reads this
    {
      forall n :: n in locations ==> WellFormed(locations[n])
    }

    predicate AllBalanced()
      reads this
    {
      forall n :: n in locations ==> WellFormed(locations[n]) && BalancesMatch(locations[n])
    }

    predicate AllConsistent()
      reads this
    {
      forall n :: n in locations ==> Consistent(locations[n])
    }

    /** Start-up: the store loaded from storage, seeded with an empty
        "Main Farm" when it has no location, and its first key selected. */
    constructor (keys: seq<string>, saved: map<string, Location>)
      requires Distinct(keys) && forall n :: n in keys <==> n in saved
      ensures Valid()
      ensures keys == [] ==> order == [MainFarm] && locations == map[MainFarm := EmptyLocation]
      ensures keys != [] ==> order == keys && locations == saved
      ensures current == Some(order[0])
      ensures (forall n :: n in saved ==> Consistent(saved[n])) ==> AllConsistent()
    {
      var ks, ls := keys, saved;
      if ks == [] {
        ks, ls := [MainFarm], map[MainFarm := EmptyLocation];
      }
      order, locations, current := ks, ls, Some(ks[0]);
    }

    /** The "Select" button of a listed location. */
    method SelectLocation(name: string)
      requires Valid() && name in locations
      modifies this
      ensures Valid()
      ensures current == Some(name)
      ensures order == old(order) && locations == old(locations)
    {
      current := Some(name);
    }

    /** The "Add location" button, with the name the prompt returned ("" when
        it was cancelled). A new location gets an empty record, goes last in
        the key order and becomes current. */
    method AddLocation(name: string) returns (o: Outcome)
      requires Valid()
      modifies this
      ensures Valid()
      ensures o == Done <==> name != "" && name !in old(locations)
      ensures name == "" ==> o == Refused(EmptyName)
      ensures name != "" && name in old(locations) ==> o == Refused(LocationExists)
      ensures o.Refused? ==> order == old(order) && locations == old(locations) && current == old(current)
      ensures o == Done ==>
        && order == old(order) + [name]
        && locations == old(locations)[name := EmptyLocation]
        && current == Some(name)
      ensures old(AllConsistent()) ==> AllConsistent()
    {
      if name == "" {
        return Refused(EmptyName);
      }
      if name in locations {
        return Refused(LocationExists);
      }
      locations := locations[name := EmptyLocation];
      order := order + [name];
      current := Some(name);
      o := Done;
    }

    /** The delete button of a listed location, with the confirm() answer.
        Whichever location was deleted, the first remaining key becomes
        current, or none when no location is left. */
    method DeleteLocation(name: string, confirmed: bool) returns (o: Outcome)
      requires Valid()
      modifies this
      ensures Valid()
      ensures !confirmed ==> o == Refused(NotConfirmed) && order == old(order) && locations == old(locations) && current == old(current)
      ensures confirmed ==>
        && o == Done
        && order == RemoveKey(old(order), name)
        && locations == old(locations) - {name}
        && current == (if order == [] then None else Some(order[0]))
      ensures confirmed && old(order) != [] && old(order)[0] != name ==> current == Some(old(order)[0])
      ensures confirmed && old(order) != [] && old(order)[0] == name ==> order == old(order)[1..]
      ensures old(AllConsistent()) ==> AllConsistent()
    {
      if !confirmed {
        return Refused(NotConfirmed);
      }
      if order != [] {
        FirstRemainingKey(order, name);
      }
      RemoveKeyDistinct(order, name);
      locations := locations - {name};
      order := RemoveKey(order, name);
      current := if order == [] then None else Some(order[0]);
      o := Done;
    }

    /** The "Add customer" button. */
    method AddCustomer(id: string, name: string, phone: string) returns (o: Outcome)
      requires Valid() && FreshId(id)
      modifies this
      ensures Valid() && order == old(order) && current == old(current)
      ensures !old(Selected()) ==> o == Refused(NoLocation) && locations == old(locations)
      ensures old(Selected()) ==>
        Applies(o, old(locations), locations, current.value, Ledger.AddCustomer(old(locations)[current.value], id, name, phone))
      ensures old(AllConsistent()) ==> AllConsistent()
    {
      if !Selected() {
        return Refused(NoLocation);
      }
      var n := current.value;
      match Ledger.AddCustomer(locations[n], id, name, phone)
      case Err(w) =>
        o := Refused(w);
      case Ok(l) =>
        if AllConsistent() {
          AddCustomerKeepsConsistent(locations[n], id, name, phone);
        }
        locations := locations[n := l];
        o := Done;
    }

    /** `editCustomer(id)`, with the prompt answers. */
    method EditCustomer(id: string, name: string, phone: string) returns (o: Outcome)
      requires Valid()
      modifies this
      ensures Valid() && order == old(order) && current == old(current)
      ensures old(current).None? ==> o == Refused(NoLocation) && locations == old(locations)
      ensures old(current).Some? ==>
        Applies(o, old(locations), locations, current.value, Ledger.EditCustomer(old(locations)[current.value], id, name, phone))
      ensures old(AllConsistent()) ==> AllConsistent()
    {
      if current.None? {
        return Refused(NoLocation);
      }
      var n := current.value;
      match Ledger.EditCustomer(locations[n], id, name, phone)
      case Err(w) =>
        o := Refused(w);
      case Ok(l) =>
        if AllConsistent() {
          EditCustomerKeepsConsistent(locations[n], id, name, phone);
        }
        locations := locations[n := l];
        o := Done;
    }

    /** `delCustomer(id)`, with the confirm() answer: the customer and all
        of its entries go. */
    method DeleteCustomer(id: string, confirmed: bool) returns (o: Outcome)
      requires Valid()
      modifies this
      ensures Valid() && order == old(order) && current == old(current)
      ensures !confirmed ==> o == Refused(NotConfirmed) && locations == old(locations)
      ensures confirmed && old(current).None? ==> o == Refused(NoLocation) && locations == old(locations)
      ensures confirmed && old(current).Some? ==>
        o == Done && locations == old(locations)[current.value := Ledger.DeleteCustomer(old(locations)[current.value], id)]
      ensures old(AllConsistent()) ==> AllConsistent()
    {
      if !confirmed {
        return Refused(NotConfirmed);
      }
      if current.None? {
        return Refused(NoLocation);
      }
      var n := current.value;
      if AllConsistent() {
        DeleteCustomerKeepsConsistent(locations[n], id);
      }
      locations := locations[n := Ledger.DeleteCustomer(locations[n], id)];
      o := Done;
    }

    /** The "Add product" button, with the prompt answers (the rate already
        through parseFloat). */
    method AddProduct(id: string, name: string, rate: Parsed) returns (o: Outcome)
      requires Valid() && FreshId(id)
      modifies this
      ensures Valid() && order == old(order) && current == old(current)
      ensures !old(Selected()) ==> o == Refused(NoLocation) && locations == old(locations)
      ensures old(Selected()) ==>
        Applies(o, old(locations), locations, current.value, Ledger.AddProduct(old(locations)[current.value], id, name, rate))
      ensures old(AllConsistent()) ==> AllConsistent()
    {
      if !Selected() {
        return Refused(NoLocation);
      }
      var n := current.value;
      match Ledger.AddProduct(locations[n], id, name, rate)
      case Err(w) =>
        o := Refused(w);
      case Ok(l) =>
        if AllConsistent() {
          AddProductKeepsConsistent(locations[n], id, name, rate);
        }
        locations := locations[n := l];
        o := Done;
    }

    /** `editProduct(id)`, with the prompt answers. */
    method EditProduct(id: string, name: string, rate: Parsed) returns (o: Outcome)
      requires Valid()
      modifies this
      ensures Valid() && order == old(order) && current == old(current)
      ensures old(current).None? ==> o == Refused(NoLocation) && locations == old(locations)
      ensures old(current).Some? ==>
        Applies(o, old(locations), locations, current.value, Ledger.EditProduct(old(locations)[current.value], id, name, rate))
      ensures old(AllConsistent()) ==> AllConsistent()
    {
      if current.None? {
        return Refused(NoLocation);
      }
      var n := current.value;
      match Ledger.EditProduct(locations[n], id, name, rate)
      case Err(w) =>
        o := Refused(w);
      case Ok(l) =>
        if AllConsistent() {
          EditProductKeepsConsistent(locations[n], id, name, rate);
        }
        locations := locations[n := l];
        o := Done;
    }

    /** `deleteProduct(id)`, with the confirm() answer: the product and all
        of its entries go, and no balance or history is touched, so only
        well-formedness survives. */
    method DeleteProduct(id: string, confirmed: bool) returns (o: Outcome)
      requires Valid()
      modifies this
      ensures Valid() && order == old(order) && current == old(current)
      ensures !confirmed ==> o == Refused(NotConfirmed) && locations == old(locations)
      ensures confirmed && old(current).None? ==> o == Refused(NoLocation) && locations == old(locations)
      ensures confirmed && old(current).Some? ==>
        o == Done && locations == old(locations)[current.value := Ledger.DeleteProduct(old(locations)[current.value], id)]
      ensures old(AllWellFormed()) ==> AllWellFormed()
    {
      if !confirmed {
        return Refused(NotConfirmed);
      }
      if current.None? {
        return Refused(NoLocation);
      }
      var n := current.value;
      if AllWellFormed() {
        DeleteProductKeepsWellFormed(locations[n], id);
      }
      locations := locations[n := Ledger.DeleteProduct(locations[n], id)];
      o := Done;
    }

    /** The "Save entry" button, with the form's fields (the date already
        defaulted to today, quantity and rate through parseFloat) and the
        id `uid()` gives the entry. */
    method SaveEntry(entryId: string, customerId: string, productId: string,
                     date: Date, qty: Parsed, rate: Parsed) returns (o: Outcome)
      requires Valid() && FreshId(entryId)
      modifies this
      ensures Valid() && order == old(order) && current == old(current)
      ensures !old(Selected()) ==> o == Refused(NoLocation) && locations == old(locations)
      ensures old(Selected()) ==>
        Applies(o, old(locations), locations, current.value,
                Ledger.SaveEntry(old(locations)[current.value], entryId, customerId, productId, date, qty, rate))
      ensures old(AllConsistent()) ==> AllConsistent()
    {
      if !Selected() {
        return Refused(NoLocation);
      }
      var n := current.value;
      var res := Ledger.SaveEntry(locations[n], entryId, customerId, productId, date, qty, rate);
      if res.Err? {
        return Refused(res.why);
      }
      if AllConsistent() {
        SaveEntryKeepsConsistent(locations[n], entryId, customerId, productId, date, qty, rate);
        ReplaceKeepsConsistent(locations, n, res.value, locations[n := res.value]);
      }
      locations := locations[n := res.value];
      o := Done;
    }

    /** `deleteEntry(id)`, with the confirm() answer. Balances stay equal to
        the entry sums; histories stay exact only when the entry had no twin
        (Consistency.DeleteEntryKeepsConsistent). */
    method DeleteEntry(id: string, confirmed: bool) returns (o: Outcome)
      requires Valid()
      modifies this
      ensures Valid() && order == old(order) && current == old(current)
      ensures !confirmed ==> o == Refused(NotConfirmed) && locations == old(locations)
      ensures confirmed && old(current).None? ==> o == Refused(NoLocation) && locations == old(locations)
      ensures confirmed && old(current).Some? ==>
        o == Done && locations == old(locations)[current.value := Ledger.DeleteEntry(old(locations)[current.value], id)]
      ensures old(AllBalanced()) ==> AllBalanced()
    {
      if !confirmed {
        return Refused(NotConfirmed);
      }
      if current.None? {
        return Refused(NoLocation);
      }
      var n := current.value;
      if AllBalanced() {
        DeleteEntryKeepsBalances(locations[n], id);
      }
      locations := locations[n := Ledger.DeleteEntry(locations[n], id)];
      o := Done;
    }

    /** The dashboard, on a day of month `today`. */
    method ShowDashboard(today: Month) returns (r: Result<DashboardView>)
      requires Valid()
      ensures !Selected() <==> r == Err(NoLocation)
      ensures r.Err? <==> !Selected()
      ensures r.Ok? ==> IsDashboard(current.value, locations[current.value], today, r.value)
    {
      if !Selected() {
        return Err(NoLocation);
      }
      var v := Dashboard(current.value, locations[current.value], today);
      r := Ok(v);
    }

    /** The "Show summary" button, with the month field (None when empty). */
    method ShowSummary(month: Option<Month>) returns (r: Result<Summary>)
      requires Valid()
      ensures !Selected() <==> r == Err(NoLocation)
      ensures Selected() && month.None? ==> r == Err(NoMonth)
      ensures r.Err? <==> !Selected() || month.None?
      ensures r.Ok? ==> IsSummary(locations[current.value], month.value, r.value)
    {
      if !Selected() {
        return Err(NoLocation);
      }
      r := MonthlySummary(locations[current.value], month);
    }

    /** The "Search" button, over every location whatever is selected. */
    method SearchAll(query: string) returns (r: Result<seq<Hit>>)
      requires Valid()
      ensures r.Err? <==> Normalize(query) == []
      ensures r.Err? ==> r.why == EmptyQuery
      ensures r.Ok? ==> r.value == Report(AllHits(order, locations, Normalize(query)))
      ensures r.Ok? ==> Grouped(order, r.value)
    {
      r := Search(order, locations, query);
    }
  }
}
