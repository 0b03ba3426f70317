/** The records the dairy ledger keeps for each location, as they are stored
    under `data.locations` (script.js), plus the small vocabulary the
    handlers share: parsed numbers, two-decimal rounding and id lookup. */
module Entities {

  datatype Option<T> = None | Some(value: T)

  /** Why a handler returned without changing the store: an alert, a
      cancelled or empty prompt, a declined confirm, or a TypeError thrown
      before the first write. */
  datatype Refusal =
    | NoLocation       // "Select a location first", or no location to read
    | NotConfirmed     // the confirm() dialog was answered "Cancel"
    | EmptyName        // the name prompt was cancelled or left empty
    | UnknownId        // the edited customer or product is not in the list
    | LocationExists   // "Location already exists."
    | InvalidRate      // "Invalid rate": parseFloat gave NaN
    | MissingField     // "Fill all fields"
    | UnknownCustomer  // `cust.name` on an undefined customer throws
    | UnknownProduct   // `prod.name` on an undefined product throws
    | EmptyQuery       // "Type to search"
    | NoMonth          // "Choose month"

  datatype Result<T> = Ok(value: T) | Err(why: Refusal)

  /** A calendar date as entered in the form (`YYYY-MM-DD`). */
  datatype Date = Date(year: int, month: int, day: int)

  /** What `parseFloat` returns for a form field or prompt answer. */
  datatype Parsed = NaN | Value(x: real)

  datatype HistoryItem = HistoryItem(date: Date, product: string, qty: real, rate: real, amount: real)

  datatype Customer = Customer(id: string, name: string, phone: string, balance: real, history: seq<HistoryItem>)

  datatype Product = Product(id: string, name: string, rate: real)

  /** One delivery. `customerName` and `productName` are snapshots taken when
      the entry is saved; renaming the customer or product later does not
      touch them. */
  datatype Entry = Entry(
    id: string, date: Date,
    customerId: string, customerName: string,
    productId: string, productName: string,
    qty: real, rate: real, amount: real)

  datatype Location = Location(customers: seq<Customer>, products: seq<Product>, entries: seq<Entry>)

  /** The record a new location starts with. */
  const EmptyLocation := Location([], [], [])

  /** The whole number of hundredths `x.toFixed(2)` prints: the nearest one,
      ties away from zero (toFixed rounds the magnitude and then re-attaches
      the sign). */
  function Cents(x: real): (n: int)
    ensures x >= 0.0 ==> -0.5 < n as real - 100.0 * x <= 0.5
    ensures x < 0.0 ==> -0.5 <= n as real - 100.0 * x < 0.5
    ensures x >= 0.0 ==> n >= 0
  {
    var y := 100.0 * x;
    if y >= 0.0 then (y + 0.5).Floor else -((-y + 0.5).Floor)
  }

  /** `Number(x.toFixed(2))` on an exact real. */
  function Round2(x: real): (r: real)
    ensures (100.0 * r).Floor as real == 100.0 * r
    ensures x >= 0.0 ==> -0.005 < r - x <= 0.005
    ensures x < 0.0 ==> -0.005 <= r - x < 0.005
    ensures x >= 0.0 ==> r >= 0.0
  {
    Cents(x) as real / 100.0
  }

  function CustomerIds(cs: seq<Customer>): (ids: seq<string>)
    ensures |ids| == |cs| && forall i :: 0 <= i < |cs| ==> ids[i] == cs[i].id
  {
    seq(|cs|, i requires 0 <= i < |cs| => cs[i].id)
  }

  function ProductIds(ps: seq<Product>): (ids: seq<string>)
    ensures |ids| == |ps| && forall i :: 0 <= i < |ps| ==> ids[i] == ps[i].id
  {
    seq(|ps|, i requires 0 <= i < |ps| => ps[i].id)
  }

  function EntryIds(es: seq<Entry>): (ids: seq<string>)
    ensures |ids| == |es| && forall i :: 0 <= i < |es| ==> ids[i] == es[i].id
  {
    seq(|es|, i requires 0 <= i < |es| => es[i].id)
  }

  /** `list.find(x => x.id === id)` as a position: the FIRST element carrying
      the id, or None when no element does. */
  function IndexOf(ids: seq<string>, id: string): (r: Option<nat>)
    ensures r.None? <==> id !in ids
    ensures r.Some? ==> r.value < |ids| && ids[r.value] == id
    ensures r.Some? ==> forall j :: 0 <= j < r.value ==> ids[j] != id
  {
    if ids == [] then None
    else if ids[0] == id then Some(0)
    else match IndexOf(ids[1..], id)
      case None => None
      case Some(k) => Some(k + 1)
  }

  predicate Distinct(ids: seq<string>)
  {
    forall i, j :: 0 <= i < j < |ids| ==> ids[i] != ids[j]
  }

  /** An id that `uid()` could return: not used by any record of the location. */
  predicate Fresh(loc: Location, id: string)
  {
    id !in CustomerIds(loc.customers) && id !in ProductIds(loc.products) && id !in EntryIds(loc.entries)
  }

  lemma {:induction false} IndexOfDistinct(ids: seq<string>, k: nat)
    requires Distinct(ids) && k < |ids|
    ensures IndexOf(ids, ids[k]) == Some(k)
  {
  }
}
