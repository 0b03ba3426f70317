# Dairy ledger model

A Dafny model of the ledger logic of `script.js`, a browser-only dairy
management app. The app keeps one record per location under
`data.locations`: its customers (each with a balance and a delivery history),
its products (each with a rate) and its entries (one per delivery). The
variable `currentLocation` names the location the handlers act on.

The model has six modules:

- `Entities` (entities.dfy) holds the records as datatype values, `parseFloat`'s
  possible results (`Parsed`), two-decimal rounding (`Round2`, which is
  `Number(x.toFixed(2))`) and id lookup (`IndexOf`, which is `find`).
- `Ledger` (ledger.dfy) gives, for each mutating handler, its effect on the
  current location's record as a function. Every `filter` of the mutating
  handlers is one of the `Remove…` functions; the summary's month filter is
  `Aggregates.MonthEntries`.
- `Consistency` (consistency.dfy) states the ledger invariant: a customer's
  balance is the sum of the amounts of its entries, and its history is those
  entries' deliveries in order. It proves which operations keep the invariant
  and which break it:
  - deleting a product leaves balances stale;
  - deleting one of two entries with the same date, quantity and amount
    removes both history items.
- `Aggregates` (aggregates.dfy) covers the read-only handlers: the dashboard's
  month totals, the monthly summary and the search. Each is a loop proved
  against a recursive definition of what it accumulates.
- `Store` (store.dfy) holds the application state as the class `Store.Store`:
  - `order` is the `Object.keys` order of the locations;
  - `locations` is the map from location name to record;
  - `current` is the current location.

  There is one method per handler. Each method checks what the handler checks
  before its first write, then replaces the current record by the `Ledger`
  function of the old one.

- `Inverses` (inverses.dfy) shows that deleting a customer or product right
  after adding it gives back the location it started from. Deleting an entry
  right after saving it does so too, provided the customer's history held no
  item with the same date, quantity and amount; otherwise the history filter
  takes that item away as well.

Dialog answers are parameters of the methods:
- a `prompt` answer is a string, with "" for a cancelled or empty prompt;
- a `confirm` answer is a boolean;
- a form field is a `Parsed` value after `parseFloat`.

Ids that `uid()` would generate are parameters too, and must be fresh.
Every handler outcome that writes nothing is a `Refusal`:
- the alerts;
- the early returns;
- the TypeErrors the source throws before its first write (for example, a
  save whose customer id matches no customer).

## Model

| member | source | states |
|---|---|---|
| Entities.Cents | script.js:240 | the whole number of hundredths `toFixed(2)` prints is the nearest one to the value, a tie going to the larger magnitude (half-open bounds on each side of zero), and is non-negative for a non-negative value |
| Entities.Round2 | script.js:240 | the rounded amount is a whole number of hundredths, the nearest one to `qty * rate` with ties away from zero, and is non-negative when the product is |
| Entities.IndexOf | script.js:238-239 | `find` by id: None exactly when no element has the id; otherwise the position of the FIRST element with it |
| Entities.IndexOfDistinct | script.js:238-239 | with unique ids, `find` returns the element at position k for the id held at k |
| Ledger.RemoveCustomer | script.js:294 | the survivors are exactly the customers whose id differs; the list is unchanged when no customer has the id |
| Ledger.RemoveProduct | script.js:319 | the survivors are exactly the products whose id differs; the list is unchanged when no product has the id |
| Consistency.RemoveProductAppend | script.js:319 | the product filter of a concatenation is the concatenation of the filtered parts, so survivors keep their order |
| Consistency.RemoveProductOne | script.js:319 | a single product survives exactly when its id differs |
| Ledger.RemoveEntry | script.js:276 | the survivors are exactly the entries whose id differs; the list is unchanged when no entry has the id |
| Ledger.RemoveEntriesOfCustomer | script.js:295 | the survivors are exactly the entries of other customers; the list is unchanged when none is charged to the id |
| Consistency.RemoveEntriesOfCustomerAppend | script.js:295 | the filter of a concatenation is the concatenation of the filtered parts, so survivors keep their order |
| Consistency.RemoveEntriesOfCustomerOne | script.js:295 | a single entry survives exactly when it is charged to another customer |
| Ledger.RemoveEntriesOfProduct | script.js:320 | the survivors are exactly the entries of other products; the list is unchanged when none is for the id |
| Consistency.RemoveEntriesOfProductAppend | script.js:320 | the filter of a concatenation is the concatenation of the filtered parts, so survivors keep their order |
| Consistency.RemoveEntriesOfProductOne | script.js:320 | a single entry survives exactly when it is for another product |
| Ledger.RemoveDeliveries | script.js:274 | the surviving history items are exactly those that differ from the entry in date, amount or quantity |
| Ledger.AddCustomer | script.js:193-197 | refused (EmptyName) exactly when the name is empty; otherwise exactly one customer is appended, with balance 0 and no history, and nothing else changes |
| Ledger.EditCustomer | script.js:281-287 | refused exactly when the id is unknown (UnknownId) or the name is empty; otherwise only name and phone of the first customer with the id change |
| Ledger.DeleteCustomer | script.js:294-295 | the customer and exactly the entries charged to it are gone, no remaining entry names the id, and products are unchanged |
| Ledger.AddProduct | script.js:204-210 | refused exactly when the name is empty (EmptyName) or the rate is NaN (InvalidRate); any other rate, negative included, is stored in exactly one appended product |
| Ledger.EditProduct | script.js:308-313 | refused exactly when the id is unknown, the name is empty or the rate is NaN; otherwise only the first matching product's name and rate change |
| Ledger.DeleteProduct | script.js:319-320 | the product and exactly its entries are gone, and every customer, balance and history is unchanged |
| Ledger.SaveEntry | script.js:230-246 | MissingField for an empty id or a NaN quantity or rate; refused exactly when also an id matches no record; otherwise one entry is appended with amount `Round2(qty*rate)` and the current names, and the first customer with the id gains that amount and one history item, while no other record changes |
| Ledger.DeleteEntry | script.js:269-276 | an unknown id changes nothing; otherwise every entry with the id goes, and the first owning customer loses the amount and every history item with the same date, amount and quantity, while no other customer changes |
| Consistency.AddCustomerKeepsConsistent | script.js:191-199 | adding a customer under a fresh id keeps every balance equal to its entry sum and every history equal to its entries' items |
| Consistency.EditCustomerKeepsConsistent | script.js:280-289 | renaming a customer keeps the ledger invariant |
| Consistency.DeleteCustomerKeepsWellFormed | script.js:291-297 | the cascade leaves unique ids and no entry naming a missing customer or product |
| Consistency.DeleteCustomerKeepsConsistent | script.js:291-297 | the cascading customer delete keeps the ledger invariant |
| Consistency.DeleteCustomerKeepsOrder | script.js:294-295 | the other customers keep their order; every entry stays between the surviving entries before it and those after it (and is dropped exactly when charged to the deleted customer); each other customer keeps exactly its own entries |
| Consistency.AddProductKeepsConsistent | script.js:202-212 | adding a product keeps the ledger invariant |
| Consistency.EditProductKeepsConsistent | script.js:307-314 | editing a product keeps the ledger invariant (entries keep their saved names and rates) |
| Consistency.DeleteProductKeepsWellFormed | script.js:316-322 | the product cascade keeps ids unique and entries linked |
| Consistency.DeleteUnusedProductKeepsConsistent | script.js:319-320 | deleting a product no entry uses keeps the ledger invariant |
| Consistency.DroppedProductLowersTotal | script.js:320 | with non-negative amounts, dropping a product's entries never raises a customer's entry sum, and strictly lowers it when a positive entry of that customer goes |
| Consistency.DeleteProductLeavesStaleBalance | script.js:319-320 | deleting the product of a positive entry breaks both balances and histories, since the customer keeps what the cascade removed |
| Consistency.SaveEntryKeepsConsistent | script.js:237-246 | saving an entry under a fresh id keeps the ledger invariant |
| Consistency.DeleteEntryRemovesOne | script.js:276 | with unique ids, deleting entry k leaves exactly the entries before and after it, in order |
| Consistency.DeleteEntryKeepsBalances | script.js:269-276 | deleting any id keeps ids unique, entries linked and every balance equal to its entry sum |
| Consistency.DeleteEntryKeepsConsistent | script.js:269-276 | when no other entry of the customer has the same date, quantity and amount, deleting the entry keeps the whole invariant |
| Consistency.DeleteEntryDropsTwinHistory | script.js:274-276 | when another entry of the customer has the same date, quantity and amount, that entry survives but its history item does not, so histories no longer match |
| Inverses.AddThenDeleteCustomer | script.js:197 | deleting a customer just added under a fresh id gives back the location |
| Inverses.AddThenDeleteProduct | script.js:210 | deleting a product just added under a fresh id gives back the location |
| Inverses.SaveThenDeleteEntry | script.js:240-276 | deleting an entry just saved gives back the location, the customer's balance and history included, provided the history held no item with the same date, quantity and amount |
| Aggregates.MonthEntries | script.js:348 | the month's rows are exactly the entries dated within that year and month |
| Aggregates.MonthEntriesAppend | script.js:348 | the month filter of a concatenation is the concatenation of the filtered parts, so rows keep ledger order |
| Aggregates.MonthEntriesOne | script.js:348 | a single entry is a row exactly when it is dated within the month |
| Aggregates.MonthTotals | script.js:114-118 | the loop's litres and amount are the quantity and amount sums over the month's entries |
| Aggregates.Dashboard | script.js:110-122 | the view holds the location name, the month's quantity and amount totals, the customer count and the entry count |
| Aggregates.SaveEntryMovesMonthTotals | script.js:242 | saving an entry adds its quantity and rounded amount to its own month's totals and leaves every other month's totals unchanged |
| Aggregates.Names | script.js:352 | the keys of `totals`: each customer name of the rows once, and nothing else |
| Aggregates.NamesInFirstOccurrenceOrder | script.js:352-359 | of any two names, the one listed first has its first row earlier: the insertion order in which `Object.keys(totals)` lists them |
| Aggregates.NamesAreRowNames | script.js:352 | a name is a key of the summary exactly when some row carries it |
| Aggregates.IndexOfAppend | script.js:352 | the first row with a name stays the first when a row is added, and a new name's first row is the added one |
| Aggregates.TotalsKey | script.js:352 | a name is a key of the totals exactly when some row carries it |
| Aggregates.TotalsValue | script.js:352 | each name's total is the quantity delivered to that name |
| Aggregates.Tally | script.js:349-355 | the loop's totalQty and totalAmt are the sums over the rows; the totals' keys are the names in first-occurrence order (the insertion order of `totals`), each with its delivered quantity |
| Aggregates.TotalsAddUp | script.js:351-355 | the per-name quantities over all names add up to the total quantity |
| Aggregates.MonthlySummary | script.js:342-355 | refused (NoMonth) exactly when no month is chosen; otherwise the month's totals, the per-name totals, and those totals summing to the total quantity |
| Aggregates.TrimStart | script.js:326 | removes exactly the leading white space: what is cut is white space and what is left starts with non-space |
| Aggregates.TrimEnd | script.js:326 | removes exactly the trailing white space |
| Aggregates.LowerChar | script.js:326 | an ASCII capital becomes the same letter in lower case, and every other character stays as it is |
| Aggregates.Lower | script.js:326 | maps each character by LowerChar and keeps the length; no upper-case ASCII letter remains |
| Aggregates.CustomerHits | script.js:331 | a customer is a hit exactly when its lower-cased name contains the query; each hit is tagged customer and its location |
| Aggregates.CustomerHitsAppend | script.js:331 | the hits of a concatenation are the hits of each part, so hits come in customer order |
| Aggregates.CustomerHitsOne | script.js:331 | a single customer gives exactly one hit when its name matches and none otherwise, so two matching customers with the same name give two hits |
| Aggregates.ProductHits | script.js:332 | a product is a hit exactly when its lower-cased name contains the query; each hit is tagged product and its location |
| Aggregates.ProductHitsAppend | script.js:332 | the hits of a concatenation are the hits of each part, so hits come in product order |
| Aggregates.ProductHitsOne | script.js:332 | a single product gives exactly one hit when its name matches and none otherwise |
| Aggregates.AllHits | script.js:329-333 | every hit names a matching customer or product of a listed location, and every matching customer and product of every location is a hit |
| Aggregates.AllHitsGrouped | script.js:329-333 | the hits come location by location in key order, and within a location customers come before products |
| Aggregates.Report | script.js:335 | at most 50 results: a prefix of the hits, and all of them when there are at most 50 |
| Aggregates.CollectCustomers | script.js:331 | the customer loop collects exactly the customer hits |
| Aggregates.CollectProducts | script.js:332 | the product loop collects exactly the product hits |
| Aggregates.Search | script.js:325-335 | refused (EmptyQuery) exactly when the trimmed, lower-cased query is empty; otherwise the first 50 of all hits, grouped by location with customers first |
| Store.RemoveKey | script.js:60-61 | the remaining keys are exactly the others; an absent key changes nothing |
| Store.RemoveKeyAppend | script.js:60-61 | removing a key from a concatenation removes it from each part, so the other keys keep their order |
| Store.RemoveKeyOne | script.js:60-61 | a single key remains exactly when it is not the deleted one |
| Store.FirstRemainingKey | script.js:60-62 | with distinct keys, the first key stays first when another is deleted, and deleting the first key leaves the rest in order |
| Store.RemoveKeyDistinct | script.js:60-61 | the remaining keys are still each listed once |
| Store.RemoveAddedKey | script.js:73 | deleting a location just added gives back the old key order |
| Store.Store.constructor | script.js:31-36 | an empty store is seeded with an empty "Main Farm"; the first key becomes current; a consistent saved store stays consistent |
| Store.Store.SelectLocation | script.js:54 | the chosen location becomes current and nothing else changes |
| Store.Store.AddLocation | script.js:69-76 | Done exactly for a non-empty new name: an empty record under it, last in key order and current; refused otherwise with nothing changed |
| Store.Store.DeleteLocation | script.js:57-63 | once confirmed, the location and its key go and the first remaining key (or none) becomes current, whichever location was deleted: the old first key when another was deleted, otherwise the old second |
| Store.Store.AddCustomer | script.js:191-199 | NoLocation without a selected location; otherwise the current record becomes Ledger.AddCustomer's result, and the ledger invariant of every location is kept |
| Store.Store.EditCustomer | script.js:280-289 | the current record becomes Ledger.EditCustomer's result or nothing changes; the invariant is kept |
| Store.Store.DeleteCustomer | script.js:291-297 | nothing changes unless confirmed; then the current record becomes Ledger.DeleteCustomer's result; the invariant is kept |
| Store.Store.AddProduct | script.js:202-212 | NoLocation without a selected location; otherwise the current record becomes Ledger.AddProduct's result; the invariant is kept |
| Store.Store.EditProduct | script.js:307-314 | the current record becomes Ledger.EditProduct's result or nothing changes; the invariant is kept |
| Store.Store.DeleteProduct | script.js:316-322 | nothing changes unless confirmed; then the current record becomes Ledger.DeleteProduct's result; unique ids and linked entries are kept |
| Store.Store.SaveEntry | script.js:229-247 | NoLocation without a selected location; otherwise the current record becomes Ledger.SaveEntry's result or nothing changes; the invariant is kept |
| Store.Store.DeleteEntry | script.js:267-277 | nothing changes unless confirmed; then the current record becomes Ledger.DeleteEntry's result; balances keep matching the entry sums |
| Store.Store.ShowDashboard | script.js:108-123 | an error (NoLocation) exactly when no location is selected; otherwise the dashboard of the current location |
| Store.Store.ShowSummary | script.js:340-362 | an error exactly when no location is selected (NoLocation) or no month is chosen (NoMonth); otherwise the summary of the current location's month |
| Store.Store.SearchAll | script.js:325-336 | the search over every location in key order, whatever location is selected |

## Left out

- DOM rendering, the `innerHTML` templates, tab switching and the `alert` texts are left out. Dialog answers are method parameters, and alerts are `Refusal` values.
- The live amount preview and the form-clearing code (script.js:215-227, 248-264) are left out; they only touch form fields.
- `openCustomer` (script.js:299-305) and the `window.*` stubs (script.js:372-374) are left out; they only display or forward.
- Persistence (`localStorage`, `JSON.stringify`/`JSON.parse`, `save()`) is left out. The constructor takes the loaded keys and records as parameters and assumes well-shaped records. The `|| 0` and `|| []` fallbacks for a missing balance or history are therefore not modelled.
- `uid()` uses the clock and a random number. Ids are parameters, and the methods that create records require them to be fresh in every location.
- The save handler's date default (today, from the clock) is left out. The date is a parameter the caller fills in.
- Entities.Round2: numbers are exact reals, not IEEE doubles. `toFixed` is modelled on the exact value, and the double rounding of `qty * rate` and of the running sums is not captured.
- Aggregates.InMonth: the month test is year/month equality. The source reads `new Date(e.date)`, which is UTC midnight, in local time. In time zones west of UTC, the summary (script.js:345-348) drops entries dated on the month's first day, and the dashboard (script.js:116-117) counts them in the previous month. In zones east of UTC, the summary drops entries dated on the month's last day.
- Aggregates.Lower: only ASCII letters are lower-cased. `toLowerCase` also maps other scripts' upper-case letters.
- Store.Store.AddLocation: `data.locations[name]` is also truthy for names the object inherits (such as "constructor"). The source refuses those names, while the model refuses only existing keys.
- Store.Store.AddLocation: a new key goes last in `order`, but `Object.keys` lists integer-like names such as "12" first, in ascending numeric order (script.js:61, 73). Store.Store.DeleteLocation's first remaining key and Store.Store.SearchAll's location order inherit this insertion order.
- Aggregates.Tally: `Object.keys(totals)` (script.js:359) lists integer-like names such as "12" first, in ascending numeric order; the model lists every name in first-occurrence order.
- Aggregates.Tally: a customer named like an inherited property (such as "constructor") makes the source's `totals[name] || 0` start from that property, and a customer named "__proto__" never becomes a key, because the assignment at script.js:352 goes to the prototype setter; its total is then missing and the shown totals no longer add up to totalQty. The model starts every name at 0 and keeps every name.
- Aggregates.MonthlySummary: inherits both Tally gaps above, since it reports Tally's names and totals.
- Store.Store.DeleteProduct: only unique ids and linked entries are kept. The source leaves balances and histories stale, which Consistency.DeleteProductLeavesStaleBalance shows.
- Store.Store.DeleteEntry: only balances are kept. Histories lose every item matching the entry's date, quantity and amount, which Consistency.DeleteEntryDropsTwinHistory shows. The full invariant holds under the condition of Consistency.DeleteEntryKeepsConsistent.
- Records are values, not shared objects. No record in the source is reachable from two places, so no aliasing is lost.
