/** The read-only handlers of script.js: the dashboard's totals for the
    current month, the monthly summary with its per-customer quantities,
    and the search over every location's customer and product names. Each
    is a loop accumulating into local variables, proved against a recursive
    definition of what it accumulates. */
module Aggregates {
  import opened Entities
  import opened Ledger

  // ---------------------------------------------------------------------
  // Month filter and sums.

  /** A calendar month, as an `<input type="month">` gives it. */
  datatype Month = Month(year: int, month: int)

  predicate InMonth(d: Date, m: Month)
  {
    d.year == m.year && d.month == m.month
  }

  /** The entries dated within month `m`, in ledger order. */
  function MonthEntries(es: seq<Entry>, m: Month): (r: seq<Entry>)
    ensures forall e :: e in r <==> e in es && InMonth(e.date, m)
  {
    if es == [] then []
    else
      var init, last := es[..|es| - 1], es[|es| - 1];
      assert es == init + [last];
      var rest := MonthEntries(init, m);
      if InMonth(last.date, m) then rest + [last] else rest
  }

  /** The month filter keeps the entries in ledger order: filtering a
      concatenation filters each part. */
  lemma {:induction false} MonthEntriesAppend(a: seq<Entry>, b: seq<Entry>, m: Month)
    ensures MonthEntries(a + b, m) == MonthEntries(a, m) + MonthEntries(b, m)
    decreases |b|
  {
    if b == [] {
      assert a + b == a;
    } else {
      var init := b[..|b| - 1];
      assert (a + b)[..|a + b| - 1] == a + init;
      MonthEntriesAppend(a, init, m);
    }
  }

  lemma MonthEntriesOne(e: Entry, m: Month)
    ensures MonthEntries([e], m) == if InMonth(e.date, m) then [e] else []
  {
    assert [e][..0] == [];
  }

  function SumQty(es: seq<Entry>): real
  {
    if es == [] then 0.0 else SumQty(es[..|es| - 1]) + es[|es| - 1].qty
  }

  // ---------------------------------------------------------------------
  // Dashboard.

  /** What the dashboard shows for the current location. */
  datatype DashboardView = DashboardView(location: string, litres: real, amount: real, customers: nat, entries: nat)

  /** The dashboard's loop: quantity and amount of this month's entries. */
  method MonthTotals(es: seq<Entry>, m: Month) returns (litres: real, amount: real)
    ensures litres == SumQty(MonthEntries(es, m))
    ensures amount == SumAmount(MonthEntries(es, m))
  {
    litres, amount := 0.0, 0.0;
    var i := 0;
    while i < |es|
      invariant 0 <= i <= |es|
      invariant litres == SumQty(MonthEntries(es[..i], m))
      invariant amount == SumAmount(MonthEntries(es[..i], m))
    {
      assert es[..i + 1][..i] == es[..i];
      var e := es[i];
      if InMonth(e.date, m) {
        litres := litres + e.qty;
        amount := amount + e.amount;
      }
      i := i + 1;
    }
    assert es[..i] == es;
  }

  /** `v` is the dashboard of location `loc` named `name` in month `m`. */
  predicate IsDashboard(name: string, loc: Location, m: Month, v: DashboardView)
  {
    && v.location == name
    && v.litres == SumQty(MonthEntries(loc.entries, m))
    && v.amount == SumAmount(MonthEntries(loc.entries, m))
    && v.customers == |loc.customers| && v.entries == |loc.entries|
  }

  /** The dashboard of location `name`, on a day of month `today`. */
  method Dashboard(name: string, loc: Location, today: Month) returns (v: DashboardView)
    ensures IsDashboard(name, loc, today, v)
  {
    var litres, amount := MonthTotals(loc.entries, today);
    v := DashboardView(name, litres, amount, |loc.customers|, |loc.entries|);
  }

  /** Saving an entry adds its quantity and amount to the totals of its own
      month and leaves every other month's totals alone. */
  lemma SaveEntryMovesMonthTotals(loc: Location, entryId: string, customerId: string, productId: string,
                                  date: Date, qty: Parsed, rate: Parsed, m: Month)
    requires SaveEntry(loc, entryId, customerId, productId, date, qty, rate).Ok?
    ensures var after := SaveEntry(loc, entryId, customerId, productId, date, qty, rate).value.entries;
      && SumQty(MonthEntries(after, m)) ==
           SumQty(MonthEntries(loc.entries, m)) + (if InMonth(date, m) then qty.x else 0.0)
      && SumAmount(MonthEntries(after, m)) ==
           SumAmount(MonthEntries(loc.entries, m)) + (if InMonth(date, m) then Round2(qty.x * rate.x) else 0.0)
  {
    var after := SaveEntry(loc, entryId, customerId, productId, date, qty, rate).value.entries;
    assert after[..|after| - 1] == loc.entries;
  }

  // ---------------------------------------------------------------------
  // Monthly summary.

  /** The summary's figures: the totals over the month and, per customer
      name in the order the names first occur, the quantity delivered. */
  datatype Summary = Summary(totalQty: real, totalAmount: real, names: seq<string>, totals: map<string, real>)

  /** The customer names of `rows`, each once, in order of first
      occurrence: the keys of the `totals` object. */
  function Names(rows: seq<Entry>): (r: seq<string>)
    ensures forall n :: n in r <==> exists e :: e in rows && e.customerName == n
    ensures Distinct(r)
  {
    if rows == [] then []
    else
      var init, last := rows[..|rows| - 1], rows[|rows| - 1];
      assert rows == init + [last];
      var rest := Names(init);
      if last.customerName in rest then rest
      else
        assert forall i :: 0 <= i < |rest| ==> (rest + [last.customerName])[i] == rest[i];
        rest + [last.customerName]
  }

  /** The customer name of each row, in row order. */
  function RowNames(rows: seq<Entry>): (ns: seq<string>)
    ensures |ns| == |rows| && forall i :: 0 <= i < |rows| ==> ns[i] == rows[i].customerName
  {
    seq(|rows|, i requires 0 <= i < |rows| => rows[i].customerName)
  }

  /** Looking a name up after appending one more keeps an earlier hit, and
      finds the appended name at the end when it is new. */
  lemma {:induction false} IndexOfAppend(ids: seq<string>, x: string, n: string)
    ensures n in ids ==> IndexOf(ids + [x], n) == IndexOf(ids, n)
    ensures n !in ids && x == n ==> IndexOf(ids + [x], n) == Some(|ids|)
    decreases |ids|
  {
    if ids != [] && ids[0] != n {
      assert (ids + [x])[1..] == ids[1..] + [x];
      IndexOfAppend(ids[1..], x, n);
    }
  }

  /** A name of the rows is the name of some row, and a name that is not
      one of them is no row's name. */
  lemma NamesAreRowNames(rows: seq<Entry>, n: string)
    ensures n in Names(rows) <==> n in RowNames(rows)
  {
    if n in Names(rows) {
      var e :| e in rows && e.customerName == n;
      var k :| 0 <= k < |rows| && rows[k] == e;
      assert RowNames(rows)[k] == n;
    }
    if n in RowNames(rows) {
      var k :| 0 <= k < |rows| && RowNames(rows)[k] == n;
      assert rows[k] in rows;
    }
  }

  /** The names come in the order of their first rows: `Object.keys` of the
      `totals` object lists its keys in insertion order. */
  lemma {:induction false} NamesInFirstOccurrenceOrder(rows: seq<Entry>, i: nat, j: nat)
    requires i < j < |Names(rows)|
    ensures Names(rows)[i] in RowNames(rows) && Names(rows)[j] in RowNames(rows)
    ensures IndexOf(RowNames(rows), Names(rows)[i]).value < IndexOf(RowNames(rows), Names(rows)[j]).value
    decreases |rows|
  {
    var ns := Names(rows);
    NamesAreRowNames(rows, ns[i]);
    NamesAreRowNames(rows, ns[j]);
    var init, last := rows[..|rows| - 1], rows[|rows| - 1];
    assert rows == init + [last];
    var before := Names(init);
    assert RowNames(rows) == RowNames(init) + [last.customerName];
    NamesAreRowNames(init, ns[i]);
    NamesAreRowNames(init, ns[j]);
    IndexOfAppend(RowNames(init), last.customerName, ns[i]);
    IndexOfAppend(RowNames(init), last.customerName, ns[j]);
    if j < |before| {
      assert ns[i] == before[i] && ns[j] == before[j];
      NamesInFirstOccurrenceOrder(init, i, j);
    } else {
      assert ns == before + [last.customerName];
      assert ns[i] == before[i];
    }
  }

  /** The quantity delivered to customer name `n` in `rows`. */
  function QtyOf(rows: seq<Entry>, n: string): real
  {
    if rows == [] then 0.0
    else QtyOf(rows[..|rows| - 1], n) + (if rows[|rows| - 1].customerName == n then rows[|rows| - 1].qty else 0.0)
  }

  /** The sum of `totals` over the names `ns`. */
  function SumOver(ns: seq<string>, totals: map<string, real>): real
    requires forall n :: n in ns ==> n in totals
  {
    if ns == [] then 0.0 else SumOver(ns[..|ns| - 1], totals) + totals[ns[|ns| - 1]]
  }

  /** The `totals` object after the first rows: each row adds its
      quantity to its customer name's entry, starting from 0. */
  function Totals(rows: seq<Entry>): map<string, real>
  {
    if rows == [] then map[]
    else
      var t, last := Totals(rows[..|rows| - 1]), rows[|rows| - 1];
      t[last.customerName := (if last.customerName in t then t[last.customerName] else 0.0) + last.qty]
  }

  /** The keys of the totals are the customer names. */
  lemma {:induction false} TotalsKey(rows: seq<Entry>, n: string)
    ensures n in Totals(rows) <==> n in Names(rows)
    decreases |rows|
  {
    if rows != [] {
      var init, last := rows[..|rows| - 1], rows[|rows| - 1];
      assert rows == init + [last];
      TotalsKey(init, n);
      TotalsKey(init, last.customerName);
    }
  }

  /** Each name's total is the quantity delivered to it. */
  lemma {:induction false} TotalsValue(rows: seq<Entry>, n: string)
    requires n in Totals(rows)
    ensures Totals(rows)[n] == QtyOf(rows, n)
    decreases |rows|
  {
    var init, last := rows[..|rows| - 1], rows[|rows| - 1];
    if n in Totals(init) {
      TotalsValue(init, n);
    } else {
      TotalsKey(init, n);
      assert rows == init + [last];
      NoQtyOfAbsent(init, n);
    }
  }

  /** The summary handler's `rows.forEach(...)`: the overall quantity and
      amount, and the quantity per customer name, with the names in the
      order the `totals` object receives them as keys. */
  method Tally(rows: seq<Entry>) returns (s: Summary)
    ensures s.totalQty == SumQty(rows) && s.totalAmount == SumAmount(rows)
    ensures s.names == Names(rows)
    ensures forall n :: n in s.totals <==> n in s.names
    ensures forall n :: n in s.totals ==> s.totals[n] == QtyOf(rows, n)
  {
    var totalQty, totalAmt := 0.0, 0.0;
    var names: seq<string> := [];
    var totals: map<string, real> := map[];
    var i := 0;
    while i < |rows|
      invariant 0 <= i <= |rows|
      invariant totalQty == SumQty(rows[..i]) && totalAmt == SumAmount(rows[..i])
      invariant names == Names(rows[..i]) && totals == Totals(rows[..i])
    {
      assert rows[..i + 1][..i] == rows[..i];
      TotalsKey(rows[..i], rows[i].customerName);
      var row := rows[i];
      var n := row.customerName;
      if n !in totals {
        names := names + [n];
        totals := totals[n := 0.0 + row.qty];
      } else {
        totals := totals[n := totals[n] + row.qty];
      }
      totalQty := totalQty + row.qty;
      totalAmt := totalAmt + row.amount;
      i := i + 1;
    }
    assert rows[..i] == rows;
    forall n ensures n in totals <==> n in names {
      TotalsKey(rows, n);
    }
    forall n | n in totals ensures totals[n] == QtyOf(rows, n) {
      TotalsValue(rows, n);
    }
    s := Summary(totalQty, totalAmt, names, totals);
  }

  /** `s` is the summary of location `loc` for month `m`: the totals over
      the month's entries, one total per customer name in order of first
      occurrence, each the quantity that name received, and together the
      overall quantity. */
  ghost predicate IsSummary(loc: Location, m: Month, s: Summary)
  {
    var rows := MonthEntries(loc.entries, m);
    && s.totalQty == SumQty(rows)
    && s.totalAmount == SumAmount(rows)
    && s.names == Names(rows)
    && (forall n :: n in s.totals <==> n in s.names)
    && (forall n :: n in s.totals ==> s.totals[n] == QtyOf(rows, n))
    && SumOver(s.names, s.totals) == s.totalQty
  }

  /** The summary handler, once a location is selected: refuse a missing
      month, filter the entries to the month, then tally them. */
  method MonthlySummary(loc: Location, month: Option<Month>) returns (r: Result<Summary>)
    ensures r.Err? <==> month.None?
    ensures r.Err? ==> r.why == NoMonth
    ensures r.Ok? ==> IsSummary(loc, month.value, r.value)
  {
    if month.None? {
      return Err(NoMonth);
    }
    var rows := MonthEntries(loc.entries, month.value);
    var s := Tally(rows);
    TotalsAddUp(rows);
    SumOverQty(s.names, s.totals, rows);
    r := Ok(s);
  }

  /** Summing the per-name quantities over distinct names that include
      every name of `rows` gives the quantity of `rows`. */
  function QtyOver(ns: seq<string>, rows: seq<Entry>): real
  {
    if ns == [] then 0.0 else QtyOver(ns[..|ns| - 1], rows) + QtyOf(rows, ns[|ns| - 1])
  }

  lemma {:induction false} QtyOverAppendRow(ns: seq<string>, rows: seq<Entry>, e: Entry)
    requires Distinct(ns)
    ensures QtyOver(ns, rows + [e]) == QtyOver(ns, rows) + (if e.customerName in ns then e.qty else 0.0)
    decreases |ns|
  {
    if ns != [] {
      var init, last := ns[..|ns| - 1], ns[|ns| - 1];
      assert ns == init + [last];
      assert Distinct(init);
      assert last !in init;
      assert (rows + [e])[..|rows|] == rows;
      QtyOverAppendRow(init, rows, e);
    }
  }

  /** A name no row carries has nothing delivered. */
  lemma {:induction false} NoQtyOfAbsent(rows: seq<Entry>, n: string)
    requires forall e :: e in rows ==> e.customerName != n
    ensures QtyOf(rows, n) == 0.0
    decreases |rows|
  {
    if rows != [] {
      assert rows[|rows| - 1] in rows;
      NoQtyOfAbsent(rows[..|rows| - 1], n);
    }
  }

  /** The totals of every customer name add up to the overall quantity. */
  lemma {:induction false} TotalsAddUp(rows: seq<Entry>)
    ensures QtyOver(Names(rows), rows) == SumQty(rows)
    decreases |rows|
  {
    if rows != [] {
      var init, e := rows[..|rows| - 1], rows[|rows| - 1];
      assert rows == init + [e];
      TotalsAddUp(init);
      var ns, n := Names(init), e.customerName;
      QtyOverAppendRow(ns, init, e);
      assert SumQty(rows) == SumQty(init) + e.qty;
      if n in ns {
        assert Names(rows) == ns;
      } else {
        assert forall x :: x in init ==> x.customerName != n;
        NoQtyOfAbsent(init, n);
        assert QtyOf(rows, n) == e.qty;
        assert Names(rows) == ns + [n];
        assert (ns + [n])[..|ns|] == ns;
        assert QtyOver(ns + [n], rows) == QtyOver(ns, rows) + e.qty;
      }
    }
  }

  lemma {:induction false} SumOverQty(ns: seq<string>, totals: map<string, real>, rows: seq<Entry>)
    requires forall n :: n in ns ==> n in totals && totals[n] == QtyOf(rows, n)
    ensures SumOver(ns, totals) == QtyOver(ns, rows)
    decreases |ns|
  {
    if ns != [] {
      assert ns[|ns| - 1] in ns;
      SumOverQty(ns[..|ns| - 1], totals, rows);
    }
  }

  // ---------------------------------------------------------------------
  // Search.

  /** The characters `String.prototype.trim` removes: white space and line
      terminators. */
  predicate IsSpace(c: char)
  {
    || c == ' ' || c == '\t' || c == '\n' || c == '\r' || c == '\U{000B}' || c == '\U{000C}'
    || c == '\U{00A0}' || c == '\U{1680}' || ('\U{2000}' <= c <= '\U{200A}')
    || c == '\U{2028}' || c == '\U{2029}' || c == '\U{202F}' || c == '\U{205F}'
    || c == '\U{3000}' || c == '\U{FEFF}'
  }

  /** `s` without its leading white space. */
  function TrimStart(s: string): (r: string)
    ensures |r| <= |s| && r == s[|s| - |r|..]
    ensures forall i :: 0 <= i < |s| - |r| ==> IsSpace(s[i])
    ensures r != [] ==> !IsSpace(r[0])
  {
    if s != [] && IsSpace(s[0]) then TrimStart(s[1..]) else s
  }

  /** `s` without its trailing white space. */
  function TrimEnd(s: string): (r: string)
    ensures |r| <= |s| && r == s[..|r|]
    ensures forall i :: |r| <= i < |s| ==> IsSpace(s[i])
    ensures r != [] ==> !IsSpace(r[|r| - 1])
  {
    if s != [] && IsSpace(s[|s| - 1]) then TrimEnd(s[..|s| - 1]) else s
  }

  function Trim(s: string): string
  {
    TrimEnd(TrimStart(s))
  }

  function LowerChar(c: char): (d: char)
    ensures !('A' <= d <= 'Z')
    ensures !('A' <= c <= 'Z') ==> d == c
    ensures 'A' <= c <= 'Z' ==> d as int == c as int - 'A' as int + 'a' as int
  {
    if 'A' <= c <= 'Z' then (c as int - 'A' as int + 'a' as int) as char else c
  }

  /** `toLowerCase` on the ASCII letters. */
  function Lower(s: string): (r: string)
    ensures |r| == |s| && forall i :: 0 <= i < |s| ==> r[i] == LowerChar(s[i])
  {
    seq(|s|, i requires 0 <= i < |s| => LowerChar(s[i]))
  }

  /** The query as the search handler uses it. */
  function Normalize(query: string): string
  {
    Lower(Trim(query))
  }

  /** `q` occurs in `s` starting at position `i`. */
  predicate OccursAt(s: string, q: string, i: int)
  {
    0 <= i && i + |q| <= |s| && s[i..i + |q|] == q
  }

  /** `s.includes(q)` */
  predicate Contains(s: string, q: string)
  {
    exists i :: 0 <= i <= |s| && OccursAt(s, q, i)
  }

  datatype Kind = CustomerHit | ProductHit

  /** One line of the result: `<name> — customer @ <location>` or
      `<name> — product @ <location>`. */
  datatype Hit = Hit(name: string, kind: Kind, location: string)

  /** At most this many results are shown. */
  const MaxResults := 50

  predicate Matches(name: string, q: string)
  {
    Contains(Lower(name), q)
  }

  function CustomerHits(cs: seq<Customer>, q: string, at: string): (r: seq<Hit>)
    ensures forall h :: h in r ==> h.kind == CustomerHit && h.location == at && Matches(h.name, q)
    ensures forall h :: h in r ==> exists c :: c in cs && c.name == h.name
    ensures forall c :: c in cs && Matches(c.name, q) ==> Hit(c.name, CustomerHit, at) in r
  {
    if cs == [] then []
    else
      var init, last := cs[..|cs| - 1], cs[|cs| - 1];
      assert cs == init + [last];
      var rest := CustomerHits(init, q, at);
      if Matches(last.name, q) then rest + [Hit(last.name, CustomerHit, at)] else rest
  }

  function ProductHits(ps: seq<Product>, q: string, at: string): (r: seq<Hit>)
    ensures forall h :: h in r ==> h.kind == ProductHit && h.location == at && Matches(h.name, q)
    ensures forall h :: h in r ==> exists p :: p in ps && p.name == h.name
    ensures forall p :: p in ps && Matches(p.name, q) ==> Hit(p.name, ProductHit, at) in r
  {
    if ps == [] then []
    else
      var init, last := ps[..|ps| - 1], ps[|ps| - 1];
      assert ps == init + [last];
      var rest := ProductHits(init, q, at);
      if Matches(last.name, q) then rest + [Hit(last.name, ProductHit, at)] else rest
  }

  /** One hit per matching customer (or product), in list order: the hits
      of a concatenation are the hits of each part. */
  lemma {:induction false} CustomerHitsAppend(a: seq<Customer>, b: seq<Customer>, q: string, at: string)
    ensures CustomerHits(a + b, q, at) == CustomerHits(a, q, at) + CustomerHits(b, q, at)
    decreases |b|
  {
    if b == [] {
      assert a + b == a;
    } else {
      var init := b[..|b| - 1];
      assert (a + b)[..|a + b| - 1] == a + init;
      CustomerHitsAppend(a, init, q, at);
    }
  }

  lemma CustomerHitsOne(c: Customer, q: string, at: string)
    ensures CustomerHits([c], q, at) == if Matches(c.name, q) then [Hit(c.name, CustomerHit, at)] else []
  {
    assert [c][..0] == [];
  }

  lemma {:induction false} ProductHitsAppend(a: seq<Product>, b: seq<Product>, q: string, at: string)
    ensures ProductHits(a + b, q, at) == ProductHits(a, q, at) + ProductHits(b, q, at)
    decreases |b|
  {
    if b == [] {
      assert a + b == a;
    } else {
      var init := b[..|b| - 1];
      assert (a + b)[..|a + b| - 1] == a + init;
      ProductHitsAppend(a, init, q, at);
    }
  }

  lemma ProductHitsOne(p: Product, q: string, at: string)
    ensures ProductHits([p], q, at) == if Matches(p.name, q) then [Hit(p.name, ProductHit, at)] else []
  {
    assert [p][..0] == [];
  }

  /** The hit's name belongs to a customer (or product) of its location. */
  predicate Named(loc: Location, h: Hit)
  {
    match h.kind
    case CustomerHit => exists c :: c in loc.customers && c.name == h.name
    case ProductHit => exists p :: p in loc.products && p.name == h.name
  }

  /** Every hit of the locations in `order`, before the cut to MaxResults. */
  function AllHits(order: seq<string>, locations: map<string, Location>, q: string): (r: seq<Hit>)
    requires forall n :: n in order ==> n in locations
    ensures forall h :: h in r ==> h.location in order && Matches(h.name, q) && Named(locations[h.location], h)
    ensures forall n, c :: n in order && c in locations[n].customers && Matches(c.name, q) ==>
      Hit(c.name, CustomerHit, n) in r
    ensures forall n, p :: n in order && p in locations[n].products && Matches(p.name, q) ==>
      Hit(p.name, ProductHit, n) in r
  {
    if order == [] then []
    else
      var init, last := order[..|order| - 1], order[|order| - 1];
      assert order == init + [last];
      var loc := locations[last];
      AllHits(init, locations, q) + CustomerHits(loc.customers, q, last) + ProductHits(loc.products, q, last)
  }

  /** `res.slice(0, 50)` */
  function Report(hs: seq<Hit>): (r: seq<Hit>)
    ensures |r| <= MaxResults && |r| <= |hs| && r == hs[..|r|]
    ensures |hs| <= MaxResults ==> r == hs
  {
    if |hs| <= MaxResults then hs else hs[..MaxResults]
  }

  /** `loc.customers.forEach(...)`: the customers whose name matches. */
  method CollectCustomers(cs: seq<Customer>, q: string, at: string) returns (hs: seq<Hit>)
    ensures hs == CustomerHits(cs, q, at)
  {
    hs := [];
    var j := 0;
    while j < |cs|
      invariant 0 <= j <= |cs|
      invariant hs == CustomerHits(cs[..j], q, at)
    {
      assert cs[..j + 1][..j] == cs[..j];
      if Matches(cs[j].name, q) {
        hs := hs + [Hit(cs[j].name, CustomerHit, at)];
      }
      j := j + 1;
    }
    assert cs[..j] == cs;
  }

  /** `loc.products.forEach(...)`: the products whose name matches. */
  method CollectProducts(ps: seq<Product>, q: string, at: string) returns (hs: seq<Hit>)
    ensures hs == ProductHits(ps, q, at)
  {
    hs := [];
    var k := 0;
    while k < |ps|
      invariant 0 <= k <= |ps|
      invariant hs == ProductHits(ps[..k], q, at)
    {
      assert ps[..k + 1][..k] == ps[..k];
      if Matches(ps[k].name, q) {
        hs := hs + [Hit(ps[k].name, ProductHit, at)];
      }
      k := k + 1;
    }
    assert ps[..k] == ps;
  }

  lemma AllHitsStep(order: seq<string>, locations: map<string, Location>, q: string, i: nat)
    requires i < |order| && forall n :: n in order ==> n in locations
    ensures forall n :: n in order[..i + 1] ==> n in locations
    ensures forall n :: n in order[..i] ==> n in locations
    ensures AllHits(order[..i + 1], locations, q) ==
      AllHits(order[..i], locations, q)
        + CustomerHits(locations[order[i]].customers, q, order[i])
        + ProductHits(locations[order[i]].products, q, order[i])
  {
    assert order[..i + 1][..i] == order[..i];
  }

  /** The search handler: normalize the query, refuse an empty one, collect
      the hits location by location (customers, then products) and report
      the first MaxResults. An empty list is the "No results" alert. */
  method Search(order: seq<string>, locations: map<string, Location>, query: string) returns (r: Result<seq<Hit>>)
    requires Distinct(order) && forall n :: n in order ==> n in locations
    ensures r.Err? <==> Normalize(query) == []
    ensures r.Err? ==> r.why == EmptyQuery
    ensures r.Ok? ==> r.value == Report(AllHits(order, locations, Normalize(query)))
    ensures r.Ok? ==> Grouped(order, r.value)
  {
    var q := Normalize(query);
    if q == [] {
      return Err(EmptyQuery);
    }
    var res: seq<Hit> := [];
    var i := 0;
    while i < |order|
      invariant 0 <= i <= |order|
      invariant forall n :: n in order[..i] ==> n in locations
      invariant res == AllHits(order[..i], locations, q)
    {
      AllHitsStep(order, locations, q, i);
      var at := order[i];
      var found := CollectCustomers(locations[at].customers, q, at);
      res := res + found;
      found := CollectProducts(locations[at].products, q, at);
      res := res + found;
      i := i + 1;
    }
    assert order[..i] == order;
    AllHitsGrouped(order, locations, q);
    r := Ok(Report(res));
  }

  /** The hits come location by location in key order, and within one
      location every customer before every product. */
  predicate Grouped(order: seq<string>, hs: seq<Hit>)
  {
    forall i, j :: 0 <= i < j < |hs| ==>
      && (hs[i].location == hs[j].location ==> hs[i].kind == CustomerHit || hs[j].kind == ProductHit)
      && (hs[i].location != hs[j].location ==>
            exists a, b :: 0 <= a < b < |order| && order[a] == hs[i].location && order[b] == hs[j].location)
  }

  lemma {:induction false} AllHitsGrouped(order: seq<string>, locations: map<string, Location>, q: string)
    requires forall n :: n in order ==> n in locations
    requires Distinct(order)
    ensures Grouped(order, AllHits(order, locations, q))
    decreases |order|
  {
    if order != [] {
      var init, last := order[..|order| - 1], order[|order| - 1];
      assert order == init + [last];
      assert Distinct(init);
      AllHitsGrouped(init, locations, q);
      var loc := locations[last];
      var before := AllHits(init, locations, q);
      var cs, ps := CustomerHits(loc.customers, q, last), ProductHits(loc.products, q, last);
      var hs := before + cs + ps;
      assert last !in init;
      forall i, j | 0 <= i < j < |hs|
        ensures hs[i].location == hs[j].location ==> hs[i].kind == CustomerHit || hs[j].kind == ProductHit
        ensures hs[i].location != hs[j].location ==>
          exists a, b :: 0 <= a < b < |order| && order[a] == hs[i].location && order[b] == hs[j].location
      {
        if j < |before| {
          assert hs[i] == before[i] && hs[j] == before[j];
        } else if i < |before| {
          assert hs[i] == before[i] && hs[i] in before;
          assert hs[j] in cs + ps;
          var a :| 0 <= a < |init| && init[a] == hs[i].location;
          assert order[a] == init[a];
        } else if j < |before| + |cs| {
          assert hs[i] in cs && hs[j] in cs;
        } else {
          assert hs[j] in ps;
          assert hs[i] in cs + ps;
        }
      }
    }
  }
}
