/** One pass of the monitor loop (`monitor_products`): every record is
    re-fetched, a stock change produces an alert and overwrites the stored
    stock, and the watchlist is saved only when something changed. */
module Monitor {
  import opened Optional
  import opened Watchlist
  import opened Fetch

  /** The stock-change notification: READY with the count when stock is
      positive, HABIS (sold out) otherwise. */
  datatype Alert = Ready(name: string, stock: int, url: string) | SoldOut(name: string, url: string)

  /** One message handed to the chat client. */
  datatype Message = Message(chat: int, alert: Alert)

  datatype CycleResult = CycleResult(products: Products, alerts: seq<Alert>, changed: bool)

  /** The fetch succeeded and reports a stock other than the stored one. */
  predicate Moved(p: Product, f: Option<Snapshot>) {
    f.Some? && f.value.stock != p.lastStock
  }

  function AlertOf(s: Snapshot): (a: Alert)
    ensures a.Ready? <==> s.stock > 0
    ensures a.name == s.name && a.url == s.url
    ensures a.Ready? ==> a.stock == s.stock
  {
    if s.stock > 0 then Ready(s.name, s.stock, s.url) else SoldOut(s.name, s.url)
  }

  /** One pass over the watchlist, records visited in order. */
  function Cycle(ps: Products, fetch: Oracle): (r: CycleResult)
    ensures |r.products| == |ps| && |r.alerts| <= |ps|
    ensures r.alerts == [] <==> !r.changed
    decreases |ps|
  {
    if ps == [] then CycleResult([], [], false)
    else
      var front := Cycle(ps[..|ps| - 1], fetch);
      var p := ps[|ps| - 1];
      var f := fetch(p.Id());
      if Moved(p, f) then
        CycleResult(front.products + [p.(lastStock := f.value.stock)], front.alerts + [AlertOf(f.value)], true)
      else
        CycleResult(front.products + [p], front.alerts, front.changed)
  }

  /** `q` is `p` after a pass that saw fetch result `f`: only `last_stock`
      may differ; a failed fetch leaves the record untouched, a successful
      one leaves the fetched stock. */
  predicate Refreshed(p: Product, q: Product, f: Option<Snapshot>) {
    && q.(lastStock := p.lastStock) == p
    && (f.None? ==> q == p)
    && (f.Some? ==> q.lastStock == f.value.stock)
  }

  /** What a pass does to the watchlist: every position is refreshed in
      place; the pass reports a change exactly when some stock moved, and
      when it reports none the watchlist is exactly as before. */
  predicate OnlyStockMoves(ps: Products, fetch: Oracle) {
    var r := Cycle(ps, fetch);
    && (forall i :: 0 <= i < |ps| ==> Refreshed(ps[i], r.products[i], fetch(ps[i].Id())))
    && (r.changed <==> exists i :: 0 <= i < |ps| && Moved(ps[i], fetch(ps[i].Id())))
    && (!r.changed ==> r.products == ps)
  }

  lemma {:induction false} CycleFrame(ps: Products, fetch: Oracle)
    ensures OnlyStockMoves(ps, fetch)
    decreases |ps|
  {
    if ps != [] {
      var n := |ps| - 1;
      var init, p := ps[..n], ps[n];
      assert ps == init + [p];
      CycleFrame(init, fetch);
      FrameSnoc(init, p, fetch);
    }
  }

  lemma FrameSnoc(init: Products, p: Product, fetch: Oracle)
    requires OnlyStockMoves(init, fetch)
    ensures OnlyStockMoves(init + [p], fetch)
  {
  }

  /** Appending a record to the pass's input appends its outcome to the pass's output. */
  lemma CycleSnoc(ps: Products, p: Product, fetch: Oracle)
    ensures var front, f := Cycle(ps, fetch), fetch(p.Id());
      Cycle(ps + [p], fetch) ==
        if Moved(p, f) then CycleResult(front.products + [p.(lastStock := f.value.stock)], front.alerts + [AlertOf(f.value)], true)
        else CycleResult(front.products + [p], front.alerts, front.changed)
  {
  }

  /** Records are handled independently: a pass over two watchlists joined
      end to end gives the two passes' watchlists and alerts joined, and
      reports a change when either does. */
  lemma {:induction false} CycleAppend(a: Products, b: Products, fetch: Oracle)
    ensures AppendSplits(a, b, fetch)
    decreases |b|
  {
    if b == [] {
      assert a + b == a;
    } else {
      var init, p := b[..|b| - 1], b[|b| - 1];
      assert b == init + [p];
      CycleAppend(a, init, fetch);
      AppendSplitsSnoc(a, init, p, fetch);
    }
  }

  /** The statement of `CycleAppend`. */
  predicate AppendSplits(a: Products, b: Products, fetch: Oracle) {
    var ra, rb, r := Cycle(a, fetch), Cycle(b, fetch), Cycle(a + b, fetch);
    && r.products == ra.products + rb.products
    && r.alerts == ra.alerts + rb.alerts
    && r.changed == (ra.changed || rb.changed)
  }

  lemma {:induction false} AppendSplitsSnoc(a: Products, init: Products, p: Product, fetch: Oracle)
    requires AppendSplits(a, init, fetch)
    ensures AppendSplits(a, init + [p], fetch)
  {
    var ra, ri := Cycle(a, fetch), Cycle(init, fetch);
    var whole := (a + init) + [p];
    assert a + (init + [p]) == whole;
    CycleSnoc(a + init, p, fetch);
    CycleSnoc(init, p, fetch);
    var f := fetch(p.Id());
    if Moved(p, f) {
      var q, alert := p.(lastStock := f.value.stock), AlertOf(f.value);
      assert Cycle(whole, fetch).products == (ra.products + ri.products) + [q];
      assert (ra.products + ri.products) + [q] == ra.products + (ri.products + [q]);
      assert Cycle(whole, fetch).alerts == (ra.alerts + ri.alerts) + [alert];
      assert (ra.alerts + ri.alerts) + [alert] == ra.alerts + (ri.alerts + [alert]);
    } else {
      assert Cycle(whole, fetch).products == (ra.products + ri.products) + [p];
      assert (ra.products + ri.products) + [p] == ra.products + (ri.products + [p]);
    }
  }

  /** The positions, in increasing order, of the records whose stock moved. */
  function MovedPositions(ps: Products, fetch: Oracle): (pos: seq<nat>)
    ensures forall j :: 0 <= j < |pos| ==> pos[j] < |ps| && Moved(ps[pos[j]], fetch(ps[pos[j]].Id()))
    decreases |ps|
  {
    if ps == [] then []
    else
      var n := |ps| - 1;
      MovedPositions(ps[..n], fetch) + (if Moved(ps[n], fetch(ps[n].Id())) then [n] else [])
  }

  /** The positions are increasing and include every position whose stock moved. */
  predicate PositionsExact(ps: Products, fetch: Oracle) {
    var pos := MovedPositions(ps, fetch);
    && (forall j, k :: 0 <= j < k < |pos| ==> pos[j] < pos[k])
    && (forall i :: 0 <= i < |ps| ==> (Moved(ps[i], fetch(ps[i].Id())) <==> i in pos))
  }

  lemma PositionsSnoc(init: Products, p: Product, fetch: Oracle)
    requires PositionsExact(init, fetch)
    ensures PositionsExact(init + [p], fetch)
  {
  }

  lemma {:induction false} MovedPositionsExact(ps: Products, fetch: Oracle)
    ensures PositionsExact(ps, fetch)
    decreases |ps|
  {
    if ps != [] {
      var n := |ps| - 1;
      var init, p := ps[..n], ps[n];
      assert ps == init + [p];
      MovedPositionsExact(init, fetch);
      PositionsSnoc(init, p, fetch);
    }
  }

  /** The pass's alerts are those of the moved positions, in order. */
  predicate AlertsMatch(ps: Products, fetch: Oracle) {
    var r := Cycle(ps, fetch); var pos := MovedPositions(ps, fetch);
    |r.alerts| == |pos| &&
    forall j :: 0 <= j < |pos| ==> r.alerts[j] == AlertOf(fetch(ps[pos[j]].Id()).value)
  }

  lemma AlertsMatchSnoc(init: Products, p: Product, fetch: Oracle)
    requires AlertsMatch(init, fetch)
    ensures AlertsMatch(init + [p], fetch)
  {
  }

  /** Exactly one alert per record whose stock moved, in watchlist order,
      built from that record's fresh snapshot. */
  lemma {:induction false} CycleAlertsInOrder(ps: Products, fetch: Oracle)
    ensures AlertsMatch(ps, fetch)
    decreases |ps|
  {
    if ps != [] {
      var n := |ps| - 1;
      var init, p := ps[..n], ps[n];
      assert ps == init + [p];
      CycleAlertsInOrder(init, fetch);
      AlertsMatchSnoc(init, p, fetch);
    }
  }

  /** Running the pass again on its own output, with the same fetch results,
      alerts nobody and saves nothing. */
  lemma {:induction false} CycleIdempotent(ps: Products, fetch: Oracle)
    ensures var r := Cycle(ps, fetch); var again := Cycle(r.products, fetch);
      again.alerts == [] && !again.changed && again.products == r.products
  {
    var r := Cycle(ps, fetch);
    CycleFrame(ps, fetch);
    CycleFrame(r.products, fetch);
    forall i | 0 <= i < |r.products|
      ensures !Moved(r.products[i], fetch(r.products[i].Id()))
    {
      assert r.products[i].Id() == ps[i].Id();
    }
  }

  /** The stored watchlist after the pass: written back only when something changed. */
  function Persisted(ps: Products, fetch: Oracle): (stored: Products)
    ensures stored == Cycle(ps, fetch).products
  {
    var r := Cycle(ps, fetch);
    CycleFrame(ps, fetch);
    if r.changed then r.products else ps
  }

  /** Alerts reach the admin chat only when one is configured (a non-zero id). */
  function Outbox(admin: int, alerts: seq<Alert>): (out: seq<Message>)
    ensures admin == 0 ==> out == []
    ensures admin != 0 ==> |out| == |alerts| && forall j :: 0 <= j < |out| ==> out[j] == Message(admin, alerts[j])
  {
    if admin == 0 then [] else seq(|alerts|, j requires 0 <= j < |alerts| => Message(admin, alerts[j]))
  }

  /** The loop body as the source writes it: mutate each record in place and
      collect the alerts as they arise. */
  method RunCycle(stored: Products, fetch: Oracle) returns (products: Products, alerts: seq<Alert>, changed: bool)
    ensures CycleResult(products, alerts, changed) == Cycle(stored, fetch)
  {
    products := stored;
    alerts := [];
    changed := false;
    var i := 0;
    while i < |products|
      invariant 0 <= i <= |stored| == |products|
      invariant CycleResult(products[..i], alerts, changed) == Cycle(stored[..i], fetch)
      invariant products[i..] == stored[i..]
    {
      var p := products[i];
      assert p == stored[i];
      ghost var front := Cycle(stored[..i], fetch);
      CycleSnoc(stored[..i], p, fetch);
      assert stored[..i + 1] == stored[..i] + [p];
      var info := fetch(p.Id());
      if info.Some? && info.value.stock != p.lastStock {
        alerts := alerts + [AlertOf(info.value)];
        products := products[i := p.(lastStock := info.value.stock)];
        changed := true;
        assert products[..i + 1] == front.products + [p.(lastStock := info.value.stock)];
      } else {
        assert products[..i + 1] == front.products + [p];
      }
      assert products[i + 1..] == stored[i + 1..];
      i := i + 1;
    }
    assert products[..i] == products;
    assert stored[..i] == stored;
  }
}
