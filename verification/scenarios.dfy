/** Concrete instances of the handlers and the monitor pass. */
module Scenarios {
  import opened Optional
  import opened Watchlist
  import opened Fetch
  import Commands
  import Monitor

  /** Stored stock 5, fetched stock 0: one sold-out alert, and the record now holds 0. */
  lemma SoldOutAlert()
    ensures var p := Product(7, 9, "Kaos", 5);
      var snap := Snapshot("Kaos", 0, ProductUrl(Key(7, 9)));
      var r := Monitor.Cycle([p], k => Some(snap));
      r.alerts == [Monitor.SoldOut("Kaos", snap.url)] && r.products == [p.(lastStock := 0)] && r.changed
  {
  }

  /** Stored stock 0, fetched stock 3: one READY alert carrying the count 3. */
  lemma BackInStockAlert()
    ensures var p := Product(7, 9, "Kaos", 0);
      var snap := Snapshot("Kaos", 3, ProductUrl(Key(7, 9)));
      Monitor.Cycle([p], k => Some(snap)).alerts == [Monitor.Ready("Kaos", 3, snap.url)]
  {
  }

  /** The admin adds 111/222 whose data is {name: "Widget", stock: 10}; anyone else is turned away. */
  lemma AddWidget(admin: int, other: int)
    requires other != admin
    ensures var fetch := Fetcher(k => Reply(200, Some(Data(Some("Widget"), Some(10), 0))));
      && Commands.AddProduct(admin, admin, [111, 222], [], fetch).products == [Product(111, 222, "Widget", 10)]
      && Commands.AddProduct(admin, other, [111, 222], [], fetch) == Commands.AddResult([], Commands.NotAdmin)
  {
    var fetch := Fetcher(k => Reply(200, Some(Data(Some("Widget"), Some(10), 0))));
    var resp := Reply(200, Some(Data(Some("Widget"), Some(10), 0)));
    assert fetch(Key(111, 222)) == ProductInfo(Key(111, 222), resp);
    assert ProductInfo(Key(111, 222), resp).Some?;
  }

  /** An empty watchlist is answered with the "nothing monitored" reply. */
  lemma EmptyListing()
    ensures Commands.ListProducts([]) == Commands.NothingMonitored
  {
  }
}
