/** The handlers and the monitor pass applied one after another to the one
    stored watchlist: what holds of every sequential run. */
module Session {
  import opened Watchlist
  import opened Fetch
  import Commands
  import Monitor

  /** Something that reads or writes the stored watchlist, with the fetch
      results it sees. */
  datatype Event =
    | AddCommand(chat: int, args: seq<int>, fetch: Oracle)
    | ListCommand
    | MonitorPass(fetch: Oracle)

  /** The stored watchlist after one event; `admin` is the configured admin chat id. */
  function Apply(admin: int, stored: Products, e: Event): Products {
    match e
    case AddCommand(chat, args, fetch) => Commands.AddProduct(admin, chat, args, stored, fetch).products
    case ListCommand => stored
    case MonitorPass(fetch) => Monitor.Persisted(stored, fetch)
  }

  function Run(admin: int, stored: Products, events: seq<Event>): Products
    decreases |events|
  {
    if events == [] then stored
    else Apply(admin, Run(admin, stored, events[..|events| - 1]), events[|events| - 1])
  }

  /** `after` keeps every record of `before` at its position, with its pair
      and its name; records are only ever added at the end. */
  predicate Extends(before: Products, after: Products) {
    |before| <= |after| &&
    forall i :: 0 <= i < |before| ==> after[i].Id() == before[i].Id() && after[i].name == before[i].name
  }

  lemma ApplyKeepsInvariants(admin: int, stored: Products, e: Event)
    requires UniqueKeys(stored)
    ensures UniqueKeys(Apply(admin, stored, e)) && Extends(stored, Apply(admin, stored, e))
  {
    match e
    case AddCommand(chat, args, fetch) =>
      Commands.AddPreservesUniqueKeys(admin, chat, args, stored, fetch);
    case ListCommand =>
    case MonitorPass(fetch) =>
      Monitor.CycleFrame(stored, fetch);
      var after := Apply(admin, stored, e);
      forall i | 0 <= i < |after|
        ensures after[i].Id() == stored[i].Id() && after[i].name == stored[i].name
      {
        assert after[i].(lastStock := stored[i].lastStock) == stored[i];
      }
  }

  /** In any sequential run no two records ever share a pair, no record is
      removed or moved, and only stock values change. */
  lemma {:induction false} RunKeepsInvariants(admin: int, stored: Products, events: seq<Event>)
    requires UniqueKeys(stored)
    ensures UniqueKeys(Run(admin, stored, events)) && Extends(stored, Run(admin, stored, events))
    decreases |events|
  {
    if events != [] {
      var mid := Run(admin, stored, events[..|events| - 1]);
      RunKeepsInvariants(admin, stored, events[..|events| - 1]);
      ApplyKeepsInvariants(admin, mid, events[|events| - 1]);
    }
  }

  /** A product just added, checked with the fetch results it was added with,
      raises no alert: the pass alerts exactly as it would have without it. */
  lemma AddedProductIsQuiet(admin: int, args: seq<int>, stored: Products, fetch: Oracle)
    requires Commands.AddProduct(admin, admin, args, stored, fetch).reply.Added?
    ensures Monitor.Cycle(Commands.AddProduct(admin, admin, args, stored, fetch).products, fetch).alerts
            == Monitor.Cycle(stored, fetch).alerts
  {
  }
}
