/** The admin command handlers `/addproduk` (`add_product`) and `/listproduk`
    (`list_products`) as pure steps over the stored watchlist. Arguments
    arrive already parsed as integers. */
module Commands {
  import opened Optional
  import opened Watchlist
  import opened Fetch

  /** The reply `/addproduk` sends, one constructor per branch of the handler. */
  datatype AddReply =
    | NotAdmin                            // "Kamu bukan admin"
    | Usage                               // "Format salah! ..."
    | AlreadyListed                       // "Produk ini sudah ada di daftar."
    | FetchFailed                         // "Gagal ambil data produk Shopee ..."
    | Added(name: string, url: string)    // "Ditambahkan: {name}\n{url}"

  /** The stored watchlist after the command, and the reply. */
  datatype AddResult = AddResult(products: Products, reply: AddReply)

  /** `/addproduk <shopid> <itemid>` from chat `chat`, with `admin` the configured admin chat id. */
  function AddProduct(admin: int, chat: int, args: seq<int>, stored: Products, fetch: Oracle): (r: AddResult)
    ensures chat != admin ==> r == AddResult(stored, NotAdmin)
    ensures chat == admin && |args| != 2 ==> r == AddResult(stored, Usage)
    ensures chat == admin && |args| == 2 && Listed(stored, Key(args[0], args[1])) ==> r == AddResult(stored, AlreadyListed)
    ensures (chat == admin && |args| == 2 && !Listed(stored, Key(args[0], args[1])) && fetch(Key(args[0], args[1])).None?)
              ==> r == AddResult(stored, FetchFailed)
    ensures (chat == admin && |args| == 2 && !Listed(stored, Key(args[0], args[1])) && fetch(Key(args[0], args[1])).Some?)
              ==> r.reply.Added?
    ensures r.reply.Added? ==>
              && chat == admin && |args| == 2
              && !Listed(stored, Key(args[0], args[1]))
              && fetch(Key(args[0], args[1])).Some?
              && var s := fetch(Key(args[0], args[1])).value;
              && r.products == stored + [Product(args[0], args[1], s.name, s.stock)]
              && r.reply == Added(s.name, s.url)
  {
    if chat != admin then AddResult(stored, NotAdmin)
    else if |args| != 2 then AddResult(stored, Usage)
    else
      var k := Key(args[0], args[1]);
      if Listed(stored, k) then AddResult(stored, AlreadyListed)
      else match fetch(k)
        case None => AddResult(stored, FetchFailed)
        case Some(info) => AddResult(stored + [Product(k.shopid, k.itemid, info.name, info.stock)], Added(info.name, info.url))
  }

  /** The duplicate scan of `/addproduk`: walk the records in order and stop at the first with the same pair. */
  method FindListed(stored: Products, k: Key) returns (found: bool)
    ensures found <==> Listed(stored, k)
  {
    found := false;
    var i := 0;
    while i < |stored| && !found
      invariant 0 <= i <= |stored|
      invariant found <==> exists j :: 0 <= j < i && stored[j].Id() == k
    {
      if stored[i].shopid == k.shopid && stored[i].itemid == k.itemid {
        found := true;
      }
      i := i + 1;
    }
  }

  /** The command changes the watchlist only by a successful append, and keeps keys unique. */
  lemma AddPreservesUniqueKeys(admin: int, chat: int, args: seq<int>, stored: Products, fetch: Oracle)
    requires UniqueKeys(stored)
    ensures var r := AddProduct(admin, chat, args, stored, fetch);
      UniqueKeys(r.products) && (r.products == stored || |r.products| == |stored| + 1)
  {
  }

  /** Repeating a successful `/addproduk` is answered "already present" and changes nothing. */
  lemma AddTwiceIsRejected(admin: int, args: seq<int>, stored: Products, fetch: Oracle)
    requires AddProduct(admin, admin, args, stored, fetch).reply.Added?
    ensures var once := AddProduct(admin, admin, args, stored, fetch).products;
      AddProduct(admin, admin, args, once, fetch) == AddResult(once, AlreadyListed)
  {
    var once := AddProduct(admin, admin, args, stored, fetch).products;
    assert once[|stored|].Id() == Key(args[0], args[1]);
  }

  /** One line of the `/listproduk` reply: name, stored stock and product URL. */
  datatype ListEntry = ListEntry(name: string, stock: int, url: string)

  datatype ListReply =
    | NothingMonitored                    // "Belum ada produk yang dimonitor."
    | Listing(entries: seq<ListEntry>)    // "Daftar Produk yang Dimonitor:" then one entry per record

  /** `/listproduk`: reads the watchlist and never writes it. */
  function ListProducts(stored: Products): (r: ListReply)
    ensures r.NothingMonitored? <==> stored == []
    ensures r.Listing? ==> |r.entries| == |stored|
    ensures r.Listing? ==> forall i :: 0 <= i < |stored| ==>
              && r.entries[i].name == stored[i].name
              && r.entries[i].stock == stored[i].lastStock
              && r.entries[i].url == ProductUrl(stored[i].Id())
  {
    if stored == [] then NothingMonitored
    else Listing(seq(|stored|, i requires 0 <= i < |stored| => ListEntry(stored[i].name, stored[i].lastStock, ProductUrl(stored[i].Id()))))
  }

  /** Each listed URL names the record on that line, so over a watchlist with
      unique keys the listing shows every product under a URL of its own. */
  lemma ListingIdentifiesProducts(stored: Products)
    requires stored != []
    ensures var entries := ListProducts(stored).entries;
      && (forall i :: 0 <= i < |stored| ==> ParseProductUrl(entries[i].url) == Some(stored[i].Id()))
      && (UniqueKeys(stored) ==> forall i, j :: 0 <= i < j < |stored| ==> entries[i].url != entries[j].url)
  {
    var entries := ListProducts(stored).entries;
    forall i | 0 <= i < |stored|
      ensures ParseProductUrl(entries[i].url) == Some(stored[i].Id())
    {
      ProductUrlParses(stored[i].Id());
    }
  }
}
