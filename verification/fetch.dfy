/** The product-info fetcher (`get_product_info`) as a pure normaliser: the
    HTTP exchange is replaced by an abstract response, and the normaliser maps
    it to a snapshot or to "nothing". */
module Fetch {
  import opened Optional
  import opened Watchlist

  /** The `data` object of the upstream JSON body: its "name" and "stock"
      entries when present, and how many other keys it holds. */
  datatype Data = Data(name: Option<string>, stock: Option<int>, otherKeys: nat)

  /** What one lookup produced. `Raised` stands for any exception on the way
      (transport fault, timeout, undecodable body, a body or `data` that is not
      an object). `data` is `None` when the body has no `data` entry or it is null. */
  datatype Response = Raised | Reply(status: int, data: Option<Data>)

  const DefaultName := "Produk"
  const DefaultStock := 0

  /** A Python dict is falsy exactly when it has no keys. */
  predicate IsEmpty(d: Data) {
    d.name.None? && d.stock.None? && d.otherKeys == 0
  }

  /** The fetch result as seen by every caller: one function from key to result. */
  type Oracle = Key -> Option<Snapshot>

  function ProductInfo(k: Key, resp: Response): (r: Option<Snapshot>)
    ensures r.Some? <==> resp.Reply? && resp.status == 200 && resp.data.Some? && !IsEmpty(resp.data.value)
    ensures r.Some? ==> resp.data.value.name == Some(r.value.name) || (resp.data.value.name.None? && r.value.name == DefaultName)
    ensures r.Some? ==> resp.data.value.stock == Some(r.value.stock) || (resp.data.value.stock.None? && r.value.stock == DefaultStock)
    ensures r.Some? ==> r.value.url == ProductUrl(k)
  {
    match resp
    case Raised => None
    case Reply(status, data) =>
      if status != 200 || data.None? || IsEmpty(data.value) then None
      else Some(Snapshot(data.value.name.GetOr(DefaultName), data.value.stock.GetOr(DefaultStock), ProductUrl(k)))
  }

  /** The oracle that answers each key by normalising that key's response. */
  function Fetcher(responses: Key -> Response): Oracle {
    k => ProductInfo(k, responses(k))
  }

  /** Every snapshot the normaliser produces names, through its URL, the very product asked for. */
  lemma SnapshotUrlNamesProduct(k: Key, resp: Response)
    requires ProductInfo(k, resp).Some?
    ensures ParseProductUrl(ProductInfo(k, resp).value.url) == Some(k)
  {
    ProductUrlParses(k);
  }
}
