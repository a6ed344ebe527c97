/** The watchlist kept in `products.json`: an ordered sequence of product
    records, each identified by its (shopid, itemid) pair, and the canonical
    product URL derived from that pair. */
module Watchlist {
  import opened Optional
  import Decimal

  /** The pair that identifies a product on the shop site. */
  datatype Key = Key(shopid: int, itemid: int)

  /** One object of the stored JSON array: `{shopid, itemid, last_stock, name}`. */
  datatype Product = Product(shopid: int, itemid: int, name: string, lastStock: int) {
    function Id(): Key {
      Key(shopid, itemid)
    }
  }

  /** The whole stored watchlist, in insertion order. */
  type Products = seq<Product>

  /** One fetch result: the product's name, its current stock and its page URL. */
  datatype Snapshot = Snapshot(name: string, stock: int, url: string)

  predicate Listed(ps: Products, k: Key) {
    exists i :: 0 <= i < |ps| && ps[i].Id() == k
  }

  /** No two records share a (shopid, itemid) pair. */
  predicate UniqueKeys(ps: Products) {
    forall i, j :: 0 <= i < j < |ps| ==> ps[i].Id() != ps[j].Id()
  }

  const UrlPrefix := "https://shopee.co.id/product/"

  /** `https://shopee.co.id/product/{shopid}/{itemid}`. */
  function ProductUrl(k: Key): (url: string)
    ensures |url| >= |UrlPrefix| + 3 && url[..|UrlPrefix|] == UrlPrefix
    ensures forall i :: |UrlPrefix| <= i < |url| ==> Decimal.IsDigit(url[i]) || url[i] == '/' || url[i] == '-'
  {
    UrlPrefix + Decimal.IntToString(k.shopid) + "/" + Decimal.IntToString(k.itemid)
  }

  /** Index of the first '/' in `s`, or `|s|` when there is none. */
  function FirstSlash(s: string): (j: nat)
    ensures j <= |s|
    ensures j < |s| ==> s[j] == '/'
    ensures forall i :: 0 <= i < j ==> s[i] != '/'
  {
    if s == [] || s[0] == '/' then 0 else 1 + FirstSlash(s[1..])
  }

  /** Reads a product URL back into the pair it names. */
  function ParseProductUrl(url: string): Option<Key> {
    if |url| < |UrlPrefix| || url[..|UrlPrefix|] != UrlPrefix then None
    else
      var rest := url[|UrlPrefix|..];
      var j := FirstSlash(rest);
      if j == |rest| then None
      else
        match (Decimal.ParseInt(rest[..j]), Decimal.ParseInt(rest[j + 1..]))
        case (Some(shop), Some(item)) => Some(Key(shop, item))
        case _ => None
  }

  /** The URL of a product determines its key: reading it back yields the pair it was built from. */
  lemma ProductUrlParses(k: Key)
    ensures ParseProductUrl(ProductUrl(k)) == Some(k)
  {
    var a := Decimal.IntToString(k.shopid);
    var b := Decimal.IntToString(k.itemid);
    var url := ProductUrl(k);
    assert url[..|UrlPrefix|] == UrlPrefix;
    var rest := url[|UrlPrefix|..];
    assert rest == a + "/" + b;
    assert rest[|a|] == '/';
    assert FirstSlash(rest) == |a|;
    assert rest[..|a|] == a;
    assert rest[|a| + 1..] == b;
    Decimal.ParseIntToString(k.shopid);
    Decimal.ParseIntToString(k.itemid);
  }

  /** Distinct products never share a URL. */
  lemma ProductUrlInjective(k1: Key, k2: Key)
    ensures ProductUrl(k1) == ProductUrl(k2) <==> k1 == k2
  {
    ProductUrlParses(k1);
    ProductUrlParses(k2);
  }
}
