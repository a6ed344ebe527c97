# Shopee stock-watch bot: the watchlist state machine

This project models the watchlist logic of a Telegram bot. The bot watches
Shopee products for stock changes. The admin adds products with `/addproduk
<shopid> <itemid>` and lists them with `/listproduk`. A background loop
re-fetches every product on a fixed interval. It sends a READY or HABIS
(sold out) alert whenever a product's stock differs from the stored
`last_stock`, and saves the watchlist when something changed.

The model replaces every network lookup with an oracle, a function from
the `(shopid, itemid)` pair to an optional snapshot. It replaces the
`products.json` file with one value of type `seq<Product>`. Each handler,
and one pass of the monitor loop, then becomes a pure step over that
sequence.

Modules:
- `Optional`: the `Option` type, with `GetOr` standing for Python's `dict.get(key, default)`.
- `Decimal`: the decimal rendering of integers used in product URLs, and a parser for it.
- `Watchlist`: product records, keys, key uniqueness, and the canonical product URL.
- `Fetch`: `get_product_info` as a normaliser from an abstract response to an optional snapshot.
- `Commands`: `add_product` and `list_products`.
- `Monitor`: one pass of the `monitor_products` loop, written once as a function and once as the source's in-place loop.
- `Session`: handlers and passes run one after another, with the invariants every such run keeps.
- `Scenarios`: concrete instances of the contracts, such as a sold-out alert, a back-in-stock alert and adding a product.

The fetcher accepts only status 200. Any other status, other 2xx codes
included, gives no snapshot.

## Model

| member | source | states |
|---|---|---|
| Fetch.ProductInfo | bot_shopee_realtime_telegram.py:24-39 | A lookup gives a snapshot exactly when it raised nothing, the status is 200 and `data` is a non-empty object. The name defaults to "Produk" and the stock to 0 when missing. The URL is the canonical product URL of the requested pair. |
| Fetch.SnapshotUrlNamesProduct | bot_shopee_realtime_telegram.py:35 | The URL in every snapshot reads back to the very `(shopid, itemid)` that was looked up. |
| Watchlist.ProductUrl | bot_shopee_realtime_telegram.py:35 | The product URL is `https://shopee.co.id/product/` followed by the two ids. After that prefix it holds only digits, '-' signs and the '/' separator. |
| Decimal.IntToString | bot_shopee_realtime_telegram.py:35 | The f-string rendering of an id is non-empty and made of decimal digits. It starts with '-' exactly when the id is negative. |
| Watchlist.ProductUrlParses | bot_shopee_realtime_telegram.py:35 | `https://shopee.co.id/product/{shopid}/{itemid}` parses back to the pair it was built from. |
| Watchlist.ProductUrlInjective | bot_shopee_realtime_telegram.py:75 | Two products share a URL if and only if they have the same pair. |
| Commands.AddProduct | bot_shopee_realtime_telegram.py:49-67 | The checks run in order: not admin, argument count not 2, pair already present, fetch absent. Each one rejects with its own reply and leaves the watchlist unchanged. Otherwise exactly one record is appended at the end, holding the fetched name and stock, and the reply carries the fetched name and URL. |
| Commands.FindListed | bot_shopee_realtime_telegram.py:57-59 | The in-order duplicate scan reports a hit if and only if some record has the same pair. |
| Commands.AddPreservesUniqueKeys | bot_shopee_realtime_telegram.py:57-64 | If keys were unique before the command, they are unique after it. The watchlist either stays the same or grows by exactly one record. |
| Commands.AddTwiceIsRejected | bot_shopee_realtime_telegram.py:57-59 | After a successful add, repeating the same command is answered "already present" and changes nothing. |
| Commands.ListProducts | bot_shopee_realtime_telegram.py:69-76 | An empty watchlist gets the "nothing monitored" reply. Otherwise the reply has one entry per record, in watchlist order, with the record's name, stored stock and product URL. |
| Commands.ListingIdentifiesProducts | bot_shopee_realtime_telegram.py:74-75 | Each listed URL reads back to the pair of the record on that line. With unique keys, no two lines show the same URL. |
| Monitor.AlertOf | bot_shopee_realtime_telegram.py:89-93 | The alert is READY with the count when the fetched stock is positive, and HABIS otherwise. It carries the fetched name and URL. |
| Monitor.Cycle | bot_shopee_realtime_telegram.py:82-97 | A pass keeps the watchlist's length, sends at most one alert per record, and sends an alert if and only if it sets `changed`. |
| Monitor.CycleFrame | bot_shopee_realtime_telegram.py:84-97 | Only `last_stock` moves: pair and name are kept at every position. A record whose fetch is absent stays exactly as it was. A record whose fetch is present ends with the fetched stock. `changed` is set if and only if some fetched stock differed, and when it is not set the watchlist is unchanged. |
| Monitor.MovedPositions | bot_shopee_realtime_telegram.py:88 | Every listed position is a record whose fetch succeeded with a stock different from the stored one. |
| Monitor.MovedPositionsExact | bot_shopee_realtime_telegram.py:84-88 | The positions are strictly increasing, which is watchlist order. A position is listed if and only if its fetched stock differs from the stored stock. |
| Monitor.CycleAlertsInOrder | bot_shopee_realtime_telegram.py:84-95 | A pass sends exactly one alert per record whose stock moved, in watchlist order. Each alert is built from that record's fresh snapshot. |
| Monitor.CycleIdempotent | bot_shopee_realtime_telegram.py:82-99 | A second pass over the first pass's output, with the same fetch results, sends no alert, sets no `changed` flag and changes no record. |
| Monitor.CycleAppend | bot_shopee_realtime_telegram.py:84-97 | Records are handled independently. A pass over two watchlists joined end to end gives the two passes' watchlists joined and their alerts joined, in that order. It sets `changed` exactly when either pass does. |
| Monitor.Persisted | bot_shopee_realtime_telegram.py:98-99 | Saving only when `changed` is set loses nothing: the stored watchlist always equals the pass's updated watchlist. |
| Monitor.Outbox | bot_shopee_realtime_telegram.py:94-95 | Alerts go to the admin chat, one message each and in order, only when an admin chat id is configured (non-zero). Otherwise nothing is sent. |
| Monitor.RunCycle | bot_shopee_realtime_telegram.py:82-99 | The source's in-place loop computes the same watchlist, alerts and `changed` flag as the functional pass. |
| Session.ApplyKeepsInvariants | bot_shopee_realtime_telegram.py:49-99 | One handler call or monitor pass keeps keys unique, keeps every record's position, pair and name, and only ever appends. |
| Session.RunKeepsInvariants | bot_shopee_realtime_telegram.py:49-99 | Every sequential run of handlers and passes keeps keys unique, never removes or reorders a record, and only changes stock values. |
| Session.AddedProductIsQuiet | bot_shopee_realtime_telegram.py:61-64 | A product just added, checked against the same fetch results, raises no alert. The pass sends the same alerts as it would have without that product. |
| Scenarios.SoldOutAlert | bot_shopee_realtime_telegram.py:88-96 | Stored stock 5 and fetched stock 0 give one HABIS alert, and the record then holds 0. |
| Scenarios.BackInStockAlert | bot_shopee_realtime_telegram.py:88-93 | Stored stock 0 and fetched stock 3 give one READY alert with the count 3. |
| Scenarios.AddWidget | bot_shopee_realtime_telegram.py:50-63 | The admin adding 111/222, whose data is "Widget" with stock 10, gives the record {111, 222, "Widget", 10}. A non-admin gets the rejection and the watchlist stays the same. |
| Scenarios.EmptyListing | bot_shopee_realtime_telegram.py:71-72 | Listing an empty watchlist gives the "nothing monitored" reply. |

## Left out

- The HTTP request: its endpoint, the 12-second timeout and JSON decoding. The model replaces it with an abstract `Response`, where `Raised` stands for any exception caught on lines 26-38. A body or `data` that is not a JSON object raises on `.get`, so it also counts as `Raised` or as missing `data`.
- Values of the wrong JSON type under "name" or "stock" are not modelled. The name is a string and the stock an integer whenever they are present.
- `load_products` and `save_products` are file I/O and are not modelled. The store is a single `Products` value. An unreadable file loads as the empty watchlist (lines 14-18), and the model does not repeat that.
- Telegram plumbing is not modelled: the application builder, handler registration, `reply_text` and `send_message`. The same goes for the Markdown and emoji text of the replies and alerts. Replies and alerts are datatypes that carry their fields.
- `/start` is not modelled. It only sends a fixed usage text and has no state.
- The one-time "bot active" announcement at the start of `monitor_products` is not modelled, because it is chat output outside the loop body.
- The async event loop, `asyncio.sleep`, the unbounded `while True`, and the lost-update race between `/addproduk` and a monitor pass that share the file are not modelled. `Session` covers only sequential runs.
- Environment configuration and the startup check in `main` are not modelled. The admin chat id is a parameter.
- Monitor.Cycle, Monitor.Persisted, Monitor.RunCycle: every `send_message` of an alert is assumed to succeed. In the source that call has no `try`. A send can fail, for example when Telegram rejects the Markdown of a name with an unmatched `*` or `_`, or when the network fails. Then the exception ends the pass: that record's stock update and the final save of earlier updates never happen, and the monitor task stops for good. The model always runs the pass to the end.
- Commands.AddProduct: the arguments are already-parsed integers. The source keeps them as text. So the exception from `int()` on non-numeric arguments is not modelled. Also, the lookup URL and the URL in the confirmation reply use the argument text as typed. This equals the canonical rendering only when the arguments are written in plain decimal.
