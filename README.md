# Store-admin list screens in Dafny

This project models the mobile store-admin app's logic behind its "Load More"
lists and its settings form. The app shows orders, customers, products and
discount codes from a store's REST API, which can only answer "give me the first
`number` records matching this filter".

- **Orders, customers, products** (`RecentOrders`, `CustomersList`,
  `ProductsList`). Each screen is a class holding `orders`, `currentLimit`,
  `hasMoreOrders`, `loading` and `loadingMore`.
  - A fresh load replaces the list with the reply.
  - A load-more asks for ten more records. It merges the old list with the
    reply, keeping the first record for each identity key (JavaScript's
    `filter`/`findIndex` idiom, `Dedup.UniqueByKey`).
  - End of data is detected by comparing the reply's size with a window.
  - The three copies differ in four ways: the key, which window the
    end-of-data test uses, what a failure does to the list, and how the search
    text becomes a query.
- **Discounts** (`DiscountsList`). The API cannot filter by status, so the
  screen scans. It repeatedly asks for the first `offset + 10` discounts, keeps
  the active ones, and advances `offset` by the reply's size. It stops when it
  holds `currentLimit` active discounts or a reply has fewer than ten records.
  - The loop is `DiscountsList.RunScan`. It is proved against the spec
    function `DiscountsList.Scan`.
- **Settings** (`ConfigScreen.SaveConfig`). All three fields must be non-blank
  after JavaScript's `trim`. The base URL is stored trimmed and ending in "/".

The network is `Paging.Server`: for each filter, a fixed ordered collection,
plus at most one fault. The fault rejects one numbered request of an operation,
or answers it without the collection field. A reply is `Paging.FirstN` of the
collection. Each screen operation runs to completion as one step.

## Model

| member | source | states |
|---|---|---|
| Paging.FirstN | src/screens/RecentOrders.js:98-112 | the reply to `number` is a prefix of the collection of at most `number` records, and it is the whole collection when it is shorter than `number` |
| Paging.Answer | src/screens/RecentOrders.js:111-112 | a request is rejected exactly when the fault says so, and answered without the field exactly on a field-missing fault; otherwise it carries the first `number` records |
| Paging.Records | src/screens/RecentOrders.js:112 | an absent collection field reads as the empty list (`?? []`) |
| Paging.FirstNGrows | src/screens/CustomersList.js:198-201 | growing the window only extends the previous reply, by at most the growth |
| Paging.HasMoreExact | src/screens/CustomersList.js:183-188 | the test `fetched >= limit` against the requested window reports more exactly when the collection holds at least that many records, and otherwise the reply is the whole collection |
| Dedup.IndexOfKey | src/screens/RecentOrders.js:119 | `findIndex` by key: -1 iff no record has the key, else the first index whose record has it |
| Dedup.UniqueByKey | src/screens/RecentOrders.js:116-121 | the `filter`/`findIndex` merge keeps at most one record per key |
| Dedup.UniqueByKeySpec | src/screens/RecentOrders.js:116-121 | the merge keeps the input's set of keys; each kept record is the first record with its key; the result is a subsequence of the input and equals the reference scan `Fresh` |
| Dedup.FreshSpec | src/screens/RecentOrders.js:116-121 | the reference scan yields distinct keys, exactly the input's keys not already seen, as a subsequence of the input |
| Dedup.UniqueByKeyOfDistinct | src/screens/CustomersList.js:165-178 | a list whose keys are already distinct is left unchanged by the merge |
| Dedup.MergeKeepsHeldRecords | src/screens/ProductsList.js:196-205 | merging a held list with distinct keys keeps it in front and unchanged; the added records are a subsequence of the reply holding exactly the reply's new keys, each once |
| Dedup.MergeExtends | src/screens/CustomersList.js:165-178 | a load-more never loses or reorders a held list whose keys are distinct: it stays a prefix of the merged list |
| Dedup.MergeOfGrowingWindows | src/screens/CustomersList.js:165-178 | over a collection with distinct keys, merging the reply of a window with that of a larger window gives exactly the larger window's reply |
| JsString.TrimStart | src/screens/ConfigScreen.js:37 | the result is a suffix of the input, everything cut off is white space, and it is empty or starts with a non-space |
| JsString.TrimEnd | src/screens/ConfigScreen.js:37 | the result is a prefix of the input, everything cut off is white space, and it is empty or ends with a non-space |
| JsString.Trim | src/screens/ConfigScreen.js:37 | the result has no white space at either end, and is empty exactly when the input is all white space; where it lies in the input is `JsString.TrimIsSlice` |
| JsString.TrimIsSlice | src/screens/ConfigScreen.js:46 | the trimmed string is the contiguous slice of the input that starts after the leading white space; everything cut off before and after it is white space |
| JsString.TrimOfTrimmed | src/screens/ConfigScreen.js:46 | trimming a string with no white space at either end leaves it unchanged |
| JsString.TrimIdempotent | src/screens/ConfigScreen.js:46 | trimming twice is trimming once |
| ConfigScreen.WithTrailingSlash | src/screens/ConfigScreen.js:47-49 | the result ends in "/", extends the input by at most one character, and equals the input iff the input already ends in "/" |
| ConfigScreen.SaveConfig | src/screens/ConfigScreen.js:36-55 | refused iff some field is empty after trimming; otherwise key and token are stored as typed and the URL is the trimmed URL, ending in "/", with a "/" appended exactly when the trimmed URL lacks one |
| ConfigScreen.RefusedIffBlank | src/screens/ConfigScreen.js:37-43 | a save is refused exactly when some field is empty or white space only |
| ConfigScreen.SlashedTrimmedIsTrimmed | src/screens/ConfigScreen.js:45-49 | appending "/" to a trimmed, non-empty URL leaves it trimmed |
| ConfigScreen.SaveIsIdempotent | src/screens/ConfigScreen.js:46-49 | saving the stored settings again stores exactly the same settings |
| RecentOrders.QueryFor | src/screens/RecentOrders.js:98-109 | `number` is the window; the id filter is used iff there is no email prop, `isNaN` is false and the input is non-blank; else the email filter carries the prop or the input |
| RecentOrders.EmailPropWins | src/screens/RecentOrders.js:103-104 | with an email prop the search input plays no part in the request |
| RecentOrders.BlankInputIsEmail | src/screens/RecentOrders.js:105-109 | an empty or blank input goes out as an email filter whatever `isNaN` says |
| RecentOrders.RecentOrdersScreen.constructor | src/screens/RecentOrders.js:23-29 | the mount state: empty list, loading, more assumed, window 10 |
| RecentOrders.RecentOrdersScreen.LoadOrders | src/screens/RecentOrders.js:86-146 | a failure keeps list and flag and notifies `false`; a reply replaces the list (fresh) or merges it by `ID` (load-more); the end test uses the screen's `currentLimit`; `onOrdersLoaded` gets "non-empty"; both loading flags end false |
| RecentOrders.RecentOrdersScreen.HandleLoadMore | src/screens/RecentOrders.js:148-152 | requests and stores `currentLimit + 10`; the end test uses the old window; a failure keeps list and flag; a held list with distinct IDs stays in front and the list keeps distinct IDs; `onOrdersLoaded` gets `false` on failure and "non-empty" on a reply; both loading flags end false |
| RecentOrders.RecentOrdersScreen.SubmitSearch | src/screens/RecentOrders.js:54 | a fresh load of the submitted text with the current, unreset window: a failure keeps list and flag, a reply replaces the list; `onOrdersLoaded` gets `false` on failure and "non-empty" on a reply; both loading flags end false |
| RecentOrders.StaleLimitMissesEnd | src/screens/RecentOrders.js:128-132 | when the collection lies between the old and the new window, the reply is complete yet the old-window test still reports more |
| CustomersList.QueryFor | src/screens/CustomersList.js:155-160 | `number` is the window and `customer` is sent iff the input is non-empty |
| CustomersList.CustomersScreen.constructor | src/screens/CustomersList.js:81-87 | the mount state: empty list, loading, more assumed, window 10 |
| CustomersList.CustomersScreen.LoadOrders | src/screens/CustomersList.js:143-196 | a failure empties the list and keeps the flag; a reply replaces or merges by `customer_id`; the end test uses the requested window; both loading flags end false |
| CustomersList.CustomersScreen.HandleLoadMore | src/screens/CustomersList.js:198-202 | requests and stores `currentLimit + 10`; the end test uses it; a held list with distinct keys stays in front |
| CustomersList.CustomersScreen.SubmitSearch | src/screens/CustomersList.js:111 | a fresh load of the submitted text with the current, unreset window: a failure empties the list and keeps the flag, a reply replaces the list; both loading flags end false |
| ProductsList.QueryFor | src/screens/ProductsList.js:185-191 | `number` is the window and `customer` is set iff the input is non-empty |
| ProductsList.SentFilter | src/api/productsApi.js:4 | the products request reads neither a search nor a product id from the screen's query |
| ProductsList.SearchIsIgnored | src/screens/ProductsList.js:185-193 | two searches with the same window get the same reply |
| ProductsList.ProductsScreen.constructor | src/screens/ProductsList.js:119-125 | the mount state: empty list, loading, more assumed, window 10 |
| ProductsList.ProductsScreen.LoadOrders | src/screens/ProductsList.js:173-223 | a failure empties the list and keeps the flag; a reply replaces or merges by `info.id`; the end test uses the requested window; both loading flags end false |
| ProductsList.ProductsScreen.HandleLoadMore | src/screens/ProductsList.js:225-229 | requests and stores `currentLimit + 10`; the end test uses it; a held list with distinct keys stays in front |
| ProductsList.ProductsScreen.SubmitSearch | src/screens/ProductsList.js:141 | a fresh load with the current, unreset window: a failure empties the list and keeps the flag, a reply replaces the list; both loading flags end false |
| ProductsList.StatOrZero | src/screens/ProductsList.js:46-47 | a missing table, slug or falsy entry gives 0, and a number at the slug is the value; so a non-zero value is exactly the slug's number |
| ProductsList.RowStats | src/screens/ProductsList.js:38-60 | a row's earnings and sales are its slug's entries; a failed stats request leaves zeros |
| ProductsList.RowStatsOnlyOwnSlug | src/screens/ProductsList.js:45-47 | two stats replies that agree at the row's slug in both tables give the row the same stats, whatever they hold for other slugs |
| DiscountsList.ActiveSpec | src/screens/DiscountsList.js:122-124 | the filter keeps only records with status "active", drawn from the batch, never more than the batch |
| DiscountsList.ActiveAppend | src/screens/DiscountsList.js:122-127 | filtering two batches is filtering their concatenation |
| DiscountsList.ScanProgress | src/screens/DiscountsList.js:117-136 | a full reply that does not end the loop uses up one request before the fault, or adds an active record, or moves the offset towards the first active record |
| DiscountsList.RoundAppendsActive | src/screens/DiscountsList.js:118-130 | one answered request keeps the accumulator in front, appends only active records of the collection, and grows the offset by at least as many records as it appends |
| DiscountsList.ScanAppendsActive | src/screens/DiscountsList.js:114-136 | a finished scan keeps the list it started with in front and appends only active records of the collection; the offset grows by at least as many records as were appended |
| DiscountsList.ScanStopReason | src/screens/DiscountsList.js:117-147 | only a rejected request interrupts the scan; a finished scan holds `currentLimit` records, or the collection has fewer than ten records, or a reply lacked the field |
| DiscountsList.RunScan | src/screens/DiscountsList.js:113-136 | the `while` loop ends in the catch clause iff `Scan` is interrupted, and otherwise with `Scan`'s accumulator and offset |
| DiscountsList.DiscountsScreen.constructor | src/screens/DiscountsList.js:80-84 | the mount state: empty list, loading, more assumed, window 10 |
| DiscountsList.DiscountsScreen.LoadDiscounts | src/screens/DiscountsList.js:105-152 | a fresh load scans from nothing at offset 0, a load-more from the list at offset equal to its length; failure empties the list; else the list is the accumulator cut to the window and `hasMore` is `length >= currentLimit && offset > length`; the list never exceeds the window and the window stays 10 |
| DiscountsList.DiscountsScreen.HandleLoadMore | src/screens/DiscountsList.js:154-156 | a load-more with the same window; a full list fetches nothing, stays, and reports no more; a non-empty result keeps the old list in front |
| DiscountsList.OverlapRepeatsActive | src/screens/DiscountsList.js:117-130 | with one active discount among the first ten of ten or more, each request appends it again, until the list is nothing but copies of it |
| DiscountsList.OneActivePerReply | src/screens/DiscountsList.js:118-124 | when the collection's only active discount is among its first ten records, every reply to a request for ten or more records is full and filters to exactly that discount |
| DiscountsList.DuplicateDiscountsExample | src/screens/DiscountsList.js:114-141 | twenty discounts with distinct ids, only the first active: a fresh load shows that discount ten times |
| DiscountsList.NoActiveNeverEnds | src/screens/DiscountsList.js:117-135 | with ten or more discounts, none active, and no failing request, every request gets a full reply and appends nothing, so the loop goes on forever with the same short list |
| DiscountsList.IntendedScanIsActivePrefix | src/screens/DiscountsList.js:117-136 | scanning only the unseen part of each reply keeps the list a prefix of the collection's active records, ending with `limit` of them or all of them |
| DiscountsList.IntendedLoadOfNoActive | src/screens/DiscountsList.js:114-141 | the corrected scan ends, and loads the empty list when no discount is active |
| DiscountsList.IntendedLoadIsFirstActive | src/screens/DiscountsList.js:114-141 | the corrected load shows exactly the first `limit` active discounts of the collection, or all of them if there are fewer |

## Left out

- Rendering, styles, animations, navigation and the header/search-bar wiring
  are not modelled. The search submit and the "close search" reload are
  modelled as `SubmitSearch`.
- The `src/api` modules are abstracted as `Paging.Server`: stored
  configuration, URL building and HTTP calls. A missing configuration or a
  failed request is a `Rejected` fault.
- Asynchronous interleaving is not modelled. Each load runs to completion on a
  snapshot of the state: no overlapping loads, no last-resolved-wins, no
  re-entrancy guard. The one stale closure kept is RecentOrders' end-of-data
  test against the pre-increment `currentLimit`.
- `console.error` output and `Alert.alert` dialogs are not modelled. A
  refused save is `Refused`.
- The storage writes and the test request that follow a save
  (`src/screens/ConfigScreen.js:51-80`) are I/O and are not part of this model.
- JavaScript's `isNaN` on strings (numeric parsing) is the abstract parameter
  `isNaN` of `RecentOrders.QueryFor`.
- Product stats amounts are integers, not the API's numbers or strings. Stats
  entries that are truthy non-numbers are not modelled. The per-row stats
  request is an input (`None` when it fails).
- DiscountsList.DiscountsScreen.LoadDiscounts: requires that the scan ends
  (`ScanEnds`), because the source loops forever on a collection of ten or more
  discounts with none active and no failing request (see Findings,
  `DiscountsList.NoActiveNeverEnds`). That case is excluded rather than
  modelled as divergence.
- DiscountsList.DiscountsScreen.HandleLoadMore: requires the same termination
  condition as `LoadDiscounts`, for the same reason.
- Dashboard, chart, detail and authentication screens are outside this model.
- Dates and number formatting are outside this model.

## Findings

| source | as written | input that shows it | evidently intended | confidence | as-written member | corrected member |
|---|---|---|---|---|---|---|
| src/screens/RecentOrders.js:128 | the load-more compares the reply with the closure's `currentLimit`, the window before the increment | 25 orders, window 20: Load More asks for 30, gets all 25, and still shows "Load More" | compare with the requested `limit`, as CustomersList.js:184 does | high, not executed | RecentOrders.StaleLimitMissesEnd | Paging.HasMoreExact |
| src/screens/DiscountsList.js:118-127 | each request asks for the first `offset + 10` discounts and appends every active one in the reply, so records from earlier replies are appended again | twenty discounts, only the first active: a fresh load shows that one discount ten times | append only the records beyond those already scanned, giving the first `currentLimit` active discounts | high, not executed | DiscountsList.OverlapRepeatsActive | DiscountsList.IntendedLoadIsFirstActive |
| src/screens/DiscountsList.js:117-135 | the loop stops only on a full accumulator or a reply of fewer than ten records, and each reply is a prefix that never shrinks | ten or more discounts, none active, every request answered: every reply is full, nothing is appended, and the load never finishes | stop once a reply brings no record beyond those already scanned, loading the empty list | high, not executed | DiscountsList.NoActiveNeverEnds | DiscountsList.IntendedLoadOfNoActive |

In the first finding, the corrected end-of-data test is the one the customers
and products screens use. `Paging.HasMoreExact` proves that it is exact. The
discounts screen class models the code as written. `DiscountsList.IntendedScan`
is the corrected scan; it ends on every collection.
