# Retail promotions to Shopify metafields — a Dafny model

This project models the core of a set of Python scripts that keep a Shopify
store in step with a retail-promotions table in SQL Server, and that report on
the vendors and collections of the store.

- **Promotions** (`retail_promotions_to_shopify_metafields.py`). It reads
  today's candidate sale and price-increase rows from the database. It folds
  them into one plan per vendor: earliest start, latest end, display windows
  widened by X/Y/Z days, and the vendor's collection ids. For each vendor it
  decides whether the sale and price-increase metafields should exist today.
- **Dry run and live run** (same file). In dry-run mode it estimates, per
  vendor, how many products would be written or cleaned. In live mode it
  writes the four `custom.promo_*` date metafields, which carry the real
  (undisplaced) promotion dates, on each product in scope. It deletes the keys
  whose promotion should not show today.
- **Vendor count reports.**
  - `Vendor_Hub_to_Shopify_counts.py` and `all_vendors_to_shopify_counts.py`
    make the per-vendor count and collection-match decision.
  - `shopify_vendor_counts.py` and `get_all_vendors_with_collections.py` tally
    the store's product vendors and look up a matching collection for each.
- **View tools** (`tools/generate_views.py`, `tools/apply_views_to_sources.py`)
  group count records into three sorted groups and flatten them back.
- **Collection export** (`export_shopify_collections.py`) lists, enriches,
  sorts and tabulates every collection.

Modelling choices:

- **Remote services as parameters.** The database and Shopify are modelled as
  oracle parameters: functions from a query to its answer, or to `Failed` when
  the call raises. Examples are `Reconcile.Shop`, `VendorCounts.CountShop` and
  `ExportCollections.ExportShop`.
- **The store's metafields** are a value, `Reconcile.Store`: each product's
  metafield edges. The live run threads it from call to call. Every call is
  logged, and the store after the run is the start store with the logged
  calls applied in order (`Reconcile.Replay`). Each lookup reads the store as
  the calls before it left it, so one vendor's writes and deletes are seen by
  the vendors after it.
- **Dates** are day numbers, the value of Python's `date.toordinal()`.
  `Dates.ToOrdinal` maps a valid civil date to its day number, and
  `Dates.OrdinalOrder` shows that this map preserves calendar order.
- **Strings** are `seq<char>`. `Text` models `str.strip`, `str.lower`,
  `str.split()`, `" ".join` and the `normalize` helper that every script
  shares.
- **Library sorts** (`list.sort`, `sorted`) are modelled by one stable
  insertion sort, `StableSort.SortBy`. It is proved to return a permutation of
  its input, sorted, and stable.
- **Loops** in the source are Dafny methods with `for` or `while` loops and
  their invariants. Each method is
  proved equal to a recursive specification function. The properties the
  source promises are then proved about that function as lemmas.
- **Record lists** that the source grows and hands back are modelled as `seq`
  values. `enrich_collections` updates its rows in place, so it works on an
  `array`.

Where the code and its documentation disagree, the model follows the code:

- A GraphQL reply that carries an `errors` array raises inside the `try` of
  `graphql`. The `except` clause then retries it like a transport error
  (`retail_promotions_to_shopify_metafields.py:350-356`). It is not failed at
  once.
- Vendor plans are keyed by the exact stripped vendor string
  (`retail_promotions_to_shopify_metafields.py:282-283`). `normalize` is not
  applied, so two spellings of one vendor give two plans.
- With collection ids, the dry-run product count sums the per-collection counts
  (`:621`). The live run takes the union of the product ids (`:669-675`). A
  product that sits in two of a vendor's collections is counted twice by the
  dry run (`Reconcile.SharedProductCountedTwice`).
- The promotions script never looks a collection up by title. A vendor without
  a collection id falls back to all of its products by vendor (`:676-677`).

## Model

| member | source | states |
|---|---|---|
| Text.StripSpec | retail_promotions_to_shopify_metafields.py:235 | `str.strip` returns the middle slice left after removing whitespace-only prefix and suffix; the result neither starts nor ends with whitespace, and is empty exactly when the input is all whitespace |
| Text.StripIdempotent | retail_promotions_to_shopify_metafields.py:235 | stripping twice gives what stripping once gives |
| Text.StripPadded | retail_promotions_to_shopify_metafields.py:99 | whitespace around a token without edge whitespace is removed and the token is kept intact |
| Text.NormalizeIsNormalized | retail_promotions_to_shopify_metafields.py:89-90 | `normalize` returns lower-case words joined by single spaces, and returns "" exactly when the input has no words |
| Text.NormalizeIdempotent | retail_promotions_to_shopify_metafields.py:89-90 | normalizing a normalized string changes nothing |
| Text.NormalizeEqualIffSameWords | retail_promotions_to_shopify_metafields.py:89-90 | two strings normalize equal if and only if their lower-cased word lists are equal |
| Text.NormalizeIgnoresPadding | retail_promotions_to_shopify_metafields.py:89-90 | leading and trailing whitespace never changes the normalized form |
| Text.WordsOfJoin | retail_promotions_to_shopify_metafields.py:89-90 | splitting a single-space join of words gives back the words (`split` inverts `" ".join`) |
| Text.AfterLastOfSuffix | retail_promotions_to_shopify_metafields.py:416 | `rsplit("/", 1)[-1]` returns exactly the text after the last separator |
| Text.StrLeTotal | get_all_vendors_with_collections.py:61 | Python string comparison is total; with StrLeRefl, StrLeAntisym and StrLeTrans it is a total order, so the library sort is well defined |
| Text.StrLeTrans | get_all_vendors_with_collections.py:61 | Python string comparison is transitive |
| Text.StrLeAntisym | get_all_vendors_with_collections.py:61 | two strings each no greater than the other are equal |
| StringOrder.StrLeTotalOrder | get_all_vendors_with_collections.py:61 | Python string comparison is a total order, so sorting vendor names by it is well defined |
| Numerals.ParseIntOfDecimal | export_shopify_collections.py:22-26 | `int()` parses the decimal rendering of every integer back to that integer (round trip) |
| Numerals.NatStringValue | retail_promotions_to_shopify_metafields.py:531 | the decimal digits produced for a natural number denote that number |
| Dates.OrdinalOrder | retail_promotions_to_shopify_metafields.py:603 | for valid dates, calendar order holds exactly when day-number order holds, and equal dates have equal day numbers, so comparing `date` values is comparing day numbers |
| Dates.ParseFormatIso | retail_promotions_to_shopify_metafields.py:102-104 | `strptime(…, "%Y-%m-%d")` parses the ISO rendering of every valid date back to that date |
| Dates.FromOrdinal | retail_promotions_to_shopify_metafields.py:531 | every day number of years 1 to 9999 is the day number of exactly the valid civil date returned (`date.fromordinal`) |
| Dates.OrdinalRoundTrip | retail_promotions_to_shopify_metafields.py:531 | a valid date's day number lies in 1..MaxDay and converts back to that date, so dates and day numbers correspond one to one |
| Dates.IsoText | retail_promotions_to_shopify_metafields.py:531 | `date.isoformat` of a day in range is ten characters that parse back, by `%Y-%m-%d`, to that same day |
| Dates.IsoTextOfDate | retail_promotions_to_shopify_metafields.py:531 | the ISO text of a valid date's day number is that date's `YYYY-MM-DD` rendering |
| Dates.ToDateOnlyOfIsoText | retail_promotions_to_shopify_metafields.py:100-104 | an ISO `YYYY-MM-DD` text, with any surrounding whitespace, converts to its own date by the first format tried |
| StableSort.SortByPerm | export_shopify_collections.py:226 | the sort returns a permutation of its input |
| StableSort.SortBySorted | tools/generate_views.py:22-25 | for a total order on keys, the sort result is ordered by key |
| StableSort.SortByStable | tools/generate_views.py:22-25 | the sort is stable: the items with any one key keep their original relative order |
| StableSort.WithKeyMembers | tools/generate_views.py:22-25 | the items with a given key are exactly the input items with that key |
| Sequences.DedupeSpec | retail_promotions_to_shopify_metafields.py:669-675 | keeping the first occurrences gives a list without repeats holding exactly the input's elements, never longer than the input |
| Sequences.DedupeFirstSeen | retail_promotions_to_shopify_metafields.py:669-675 | the ids come in the order of their first occurrence: if one kept id precedes another, its first occurrence in the input precedes every occurrence of the other |
| Sequences.DistinctCounts | retail_promotions_to_shopify_metafields.py:669-675 | a list has no repeats if and only if it holds every element at most once |
| Promotions.DisplayWindowCoversReal | retail_promotions_to_shopify_metafields.py:263-275 | for non-negative X, Y, Z a sale's display window opens X days and a price increase's Y days before the real start; the display window of either contains every day of its real window and ends on the real end when there is one; an open price increase shows through start+Z; any other type shows on its start day only |
| Promotions.CategoryIgnoresCaseAndSpacing | retail_promotions_to_shopify_metafields.py:264 | entry types with the same lower-cased words fall in the same category |
| Promotions.AggregateByVendor | retail_promotions_to_shopify_metafields.py:278-313 | one plan per distinct vendor, in first-seen order; the k-th plan is the fold of that vendor's rows in order |
| Promotions.AbsorbRow | retail_promotions_to_shopify_metafields.py:282-311 | the loop body updates one plan as the specification fold does |
| Promotions.PlanFieldIsExtreme | retail_promotions_to_shopify_metafields.py:292-309 | each date field of a vendor's plan is None exactly when none of the vendor's rows contributes to it; otherwise it equals one row's contribution and is the minimum (start fields) or maximum (end fields) of all contributions |
| Promotions.PlanDatesOrderIndependent | retail_promotions_to_shopify_metafields.py:292-309 | reordering the rows never changes any date field of any vendor's plan |
| Promotions.PlanFieldsSetTogether | retail_promotions_to_shopify_metafields.py:292-309 | the four sale fields are set exactly when the vendor has a sale row; the three price-increase fields other than the real end are set exactly when it has a price-increase row; the real end only if it has one |
| Promotions.CategoriesIndependent | retail_promotions_to_shopify_metafields.py:292-309 | a sale row leaves the price-increase fields untouched and a price-increase row leaves the sale fields untouched |
| Promotions.OtherTypeAddsOnlyCollectionId | retail_promotions_to_shopify_metafields.py:285-288 | a row of any other entry type only adds its collection id |
| Promotions.PlanCollectionIds | retail_promotions_to_shopify_metafields.py:285-286 | a plan's collection ids have no repeats and no empty id, are exactly the non-empty ids on that vendor's rows, and come in the order each first appears on those rows |
| Promotions.FoldRowsIdsOrder | retail_promotions_to_shopify_metafields.py:285-286 | folding rows into a plan with no ids yet appends each new non-empty collection id the first time it appears |
| Promotions.VendorsDistinct | retail_promotions_to_shopify_metafields.py:279-313 | the plans' vendors are pairwise different and are exactly the rows' vendors |
| Promotions.VendorsFirstSeenOrder | retail_promotions_to_shopify_metafields.py:313 | plans come in the order their vendor first appears among the rows |
| Promotions.ReadRows | retail_promotions_to_shopify_metafields.py:233-257 | the fetch loop produces the rows the per-row cleaning keeps, in order |
| Promotions.ReadAllClean | retail_promotions_to_shopify_metafields.py:235-247 | every kept row has a stripped non-empty vendor and entry type and a start date, and a collection id that is stripped and non-empty when present; no row is invented: each kept row is what some input row reads to, with that row's start date; at most one row per input row |
| Promotions.SqlSaleIsSale | retail_promotions_to_shopify_metafields.py:216 | a row the query admits as 'Sale' (trimmed of spaces, compared case-insensitively) is classified as a sale by the Python side |
| Promotions.SqlPriceIncreaseIsPriceIncrease | retail_promotions_to_shopify_metafields.py:224 | a row the query admits as 'Price Increase' is classified as a price increase by the Python side |
| Promotions.PreFilterShowsToday | retail_promotions_to_shopify_metafields.py:214-228 | every row the SQL filter admits is a sale or price increase whose display window contains today |
| ShopifyApi.ToCollectionGidIsGid | retail_promotions_to_shopify_metafields.py:321-325 | `to_collection_gid` always returns a `gid://` identifier |
| ShopifyApi.ToCollectionGidIdempotent | retail_promotions_to_shopify_metafields.py:321-325 | converting an already converted id changes nothing |
| ShopifyApi.NumericIdOfGid | retail_promotions_to_shopify_metafields.py:410-416 | the numeric id taken back from the gid of a numeric collection id is that id, and parses to the same number |
| ShopifyApi.FirstTitleMatch | retail_promotions_to_shopify_metafields.py:371-373 | a match is one of the returned nodes with the target's normalized title; none exactly when no node matches |
| ShopifyApi.FirstTitleMatchIsFirst | retail_promotions_to_shopify_metafields.py:371-373 | the match returned is the first matching node in the reply |
| ShopifyApi.FindCollectionSpec | retail_promotions_to_shopify_metafields.py:360-380 | a found collection has the same normalized title and comes from one of the two searches; the quoted search's match wins; none exactly when both searches succeed without a match; failure exactly when a search that was needed fails |
| ShopifyApi.FilterByVendor | retail_promotions_to_shopify_metafields.py:461-463 | a page adds exactly the ids of its products whose normalized vendor equals the target, in order |
| ShopifyApi.VendorMatchesMembers | retail_promotions_to_shopify_metafields.py:461-463 | an id is kept if and only if some product with that id has the target vendor; the output is never longer than the input |
| ShopifyApi.GetMetafieldIds | retail_promotions_to_shopify_metafields.py:503-508 | the result has exactly the requested keys, and each maps to the id of the last edge with that key |
| ShopifyApi.LastIdForSpec | retail_promotions_to_shopify_metafields.py:503-508 | a key's id comes from an edge carrying that key; a key no edge carries maps to None |
| ShopifyApi.BuildDateMetafield | retail_promotions_to_shopify_metafields.py:525-532 | the payload has type "date" and the given owner, namespace and key; its value is ten-character ISO text that parses back to the given day |
| ShopifyApi.Graphql | retail_promotions_to_shopify_metafields.py:330-358 | the retry loop returns the specified first answer among the allowed attempts |
| ShopifyApi.FirstAnswerSpec | retail_promotions_to_shopify_metafields.py:338-358 | the call fails if and only if no attempt answered; otherwise it returns the first answer, and every earlier attempt was a temporary status or an error |
| ShopifyApi.FirstAnswerStop | retail_promotions_to_shopify_metafields.py:353 | once an attempt answers, more retries do not change the result |
| Reconcile.NoRowsNeverQualifies | retail_promotions_to_shopify_metafields.py:601-608 | a vendor without sale rows never qualifies for the sale metafields, and one without price-increase rows never for the price-increase metafields |
| Reconcile.RowShowingTodayQualifies | retail_promotions_to_shopify_metafields.py:601-608 | a sale (price-increase) row whose display window contains today makes its vendor's sale (price-increase) metafields wanted |
| Reconcile.FilteredRowQualifies | retail_promotions_to_shopify_metafields.py:214-228 | every row the SQL filter admits makes its vendor qualify for at least one category today |
| Reconcile.PayloadSpec | retail_promotions_to_shopify_metafields.py:684-692 | each payload entry is a "date" metafield in `custom` on the product, whose value is the ISO text of the wanted real date for its key; every wanted key is present once |
| Reconcile.PayloadUsesRealDates | retail_promotions_to_shopify_metafields.py:684-692 | every written value is the ISO text of one of the plan's real promotion dates, never of a display date |
| Reconcile.KeysToCheckSpec | retail_promotions_to_shopify_metafields.py:703-707 | the keys checked for deletion are managed keys without repeats; each sale key is checked if and only if the sale should not show, and likewise for price increase |
| Reconcile.WriteAndDeleteDisjoint | retail_promotions_to_shopify_metafields.py:684-707 | within one plan's pass over a product, no key written is also checked for deletion |
| Reconcile.DryRunAgreesWithLive | retail_promotions_to_shopify_metafields.py:641-649 | the dry-run write decision holds if and only if the live payload is non-empty, and the delete decision if and only if there are keys to check |
| Reconcile.CacheKeyCollision | retail_promotions_to_shopify_metafields.py:613-617 | two different vendors whose names contain the separator can share a cache key, so the second one reuses the first's count |
| Reconcile.SumCollectionCounts | retail_promotions_to_shopify_metafields.py:621 | the dry-run count is the sum of the per-collection counts |
| Reconcile.DryRun | retail_promotions_to_shopify_metafields.py:588-661 | the dry-run loop produces the specified records, with the product cache threaded through |
| Reconcile.DryRunRecordsSpec | retail_promotions_to_shopify_metafields.py:637-659 | one record per plan with the plan's vendor and ids; collection scope used exactly when ids exist; write and delete counts are the product count when their decision holds, else 0 |
| Reconcile.DryRunFreshCounts | retail_promotions_to_shopify_metafields.py:616-632 | when no two plans share a cache key, each record's product count is that plan's own scope count |
| Reconcile.CacheAfterKeys | retail_promotions_to_shopify_metafields.py:616-632 | after the loop the cache holds exactly the plans' cache keys |
| Reconcile.WriteAllSpec | retail_promotions_to_shopify_metafields.py:470-482 | after a successful `metafieldsSet` every written key is on its product; no existing metafield is lost; the only new ones are the payload's keys, with the shop's fresh id |
| Reconcile.RemoveIdSpec | retail_promotions_to_shopify_metafields.py:510-522 | a successful `metafieldDelete` removes exactly the metafields with that id from the product and keeps all others |
| Reconcile.CollectProductIds | retail_promotions_to_shopify_metafields.py:667-675 | the live scope is the first occurrence of each product id across the collections, in order |
| Reconcile.VendorScopeMembers | retail_promotions_to_shopify_metafields.py:441-468 | without collection ids, the live scope is exactly the products of the vendor search whose normalized vendor equals the plan's normalized vendor |
| Reconcile.SpellingsShareProducts | retail_promotions_to_shopify_metafields.py:441-468 | two plans whose vendor spellings normalize alike both take in a product the searches return for both, so that product is processed once per plan |
| Reconcile.GatherMembers | retail_promotions_to_shopify_metafields.py:670-672 | a product id is gathered exactly when one of the collections lists it |
| Reconcile.LiveScopeWithinDryRunCount | retail_promotions_to_shopify_metafields.py:621-626 | the live scope has no repeats, holds exactly the products of the vendor's collections, and is never larger than the dry-run sum |
| Reconcile.SharedProductCountedTwice | retail_promotions_to_shopify_metafields.py:621-626 | one product in two of a vendor's collections is counted 2 by the dry run but processed once by the live run |
| Reconcile.DeleteFound | retail_promotions_to_shopify_metafields.py:709-720 | the delete loop issues the specified calls and counts exactly the successful deletes |
| Reconcile.DeleteCallsSpec | retail_promotions_to_shopify_metafields.py:711-718 | every delete targets a checked key of this product whose non-empty id the fetch returned; every such key is deleted |
| Reconcile.SetPayload | retail_promotions_to_shopify_metafields.py:695-700 | a non-empty payload is set in one call, counted only when it succeeds; nothing is deleted |
| Reconcile.CheckKeys | retail_promotions_to_shopify_metafields.py:709-720 | checking keys fetches once and deletes the found ids; a failed fetch deletes nothing; nothing is set |
| Reconcile.ProcessProduct | retail_promotions_to_shopify_metafields.py:682-722 | one product's calls and counters are the specified ones |
| Reconcile.ProductCallsSpec | retail_promotions_to_shopify_metafields.py:682-722 | a set call happens if and only if the payload is non-empty, and carries exactly that payload; a fetch happens if and only if keys need checking, and answers the first page of the product's metafields as the set left the store; deletes are exactly the found non-empty ids of checked keys |
| Reconcile.CheckCallsSpec | retail_promotions_to_shopify_metafields.py:709-720 | a lookup happens if and only if there are keys to check; it answers the first page of the product's metafields in the current store, or fails; each delete removes a found non-empty id of a checked key, and every such id is deleted |
| Reconcile.LiveCallsTrace | retail_promotions_to_shopify_metafields.py:682-722 | across the whole live run, every successful lookup answers what the earlier calls left in the store, and every delete follows a lookup that found that id under that key |
| Reconcile.ProcessVendor | retail_promotions_to_shopify_metafields.py:663-722 | a vendor's calls are those of each product in its live scope, in order |
| Reconcile.ProcessProducts | retail_promotions_to_shopify_metafields.py:682-722 | the product loop issues each product's calls on the store the earlier products left, and returns the store the calls leave |
| Reconcile.LiveRun | retail_promotions_to_shopify_metafields.py:588-722 | the live loop issues the specified calls, threading the store from vendor to vendor; the updated and deleted totals count the successful sets and deletes, and the final store is the start store with every call applied |
| Reconcile.LiveCallsFrom | retail_promotions_to_shopify_metafields.py:588-722 | every live call comes from some plan and some product in that plan's scope |
| Reconcile.LiveRunSafe | retail_promotions_to_shopify_metafields.py:682-720 | the live run only writes a plan's non-empty payload, and only deletes a non-empty id of a key some plan checks, which an earlier lookup of that product found in the store as the calls before it left it |
| Reconcile.SharedProductWriteThenDelete | retail_promotions_to_shopify_metafields.py:663-722 | when two vendors' scopes share a product, the first can write the sale dates and the second then delete both: one update, two deletes, and the product ends with none |
| Reconcile.SharedProductDeletedOnce | retail_promotions_to_shopify_metafields.py:709-720 | when two vendors both clean a shared product, the first deletes the two metafields and the second's lookup finds nothing more: two deletes in all, not four |
| Reconcile.RunMain | retail_promotions_to_shopify_metafields.py:538-735 | no rows means nothing is done; otherwise the plans are aggregated, and DB-only stops there, dry run yields the dry-run records, and a live run the live calls, totals and the store they leave |
| VendorCounts.PickColumnSpec | Vendor_Hub_to_Shopify_counts.py:27-31 | the fallback column is the first whose lower-cased name is a vendor-column candidate; none exactly when no column qualifies |
| VendorCounts.TruthySpec | Vendor_Hub_to_Shopify_counts.py:21 | the vendors returned are exactly the non-empty values present |
| VendorCounts.FetchVendorsSpec | Vendor_Hub_to_Shopify_counts.py:10-40 | the primary query's non-empty vendors when it succeeds; else an empty list when the probe finds no rows or no candidate column; else the candidate column's non-empty vendors; never an empty vendor |
| VendorCounts.DecideSpec | Vendor_Hub_to_Shopify_counts.py:99-139 | a vendor with no products is unmatched with count 0; a collection is matched exactly when the vendor has products and the title search finds one; then the count is the collection's, else the vendor's; will_write is the count and will_delete 0 |
| VendorCounts.CountAll | all_vendors_to_shopify_counts.py:48-97 | the loop produces one decision record per non-blank stripped vendor, in order |
| VendorCounts.DecideVendor | all_vendors_to_shopify_counts.py:56-97 | one vendor's record is the specified decision: count 0 without products, the matched collection's count, or the vendor count when no collection matches or the search fails |
| VendorCounts.RecordsSpec | all_vendors_to_shopify_counts.py:48-97 | every record is the decision for some non-blank stripped input vendor, and every such vendor gets its record |
| VendorTally.NonBlankSpec | get_all_vendors_with_collections.py:40-42 | the vendors tallied are exactly the non-empty stripped vendors read |
| VendorTally.KeysOfSpec | shopify_vendor_counts.py:41-44 | the tally's keys have no repeats and are exactly the keys of the vendors read |
| VendorTally.FirstBySpec | shopify_vendor_counts.py:43-44 | a key's display name is the first vendor read with that key |
| VendorTally.TallySum | shopify_vendor_counts.py:42 | the counts over all keys add up to the number of vendors tallied |
| VendorTally.TallyItemsSpec | shopify_vendor_counts.py:50 | each output item is a vendor read, its first spelling for its key, with the positive count of its key |
| VendorTally.TallyItemsCover | shopify_vendor_counts.py:50 | output names are pairwise different and every vendor read is represented by its key |
| VendorTally.TallyItemsTotal | shopify_vendor_counts.py:76 | the output counts sum to the number of non-blank vendors |
| VendorTally.ItemsOfTally | shopify_vendor_counts.py:50 | building the output from the two dictionaries gives the specified items |
| ShopifyVendorCounts.FetchVendorCounts | shopify_vendor_counts.py:27-51 | the paging loop produces the specified vendor tally |
| ShopifyVendorCounts.CheckCollectionSpec | shopify_vendor_counts.py:54-64 | a collection is reported exactly when the title search finds one; then its title, which normalizes like the vendor, and its count; else neither; a failing search fails the check |
| ShopifyVendorCounts.CheckAll | shopify_vendor_counts.py:85-95 | the loop produces the specified results |
| ShopifyVendorCounts.ResultsSpec | shopify_vendor_counts.py:85-95 | results exist if and only if every check succeeds; then one record per vendor with its count and match, and "false" in both collection cells when unmatched |
| ShopifyVendorCounts.FailedStays | shopify_vendor_counts.py:85-95 | a failed check ends the whole run |
| AllVendorsWithCollections.FetchAllVendors | get_all_vendors_with_collections.py:28-52 | the total counts every product node, and the counts map holds exactly the vendors seen, each with its number of products |
| AllVendorsWithCollections.FetchAllVendorsSpec | get_all_vendors_with_collections.py:28-52 | vendor keys have no repeats, are exactly the non-empty stripped vendors, have positive counts and sum to at most the product total |
| AllVendorsWithCollections.SortedEntriesSpec | get_all_vendors_with_collections.py:61-71 | vendors are processed in strictly increasing order, each with its product count |
| AllVendorsWithCollections.SortedEntriesCover | get_all_vendors_with_collections.py:61-71 | every vendor seen is processed, and only those |
| AllVendorsWithCollections.EntriesFromTally | get_all_vendors_with_collections.py:61-71 | sorting the map's keys and reading their counts gives the specified entries |
| AllVendorsWithCollections.AllVendorsMain | get_all_vendors_with_collections.py:55-94 | the run counts every product and yields the specified records for the sorted vendors |
| Views.FilterCount | tools/generate_views.py:18-20 | a filtered group holds each entry as often as the data when it qualifies, else never |
| Views.SortGroupSpec | tools/generate_views.py:22-25 | each group is sorted by lower-cased vendor, is a permutation of its unsorted group, and keeps the input order of equal keys |
| Views.BuildGroupedViewSpec | Vendor_Hub_to_Shopify_counts.py:43-60 | each group holds exactly the qualifying entries, as many times as in the data, sorted by lower-cased vendor |
| Views.GroupsCover | tools/generate_views.py:18-20 | every entry with a non-negative product count is in at least one group |
| Views.GroupsOverlap | tools/generate_views.py:18-20 | a matched entry with no products is in both the no-products and the matched group |
| Views.Flatten | tools/apply_views_to_sources.py:19-22 | flattening concatenates the three groups in the fixed order |
| Views.FlattenedViewSegments | tools/apply_views_to_sources.py:19-22 | flattening a generated view gives the no-products entries, then the unmatched entries with products, then the matched ones; each segment is its group, holds only data entries that belong to it, and is sorted by lower-cased vendor |
| Views.FlattenedViewCounts | tools/apply_views_to_sources.py:19-22 | after grouping and flattening, each entry occurs as often as in the data times the number of groups it belongs to |
| Views.FlattenedViewPermutation | tools/apply_views_to_sources.py:19-22 | grouping then flattening gives back a permutation of the data if and only if every entry belongs to exactly one group |
| ExportCollections.ParseNumericIdRoundTrip | export_shopify_collections.py:17-28 | the numeric id of a decimal id, and of its collection gid, is that number |
| ExportCollections.ParseNumericIdOfBareGid | export_shopify_collections.py:20-24 | a gid with an empty last segment has no numeric id |
| ExportCollections.CollectionIdTextSpec | export_shopify_collections.py:55 | the `collection_id` cell is empty exactly when there is no numeric id or it is 0; otherwise it parses back to the numeric id |
| ExportCollections.ListCollections | export_shopify_collections.py:31-67 | one row per node across all pages, in order, built from that node |
| ExportCollections.GetVendorsInCollection | export_shopify_collections.py:70-96 | the loop returns the sorted set of non-empty stripped vendors |
| ExportCollections.SortedVendorsSpec | export_shopify_collections.py:70-96 | the vendors are strictly sorted without repeats and are exactly the non-empty stripped vendors of the products |
| ExportCollections.EnrichCollections | export_shopify_collections.py:99-133 | every row before the interruption point is enriched in place and every later row is left as it was |
| ExportCollections.EnrichRowSpec | export_shopify_collections.py:113-131 | enrichment keeps the listing fields; the count cell parses to the collection's count; vendors are the `;`-joined sorted vendors, or "" when their lookup fails |
| ExportCollections.SortRowsSpec | export_shopify_collections.py:226 | rows are reordered by descending product count, form a permutation of the input, and rows with equal counts keep their order |
| ExportCollections.CountKeySpec | export_shopify_collections.py:226 | an unenriched row sorts with count 0; an enriched row with its collection's count |
| ExportCollections.WriteXlsx | export_shopify_collections.py:149-175 | the sheet written is the specified table |
| ExportCollections.TableSpec | export_shopify_collections.py:155-167 | no rows give no sheet; otherwise a header of the first row's keys and the extra keys, then one line per row whose cells are the merged row's values, "" when missing |
| ExportCollections.LineOfMerged | export_shopify_collections.py:164-167 | a row merged with the extra columns reads out as its own values followed by the extra values |
| ExportCollections.SheetOfRows | export_shopify_collections.py:149-175 | for collection rows the sheet is the fixed header followed by each row's seven values and the shop and export time |
| ExportCollections.ExportMain | export_shopify_collections.py:200-245 | the export writes nothing for no collections, else the fixed header and one line per enriched row in descending count order |

## Left out

- Reading the environment and `.env` (`Config`, `require_env`), console output,
  progress and ETA reporting, and `time.sleep` between calls: these have no
  effect on the results.
- Database connection handling (`DatabaseConnection`) and the SQL text itself:
  query answers are parameters. The SQL filter on rows is modelled as the
  predicate `Promotions.PreFilter`. SQL Server's string comparison is modelled
  as case-insensitive on the trimmed value, which is the default collation.
- HTTP transport, JSON decoding, status codes and back-off: a GraphQL call is
  modelled as a sequence of attempt outcomes (answer, temporary status, error).
  REST counts that swallow every error and return 0 are modelled as total count
  functions.
- Pagination cursors: a paged listing is modelled as its sequence of pages, or
  as the concatenated node list the pages give.
- Writing the JSON, CSV, xlsx and SQL files, and the `.bak` rename in
  `tools/apply_views_to_sources.py`: the model stops at the values written.
  `write_csv` writes the same lines as `ExportCollections.Table`, because
  `DictWriter` fills missing cells with "". `write_create_table_sql` writes a
  constant.
- Promotions.ReadRows: `int(r["ID"])` is modelled as an integer column already
  read. `to_date_only`'s fallback formats (`%Y-%m-%d %H:%M:%S`, with
  fractions, and `fromisoformat`) are a parameter `laterFormats`. Only the
  first format, `%Y-%m-%d`, is modelled in full.
- Dates outside years 1 to 9999: Python raises `OverflowError` when
  `timedelta` arithmetic (the display windows) leaves that range. The model
  computes on unbounded day numbers and does not raise.
- Dates.IsoText: a day number outside 1..MaxDay has no date in Python. The
  model renders it as "".
- ShopifyApi.BuildDateMetafield: for a day outside 1..MaxDay, where
  `isoformat` could not be called, the value is "" rather than an error.
- Dates.ParseYmd: `strptime` also accepts non-ASCII Unicode decimal digits
  (for example Arabic-Indic digits). The model accepts ASCII digits only.
- Text.Lower: models `str.lower` for ASCII letters only. Other letters are
  left unchanged. Whitespace follows Python's `str.isspace` list.
- Numerals.ParseInt: models `int()` on ASCII digits, with sign, surrounding
  whitespace and single underscores between digits. Non-ASCII digits are not
  accepted.
- Promotions.AggregateByVendor: `VendorPlan` is a dataclass that the source
  mutates in place. It is modelled as a datatype value that the loop replaces
  in its map. No other code holds a reference to a plan, so no aliasing is
  lost.
- Library sorts (`list.sort`, `sorted`) are modelled by a pure stable
  insertion sort on sequences rather than an in-place sort. The property
  relied on, a stable sorted permutation, is what Python promises.
- Reconcile.LiveRun: the `product_count` computed and cached in live mode is
  only printed, so it is not modelled. Exceptions escaping the vendor loop
  (listing failures) are not modelled: listings are total functions in the
  model.
- Reconcile.DryRun: a count request that itself fails yields 0 in the source
  (`rest_count_*` catch everything), so the count functions are total.
- DB-only mode only prints the plans, so the model returns them
  (`Reconcile.RunMain`).
- `metafields_set` and `metafield_delete` raising on `userErrors` is modelled
  as a per-call success flag supplied by the shop oracle.
- Reconcile.WriteAll: the store holds each product's metafield edges in the
  `custom` namespace. A set is all or nothing: a failed call changes nothing.
  A key already present keeps its id; a new key gets the id
  `shop.newMetafieldId` gives for that product and key.
- Reconcile.Apply: a delete removes the id from the product that was looked
  up only. Metafield ids are taken to be unique per product, as Shopify's
  global ids are.
- Reconcile.Shop: whether a call succeeds, and the fresh ids, depend only on
  the call's arguments, not on when it is made. Product listings (collection
  members and vendor search) do not change during a run, because the run never
  writes them.
- Reconcile.LiveProductIds: the pages of the vendor search are concatenated
  into one node list (see "Pagination cursors").
- Scripts outside the core are not part of this model:
  `tools/resilient_vendor_count.py`, `tools/export_view_to_excel.py`,
  `all_vendors_quick_counts.py`, `test_api.py`, `test_export_collections.py`.
  The Excel writer `write_excel` of `Vendor_Hub_to_Shopify_counts.py` is not
  modelled either.
- Idempotence across runs (a second run adds no new writes) is not stated.
  Within one run the model threads the store from call to call. For one plan
  and one product, no key written is also checked for deletion
  (`Reconcile.WriteAndDeleteDisjoint`). Across plans this does not hold: a
  later vendor sharing a product can delete what an earlier one wrote
  (`Reconcile.SharedProductWriteThenDelete`). Every delete targets an id an
  earlier lookup found in the current store (`Reconcile.LiveRunSafe`).
