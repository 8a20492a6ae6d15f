/**
  The per-vendor reconciliation in `main` of the promotions script: whether a
  category's metafields should exist today, which products a vendor covers and
  how their count is cached, the dry-run write/delete estimate, and the live
  pass that writes the real dates and deletes the keys that should be gone.
  Shopify is reached only through the oracle parameters of the methods.
*/
module Reconcile {
  import opened Wrappers
  import opened Text
  import opened Dates
  import opened Promotions
  import opened ShopifyApi
  import opened Sequences

  const Namespace: string := "custom"
  const SaleStartKey: string := "promo_sale_start_date"
  const SaleEndKey: string := "promo_sale_end_date"
  const PiStartKey: string := "promo_pi_start_date"
  const PiEndKey: string := "promo_pi_end_date"

  /** The four metafield keys the script manages. */
  predicate IsManagedKey(k: string) {
    k == SaleStartKey || k == SaleEndKey || k == PiStartKey || k == PiEndKey
  }

  // ---- should_exist ----

  /** A category should exist when both display bounds are known and today lies between them. */
  predicate ShouldExist(start: Option<Day>, end: Option<Day>, today: Day) {
    start.Some? && end.Some? && start.value <= today <= end.value
  }

  predicate SaleShould(w: VendorPlan, today: Day) {
    ShouldExist(w.saleDisplayStart, w.saleDisplayEnd, today)
  }

  predicate PiShould(w: VendorPlan, today: Day) {
    ShouldExist(w.piDisplayStart, w.piDisplayEnd, today)
  }

  /** A vendor without sale rows never shows a sale, and one without price-increase rows never shows one. */
  lemma NoRowsNeverQualifies(rows: seq<PromoRow>, v: string, today: Day, x: int, y: int, z: int)
    ensures (forall r :: r in rows && r.vendor == v ==> CategoryOf(r.entryType) != Sale) ==>
      !SaleShould(PlanOf(rows, v, x, y, z), today)
    ensures (forall r :: r in rows && r.vendor == v ==> CategoryOf(r.entryType) != PriceIncrease) ==>
      !PiShould(PlanOf(rows, v, x, y, z), today)
  {
    PlanFieldIsExtreme(rows, v, SaleDisplayStart, x, y, z);
    PlanFieldIsExtreme(rows, v, PiDisplayStart, x, y, z);
  }

  /**
    A row showing today keeps its category showing: when a vendor has a row of
    a category whose display window holds today, the aggregated window of that
    category holds today as well.
  */
  lemma RowShowingTodayQualifies(rows: seq<PromoRow>, r: PromoRow, today: Day, x: int, y: int, z: int)
    requires r in rows
    requires DisplayWindow(r, x, y, z).start <= today <= DisplayWindow(r, x, y, z).end
    ensures CategoryOf(r.entryType) == Sale ==> SaleShould(PlanOf(rows, r.vendor, x, y, z), today)
    ensures CategoryOf(r.entryType) == PriceIncrease ==> PiShould(PlanOf(rows, r.vendor, x, y, z), today)
  {
    var c := CategoryOf(r.entryType);
    if c == Sale {
      PlanFieldIsExtreme(rows, r.vendor, SaleDisplayStart, x, y, z);
      PlanFieldIsExtreme(rows, r.vendor, SaleDisplayEnd, x, y, z);
    } else if c == PriceIncrease {
      PlanFieldIsExtreme(rows, r.vendor, PiDisplayStart, x, y, z);
      PlanFieldIsExtreme(rows, r.vendor, PiDisplayEnd, x, y, z);
    }
  }

  /**
    Rows that passed the SQL filter make their vendor's category show: a row read
    from a filtered record of entry type `raw` puts its category's metafields
    on the list of what should exist.
  */
  lemma FilteredRowQualifies(rows: seq<PromoRow>, r: PromoRow, raw: string, today: Day, x: int, y: int, z: int)
    requires r in rows && r.entryType == Strip(raw)
    requires PreFilter(raw, Some(r.start), r.end, today, x, y, z)
    ensures SaleShould(PlanOf(rows, r.vendor, x, y, z), today) || PiShould(PlanOf(rows, r.vendor, x, y, z), today)
  {
    PreFilterShowsToday(raw, r.start, r.end, today, x, y, z, r.id, r.vendor, r.collectionId);
    assert r == PromoRow(r.id, r.vendor, r.collectionId, Strip(raw), r.start, r.end);
    RowShowingTodayQualifies(rows, r, today, x, y, z);
  }

  // ---- The live payload ----

  /** The payload for one product: the real sale dates, the real price-increase start and its end when known. */
  function Payload(pid: string, w: VendorPlan, today: Day): seq<DateMetafield> {
    (if SaleShould(w, today) && w.saleRealStart.Some? && w.saleRealEnd.Some? then
       [BuildDateMetafield(pid, Namespace, SaleStartKey, w.saleRealStart.value),
        BuildDateMetafield(pid, Namespace, SaleEndKey, w.saleRealEnd.value)]
     else [])
    + (if PiShould(w, today) && w.piRealStart.Some? then
         [BuildDateMetafield(pid, Namespace, PiStartKey, w.piRealStart.value)]
         + (if w.piRealEnd.Some? then [BuildDateMetafield(pid, Namespace, PiEndKey, w.piRealEnd.value)] else [])
       else [])
  }

  /**
    Key by key, the date the payload should carry: a sale date only while the
    sale shows and both real sale dates are known, the price-increase start
    while it shows and its real start is known, and its end only when a real
    end is known as well. Display dates never appear.
  */
  function Wanted(w: VendorPlan, today: Day, key: string): Option<Day> {
    var sale := SaleShould(w, today) && w.saleRealStart.Some? && w.saleRealEnd.Some?;
    var pi := PiShould(w, today) && w.piRealStart.Some?;
    if key == SaleStartKey then (if sale then w.saleRealStart else None)
    else if key == SaleEndKey then (if sale then w.saleRealEnd else None)
    else if key == PiStartKey then (if pi then w.piRealStart else None)
    else if key == PiEndKey then (if pi then w.piRealEnd else None)
    else None
  }

  /** Each payload entry is the metafield built for a managed key from the date wanted under it. */
  lemma PayloadEntries(pid: string, w: VendorPlan, today: Day)
    ensures forall m :: m in Payload(pid, w, today) ==>
      exists k :: IsManagedKey(k) && Wanted(w, today, k).Some? && m == BuildDateMetafield(pid, Namespace, k, Wanted(w, today, k).value)
  {
    var sale := SaleShould(w, today) && w.saleRealStart.Some? && w.saleRealEnd.Some?;
    var pi := PiShould(w, today) && w.piRealStart.Some?;
    var salePart := if sale then [BuildDateMetafield(pid, Namespace, SaleStartKey, w.saleRealStart.value),
                                  BuildDateMetafield(pid, Namespace, SaleEndKey, w.saleRealEnd.value)] else [];
    var piEnd := if w.piRealEnd.Some? then [BuildDateMetafield(pid, Namespace, PiEndKey, w.piRealEnd.value)] else [];
    var piPart := if pi then [BuildDateMetafield(pid, Namespace, PiStartKey, w.piRealStart.value)] + piEnd else [];
    assert Payload(pid, w, today) == salePart + piPart;
    forall m | m in salePart + piPart
      ensures exists k :: IsManagedKey(k) && Wanted(w, today, k).Some? && m == BuildDateMetafield(pid, Namespace, k, Wanted(w, today, k).value)
    {
      if m in salePart {
        if m == salePart[0] {
          assert Wanted(w, today, SaleStartKey) == w.saleRealStart;
        } else {
          assert Wanted(w, today, SaleEndKey) == w.saleRealEnd;
        }
      } else if m == piPart[0] {
        assert Wanted(w, today, PiStartKey) == w.piRealStart;
      } else {
        assert Wanted(w, today, PiEndKey) == w.piRealEnd;
      }
    }
  }

  /**
    The payload writes exactly the wanted keys, each once, with the ISO text of
    the wanted real date, on the product itself, in namespace "custom" and as
    type "date".
  */
  lemma PayloadSpec(pid: string, w: VendorPlan, today: Day)
    ensures forall m :: m in Payload(pid, w, today) ==>
      && m.ownerId == pid && m.namespace == Namespace && m.kind == "date"
      && IsManagedKey(m.key) && Wanted(w, today, m.key).Some? && m.value == IsoText(Wanted(w, today, m.key).value)
    ensures forall k :: IsManagedKey(k) && Wanted(w, today, k).Some? ==>
      exists m :: m in Payload(pid, w, today) && m.key == k
    ensures forall i, j :: 0 <= i < j < |Payload(pid, w, today)| ==>
      Payload(pid, w, today)[i].key != Payload(pid, w, today)[j].key
  {
    PayloadEntries(pid, w, today);
    PayloadKeys(pid, w, today);
  }

  /** The keys of the payload, in order. */
  function PayloadKeyList(w: VendorPlan, today: Day): seq<string> {
    (if SaleShould(w, today) && w.saleRealStart.Some? && w.saleRealEnd.Some? then [SaleStartKey, SaleEndKey] else [])
    + (if PiShould(w, today) && w.piRealStart.Some? then [PiStartKey] + (if w.piRealEnd.Some? then [PiEndKey] else []) else [])
  }

  lemma PayloadKeyListSpec(pid: string, w: VendorPlan, today: Day)
    ensures |Payload(pid, w, today)| == |PayloadKeyList(w, today)|
    ensures forall i :: 0 <= i < |Payload(pid, w, today)| ==> Payload(pid, w, today)[i].key == PayloadKeyList(w, today)[i]
  {
    var sale: seq<DateMetafield> :=
      if SaleShould(w, today) && w.saleRealStart.Some? && w.saleRealEnd.Some? then
        [BuildDateMetafield(pid, Namespace, SaleStartKey, w.saleRealStart.value),
         BuildDateMetafield(pid, Namespace, SaleEndKey, w.saleRealEnd.value)]
      else [];
    var piEnd: seq<DateMetafield> := if w.piRealEnd.Some? then [BuildDateMetafield(pid, Namespace, PiEndKey, w.piRealEnd.value)] else [];
    var pi: seq<DateMetafield> :=
      if PiShould(w, today) && w.piRealStart.Some? then [BuildDateMetafield(pid, Namespace, PiStartKey, w.piRealStart.value)] + piEnd else [];
    assert Payload(pid, w, today) == sale + pi;
    var saleKeys := if SaleShould(w, today) && w.saleRealStart.Some? && w.saleRealEnd.Some? then [SaleStartKey, SaleEndKey] else [];
    var piKeys := if PiShould(w, today) && w.piRealStart.Some? then [PiStartKey] + (if w.piRealEnd.Some? then [PiEndKey] else []) else [];
    assert PayloadKeyList(w, today) == saleKeys + piKeys;
    assert |sale| == |saleKeys| && forall i :: 0 <= i < |sale| ==> sale[i].key == saleKeys[i];
    assert |pi| == |piKeys| && forall i :: 0 <= i < |pi| ==> pi[i].key == piKeys[i];
  }

  /** The payload's keys: every wanted managed key, each once. */
  lemma PayloadKeys(pid: string, w: VendorPlan, today: Day)
    ensures forall k :: IsManagedKey(k) && Wanted(w, today, k).Some? ==>
      exists m :: m in Payload(pid, w, today) && m.key == k
    ensures forall i, j :: 0 <= i < j < |Payload(pid, w, today)| ==>
      Payload(pid, w, today)[i].key != Payload(pid, w, today)[j].key
  {
    var p := Payload(pid, w, today);
    var ks := PayloadKeyList(w, today);
    PayloadKeyListSpec(pid, w, today);
    assert Distinct(ks);
    forall k | IsManagedKey(k) && Wanted(w, today, k).Some?
      ensures exists m :: m in p && m.key == k
    {
      assert k in ks;
      var i :| 0 <= i < |ks| && ks[i] == k;
      assert p[i] in p;
    }
  }

  /** Only a real date of the plan is ever written. */
  lemma PayloadUsesRealDates(pid: string, w: VendorPlan, today: Day, m: DateMetafield)
    requires m in Payload(pid, w, today)
    ensures exists d :: Some(d) in {w.saleRealStart, w.saleRealEnd, w.piRealStart, w.piRealEnd} && m.value == IsoText(d)
  {
    PayloadSpec(pid, w, today);
    var d := Wanted(w, today, m.key).value;
    assert Some(d) in {w.saleRealStart, w.saleRealEnd, w.piRealStart, w.piRealEnd};
  }

  /** The keys whose metafields should be removed from each product: a category's keys when it should not show. */
  function KeysToCheck(w: VendorPlan, today: Day): seq<string> {
    (if !SaleShould(w, today) then [SaleStartKey, SaleEndKey] else [])
    + (if !PiShould(w, today) then [PiStartKey, PiEndKey] else [])
  }

  /** Sale keys are checked exactly when the sale should not show, price-increase keys exactly when it should not. */
  lemma KeysToCheckSpec(w: VendorPlan, today: Day)
    ensures forall k :: k in KeysToCheck(w, today) ==> IsManagedKey(k)
    ensures SaleStartKey in KeysToCheck(w, today) <==> !SaleShould(w, today)
    ensures SaleEndKey in KeysToCheck(w, today) <==> !SaleShould(w, today)
    ensures PiStartKey in KeysToCheck(w, today) <==> !PiShould(w, today)
    ensures PiEndKey in KeysToCheck(w, today) <==> !PiShould(w, today)
    ensures Distinct(KeysToCheck(w, today))
  {
  }

  /** No pass both writes and deletes the same key on a product. */
  lemma WriteAndDeleteDisjoint(pid: string, w: VendorPlan, today: Day, m: DateMetafield)
    requires m in Payload(pid, w, today)
    ensures m.key !in KeysToCheck(w, today)
  {
    PayloadSpec(pid, w, today);
    KeysToCheckSpec(w, today);
  }

  // ---- Dry run: the estimate ----

  /** `payload_will_exist` of the dry run. */
  predicate PayloadWillExist(w: VendorPlan, today: Day) {
    (SaleShould(w, today) && w.saleRealStart.Some? && w.saleRealEnd.Some?)
    || (PiShould(w, today) && w.piRealStart.Some?)
  }

  /** `keys_will_delete` of the dry run. */
  predicate KeysWillDelete(w: VendorPlan, today: Day) {
    !SaleShould(w, today) || !PiShould(w, today)
  }

  /**
    The dry run counts a product as written exactly when the live pass would
    send it a non-empty payload, and as cleaned exactly when the live pass
    would check some of its keys.
  */
  lemma DryRunAgreesWithLive(pid: string, w: VendorPlan, today: Day)
    ensures PayloadWillExist(w, today) <==> Payload(pid, w, today) != []
    ensures KeysWillDelete(w, today) <==> KeysToCheck(w, today) != []
  {
  }

  // ---- Scope and the count cache ----

  /** `cache_key`: vendor, scope tag and the collection ids joined by ",". */
  function CacheKey(w: VendorPlan): string {
    w.vendor + "::" + (if |w.collectionIds| > 0 then "collection_id" else "vendor") + "::" + JoinWith(",", w.collectionIds)
  }

  lemma ScopeTagLiteral()
    ensures "::" + "collection_id" + "::" == "::collection_id::"
  {
  }

  /**
    Two different vendors can share a cache key: a collection id holding
    "::collection_id::" shifts the separators, so vendor `v` with collection
    `s::collection_id::t` and vendor `v::collection_id::s` with collection `t`
    get the same key, and the second reuses the first one's product count.
  */
  lemma CacheKeyCollision(v: string, s: string, t: string, a: VendorPlan, b: VendorPlan)
    requires a.vendor == v && a.collectionIds == [s + "::collection_id::" + t]
    requires b.vendor == v + "::collection_id::" + s && b.collectionIds == [t]
    ensures a.vendor != b.vendor && CacheKey(a) == CacheKey(b)
  {
    ScopeTagLiteral();
    var tag := "::collection_id::";
    assert |b.vendor| > |a.vendor|;
    assert CacheKey(a) == v + tag + (s + tag + t);
    assert CacheKey(b) == (v + tag + s) + tag + t;
  }

  // ---- What Shopify holds and answers ----

  /**
    The metafields of namespace "custom" on each product, listed as the
    `edges` of a metafield query; a product missing from the map has none.
  */
  type Store = map<string, seq<Option<MetafieldNode>>>

  function EdgesOf(st: Store, pid: string): seq<Option<MetafieldNode>> {
    if pid in st then st[pid] else []
  }

  /** `metafields(first: 100, ...)` answers at most this many edges. */
  const PageSize: nat := 100

  /** The edges a metafield query answers: the first `PageSize` of the product's. */
  function Page(edges: seq<Option<MetafieldNode>>): seq<Option<MetafieldNode>> {
    if |edges| <= PageSize then edges else edges[..PageSize]
  }

  /** Whether some edge carries key `k`. */
  predicate HasKey(edges: seq<Option<MetafieldNode>>, k: string) {
    exists e :: e in edges && e.Some? && e.value.key == Some(k)
  }

  /**
    `metafieldsSet` of one key on a product: a metafield that already has the
    key keeps its id (only its value changes), otherwise a new one is created
    with the id Shopify assigns.
  */
  function Upsert(edges: seq<Option<MetafieldNode>>, k: string, id: string): seq<Option<MetafieldNode>> {
    if HasKey(edges, k) then edges else edges + [Some(MetafieldNode(Some(id), Some(k)))]
  }

  /** The store after a successful `metafieldsSet`; `newId(owner, key)` is the id a created metafield gets. */
  function WriteAll(st: Store, ms: seq<DateMetafield>, newId: (string, string) -> string): Store {
    if ms == [] then st
    else
      var before := WriteAll(st, ms[..|ms| - 1], newId);
      var m := ms[|ms| - 1];
      before[m.ownerId := Upsert(EdgesOf(before, m.ownerId), m.key, newId(m.ownerId, m.key))]
  }

  /**
    A successful set leaves every written key on its owner, removes nothing,
    and adds only metafields of written keys, with the ids Shopify assigns.
  */
  lemma {:induction false} WriteAllSpec(st: Store, ms: seq<DateMetafield>, newId: (string, string) -> string)
    ensures forall m :: m in ms ==> HasKey(EdgesOf(WriteAll(st, ms, newId), m.ownerId), m.key)
    ensures forall p, e :: e in EdgesOf(st, p) ==> e in EdgesOf(WriteAll(st, ms, newId), p)
    ensures forall p, e :: e in EdgesOf(WriteAll(st, ms, newId), p) && e !in EdgesOf(st, p) ==>
      exists m :: m in ms && m.ownerId == p && e == Some(MetafieldNode(Some(newId(p, m.key)), Some(m.key)))
  {
    if ms != [] {
      var init := ms[..|ms| - 1];
      var m := ms[|ms| - 1];
      WriteAllSpec(st, init, newId);
      var before := WriteAll(st, init, newId);
      var added := Some(MetafieldNode(Some(newId(m.ownerId, m.key)), Some(m.key)));
      assert ms == init + [m];
      forall m' | m' in ms
        ensures HasKey(EdgesOf(WriteAll(st, ms, newId), m'.ownerId), m'.key)
      {
        if m' == m && !HasKey(EdgesOf(before, m.ownerId), m.key) {
          assert added in EdgesOf(WriteAll(st, ms, newId), m.ownerId);
        } else if m' != m {
          var e :| e in EdgesOf(before, m'.ownerId) && e.Some? && e.value.key == Some(m'.key);
          assert e in EdgesOf(WriteAll(st, ms, newId), m'.ownerId);
        }
      }
      forall p, e | e in EdgesOf(WriteAll(st, ms, newId), p) && e !in EdgesOf(st, p)
        ensures exists m' :: m' in ms && m'.ownerId == p && e == Some(MetafieldNode(Some(newId(p, m'.key)), Some(m'.key)))
      {
        if e !in EdgesOf(before, p) {
          assert p == m.ownerId && e == added;
        } else {
          var m' :| m' in init && m'.ownerId == p && e == Some(MetafieldNode(Some(newId(p, m'.key)), Some(m'.key)));
          assert m' in ms;
        }
      }
    }
  }

  /** The edges left after `metafieldDelete` of id `mid`. */
  function RemoveId(edges: seq<Option<MetafieldNode>>, mid: string): seq<Option<MetafieldNode>> {
    if edges == [] then []
    else
      var e := edges[|edges| - 1];
      RemoveId(edges[..|edges| - 1], mid) + (if e.Some? && e.value.id == Some(mid) then [] else [e])
  }

  /** A delete removes exactly the metafields with that id and keeps the others in order. */
  lemma {:induction false} RemoveIdSpec(edges: seq<Option<MetafieldNode>>, mid: string)
    ensures forall e :: e in RemoveId(edges, mid) <==> e in edges && !(e.Some? && e.value.id == Some(mid))
    ensures |RemoveId(edges, mid)| <= |edges|
  {
    if edges != [] {
      RemoveIdSpec(edges[..|edges| - 1], mid);
      assert edges == edges[..|edges| - 1] + [edges[|edges| - 1]];
    }
  }

  /**
    The Shopify calls `main` makes, as their answers: product ids and product
    counts per collection and per vendor (a vendor search answers every
    product node of all its pages), whether a `metafieldsSet`, a metafield
    lookup and a `metafieldDelete` succeed, the id a created metafield gets,
    and the store before the run.
  */
  datatype Shop = Shop(
    productsInCollection: string -> seq<string>,
    vendorSearch: string -> seq<ProductNode>,
    countInCollection: string -> nat,
    countByVendor: string -> nat,
    setSucceeds: seq<DateMetafield> -> bool,
    newMetafieldId: (string, string) -> string,
    fetchSucceeds: string -> bool,
    deleteSucceeds: string -> bool,
    metafields: Store)

  // ---- Dry run ----

  /** `sum(rest_count_products_in_collection(cid) for cid in ids)`. */
  function SumCounts(ids: seq<string>, count: string -> nat): nat {
    if ids == [] then 0 else SumCounts(ids[..|ids| - 1], count) + count(ids[|ids| - 1])
  }

  method SumCollectionCounts(ids: seq<string>, count: string -> nat) returns (total: nat)
    ensures total == SumCounts(ids, count)
  {
    total := 0;
    for i := 0 to |ids|
      invariant total == SumCounts(ids[..i], count)
    {
      assert ids[..i + 1][..i] == ids[..i];
      total := total + count(ids[i]);
    }
    assert ids[..|ids|] == ids;
  }

  /** The dry-run product count of a vendor's scope: its collections' counts summed, or its vendor count. */
  function ScopeCount(w: VendorPlan, shop: Shop): nat {
    if |w.collectionIds| > 0 then SumCounts(w.collectionIds, shop.countInCollection)
    else shop.countByVendor(w.vendor)
  }

  /** One entry of `vendor_results`. */
  datatype DryRunRecord = DryRunRecord(
    vendor: string,
    usedCollectionId: bool,
    collectionIds: seq<string>,
    productsFound: nat,
    willWrite: nat,
    willDelete: nat)

  function EstimateRecord(w: VendorPlan, today: Day, found: nat): DryRunRecord {
    DryRunRecord(
      w.vendor, |w.collectionIds| > 0, w.collectionIds, found,
      if PayloadWillExist(w, today) then found else 0,
      if KeysWillDelete(w, today) then found else 0)
  }

  /** The count a vendor gets: the cached one under its key, or a fresh one. */
  function Found(cache: map<string, nat>, w: VendorPlan, shop: Shop): nat {
    if CacheKey(w) in cache then cache[CacheKey(w)] else ScopeCount(w, shop)
  }

  /** `product_cache` after the given vendors. */
  function CacheAfter(plans: seq<VendorPlan>, shop: Shop): map<string, nat> {
    if plans == [] then map[]
    else
      var cache := CacheAfter(plans[..|plans| - 1], shop);
      var w := plans[|plans| - 1];
      cache[CacheKey(w) := Found(cache, w, shop)]
  }

  /** `vendor_results` of a dry run. */
  function DryRunRecords(plans: seq<VendorPlan>, today: Day, shop: Shop): seq<DryRunRecord> {
    if plans == [] then []
    else
      var init := plans[..|plans| - 1];
      DryRunRecords(init, today, shop) + [EstimateRecord(plans[|plans| - 1], today, Found(CacheAfter(init, shop), plans[|plans| - 1], shop))]
  }

  lemma DryRunStep(plans: seq<VendorPlan>, i: nat, today: Day, shop: Shop)
    requires i < |plans|
    ensures var w := plans[i];
      var cache := CacheAfter(plans[..i], shop);
      && CacheAfter(plans[..i + 1], shop) == cache[CacheKey(w) := Found(cache, w, shop)]
      && DryRunRecords(plans[..i + 1], today, shop) == DryRunRecords(plans[..i], today, shop) + [EstimateRecord(w, today, Found(cache, w, shop))]
  {
    assert plans[..i + 1][..i] == plans[..i];
  }

  /** The dry-run branch of the vendor loop: look the count up or compute and cache it, then estimate. */
  method DryRun(plans: seq<VendorPlan>, today: Day, shop: Shop) returns (results: seq<DryRunRecord>)
    ensures results == DryRunRecords(plans, today, shop)
  {
    var cache: map<string, nat> := map[];
    results := [];
    for i := 0 to |plans|
      invariant cache == CacheAfter(plans[..i], shop)
      invariant results == DryRunRecords(plans[..i], today, shop)
    {
      DryRunStep(plans, i, today, shop);
      var w := plans[i];
      var key := CacheKey(w);
      var count: nat;
      if key in cache {
        count := cache[key];
      } else {
        if |w.collectionIds| > 0 {
          count := SumCollectionCounts(w.collectionIds, shop.countInCollection);
        } else {
          count := shop.countByVendor(w.vendor);
        }
        cache := cache[key := count];
      }
      results := results + [EstimateRecord(w, today, count)];
    }
    assert plans[..|plans|] == plans;
  }

  /** The cache holds exactly the keys of the vendors seen so far. */
  lemma {:induction false} CacheAfterKeys(plans: seq<VendorPlan>, shop: Shop)
    ensures forall k :: k in CacheAfter(plans, shop) <==> exists w :: w in plans && CacheKey(w) == k
  {
    if plans != [] {
      var init := plans[..|plans| - 1];
      CacheAfterKeys(init, shop);
      assert plans == init + [plans[|plans| - 1]];
    }
  }

  /**
    One record per vendor, in order: each names its vendor and scope, and
    estimates `products_found` writes when a payload would exist and as many
    deletes when some keys would be checked, and none otherwise.
  */
  lemma {:induction false} DryRunRecordsSpec(plans: seq<VendorPlan>, today: Day, shop: Shop)
    ensures |DryRunRecords(plans, today, shop)| == |plans|
    ensures forall k :: 0 <= k < |plans| ==>
      var rec := DryRunRecords(plans, today, shop)[k];
      && rec.vendor == plans[k].vendor && rec.collectionIds == plans[k].collectionIds
      && (rec.usedCollectionId <==> plans[k].collectionIds != [])
      && rec.willWrite == (if PayloadWillExist(plans[k], today) then rec.productsFound else 0)
      && rec.willDelete == (if KeysWillDelete(plans[k], today) then rec.productsFound else 0)
  {
    if plans != [] {
      DryRunRecordsSpec(plans[..|plans| - 1], today, shop);
    }
  }

  /**
    While no two vendors share a cache key, the cache never answers and every
    vendor's `products_found` is its own fresh scope count.
  */
  lemma {:induction false} DryRunFreshCounts(plans: seq<VendorPlan>, today: Day, shop: Shop)
    requires forall i, j :: 0 <= i < j < |plans| ==> CacheKey(plans[i]) != CacheKey(plans[j])
    ensures |DryRunRecords(plans, today, shop)| == |plans|
    ensures forall k :: 0 <= k < |plans| ==> DryRunRecords(plans, today, shop)[k].productsFound == ScopeCount(plans[k], shop)
  {
    DryRunRecordsSpec(plans, today, shop);
    if plans != [] {
      var init := plans[..|plans| - 1];
      var w := plans[|plans| - 1];
      DryRunFreshCounts(init, today, shop);
      CacheAfterKeys(init, shop);
      forall k | 0 <= k < |plans|
        ensures DryRunRecords(plans, today, shop)[k].productsFound == ScopeCount(plans[k], shop)
      {
        if k < |init| {
          assert plans[k] == init[k];
        }
      }
    }
  }

  // ---- Live run: the product scope ----

  /** The product ids of the collections, list after list, as `list_product_ids_in_collection` returns them. */
  function Gather(ids: seq<string>, productsIn: string -> seq<string>): seq<string> {
    if ids == [] then [] else Gather(ids[..|ids| - 1], productsIn) + productsIn(ids[|ids| - 1])
  }

  lemma {:induction false} GatherLength(ids: seq<string>, shop: Shop)
    requires forall c :: c in ids ==> shop.countInCollection(c) == |shop.productsInCollection(c)|
    ensures |Gather(ids, shop.productsInCollection)| == SumCounts(ids, shop.countInCollection)
  {
    if ids != [] {
      GatherLength(ids[..|ids| - 1], shop);
    }
  }

  /** The products a vendor's live pass visits: the union of its collections in first-seen order, or its vendor's products. */
  function LiveProductIds(w: VendorPlan, shop: Shop): seq<string> {
    if |w.collectionIds| > 0 then Dedupe(Gather(w.collectionIds, shop.productsInCollection))
    else VendorMatches(shop.vendorSearch(w.vendor), Normalize(w.vendor))
  }

  /**
    Without collections a vendor's live scope is the searched products whose
    vendor normalises to the plan's vendor, in search order.
  */
  lemma VendorScopeMembers(w: VendorPlan, shop: Shop)
    requires |w.collectionIds| == 0
    ensures forall id :: id in LiveProductIds(w, shop) <==>
      exists n :: n in shop.vendorSearch(w.vendor) && n.id == id && NormalizeOpt(n.vendor) == Normalize(w.vendor)
  {
    VendorMatchesMembers(shop.vendorSearch(w.vendor), Normalize(w.vendor));
  }

  /**
    Two spellings of a vendor that normalise alike are two plans of one run,
    and a product both searches return is in both live scopes, so both passes
    visit it.
  */
  lemma SpellingsShareProducts(u: VendorPlan, w: VendorPlan, shop: Shop, n: ProductNode)
    requires |u.collectionIds| == 0 && |w.collectionIds| == 0 && Normalize(u.vendor) == Normalize(w.vendor)
    requires n in shop.vendorSearch(u.vendor) && n in shop.vendorSearch(w.vendor)
    requires NormalizeOpt(n.vendor) == Normalize(u.vendor)
    ensures n.id in LiveProductIds(u, shop) && n.id in LiveProductIds(w, shop)
  {
    VendorScopeMembers(u, shop);
    VendorScopeMembers(w, shop);
  }

  /** The collection branch of the live scope: the `seen` set and the id list, collection after collection. */
  method CollectProductIds(ids: seq<string>, productsIn: string -> seq<string>) returns (productIds: seq<string>)
    ensures productIds == Dedupe(Gather(ids, productsIn))
  {
    var seen: set<string> := {};
    productIds := [];
    for i := 0 to |ids|
      invariant productIds == Dedupe(Gather(ids[..i], productsIn))
      invariant forall x :: x in seen <==> x in productIds
    {
      assert ids[..i + 1][..i] == ids[..i];
      assert Gather(ids[..i + 1], productsIn) == Gather(ids[..i], productsIn) + productsIn(ids[i]);
      seen, productIds := AppendUnseen(seen, productIds, Gather(ids[..i], productsIn), productsIn(ids[i]));
    }
    assert ids[..|ids|] == ids;
  }

  /** The inner loop over one collection's products: append each id not seen yet. */
  method AppendUnseen(seen0: set<string>, productIds0: seq<string>, before: seq<string>, found: seq<string>)
    returns (seen: set<string>, productIds: seq<string>)
    requires productIds0 == Dedupe(before) && forall x :: x in seen0 <==> x in productIds0
    ensures productIds == Dedupe(before + found) && forall x :: x in seen <==> x in productIds
  {
    seen, productIds := seen0, productIds0;
    assert before + found[..0] == before;
    for j := 0 to |found|
      invariant productIds == Dedupe(before + found[..j])
      invariant forall x :: x in seen <==> x in productIds
    {
      var pid := found[j];
      assert before + found[..j + 1] == (before + found[..j]) + [pid];
      DedupeSnoc(before + found[..j], pid);
      if pid !in seen {
        seen := seen + {pid};
        productIds := productIds + [pid];
      }
    }
    assert found[..|found|] == found;
  }

  /**
    The live scope covers each product at most once, and with the dry-run
    counts equal to the list lengths it holds at most the dry-run sum: the dry
    run adds collection counts where the live pass takes a union.
  */
  lemma LiveScopeWithinDryRunCount(w: VendorPlan, shop: Shop)
    requires |w.collectionIds| > 0
    requires forall c :: c in w.collectionIds ==> shop.countInCollection(c) == |shop.productsInCollection(c)|
    ensures Distinct(LiveProductIds(w, shop))
    ensures forall p :: p in LiveProductIds(w, shop) <==> exists c :: c in w.collectionIds && p in shop.productsInCollection(c)
    ensures |LiveProductIds(w, shop)| <= ScopeCount(w, shop)
  {
    DedupeSpec(Gather(w.collectionIds, shop.productsInCollection));
    GatherLength(w.collectionIds, shop);
    GatherMembers(w.collectionIds, shop.productsInCollection);
  }

  lemma {:induction false} GatherMembers(ids: seq<string>, productsIn: string -> seq<string>)
    ensures forall p :: p in Gather(ids, productsIn) <==> exists c :: c in ids && p in productsIn(c)
  {
    if ids != [] {
      var init := ids[..|ids| - 1];
      GatherMembers(init, productsIn);
      assert ids == init + [ids[|ids| - 1]];
    }
  }

  /** A product in two of a vendor's collections counts twice in the dry run and once in the live pass. */
  lemma SharedProductCountedTwice(w: VendorPlan, shop: Shop, a: string, b: string, p: string)
    requires w.collectionIds == [a, b]
    requires shop.productsInCollection(a) == [p] && shop.productsInCollection(b) == [p]
    requires shop.countInCollection(a) == 1 && shop.countInCollection(b) == 1
    ensures ScopeCount(w, shop) == 2 && LiveProductIds(w, shop) == [p]
  {
    SumCountsPair(a, b, shop.countInCollection);
    GatherPair(a, b, shop.productsInCollection);
    assert [p] + [p] == [p, p];
    DedupeTwice(p);
  }

  lemma SumCountsPair(a: string, b: string, count: string -> nat)
    ensures SumCounts([a, b], count) == count(a) + count(b)
  {
    assert [a, b][..1] == [a];
    assert [a][..0] == [];
    assert SumCounts([a], count) == count(a);
  }

  lemma GatherPair(a: string, b: string, productsIn: string -> seq<string>)
    ensures Gather([a, b], productsIn) == productsIn(a) + productsIn(b)
  {
    assert [a, b][..1] == [a];
    assert [a][..0] == [];
    assert Gather([a], productsIn) == [] + productsIn(a) == productsIn(a);
  }

  lemma DedupeTwice(p: string)
    ensures Dedupe([p, p]) == [p]
  {
    assert [p, p][..1] == [p];
    assert [p][..0] == [];
    assert Dedupe([p]) == [p];
  }

  // ---- Live run: writes and deletes ----

  /** A Shopify call of the live pass, with whether it went through; a lookup carries what it answered. */
  datatype Call =
    | SetCall(payload: seq<DateMetafield>, ok: bool)
    | FetchCall(productId: string, keys: seq<string>, answer: Result<seq<Option<MetafieldNode>>>)
    | DeleteCall(productId: string, key: string, metafieldId: string, ok: bool)

  /**
    What a call does to the store: a successful set writes its metafields, a
    successful delete removes the id from the product; lookups and failed
    calls change nothing.
  */
  function Apply(st: Store, c: Call, shop: Shop): Store {
    match c
    case SetCall(payload, ok) => if ok then WriteAll(st, payload, shop.newMetafieldId) else st
    case FetchCall(_, _, _) => st
    case DeleteCall(pid, _, mid, ok) => if ok then st[pid := RemoveId(EdgesOf(st, pid), mid)] else st
  }

  /** The store after the calls, one after another. */
  function Replay(st: Store, calls: seq<Call>, shop: Shop): Store {
    if calls == [] then st else Apply(Replay(st, calls[..|calls| - 1], shop), calls[|calls| - 1], shop)
  }

  lemma {:induction false} ReplayAppend(st: Store, a: seq<Call>, b: seq<Call>, shop: Shop)
    ensures Replay(st, a + b, shop) == Replay(Replay(st, a, shop), b, shop)
  {
    if b == [] {
      assert a + b == a;
    } else {
      ReplayAppend(st, a, b[..|b| - 1], shop);
      assert (a + b)[..|a + b| - 1] == a + b[..|b| - 1];
      assert (a + b)[|a + b| - 1] == b[|b| - 1];
    }
  }

  lemma ReplayOne(st: Store, c: Call, shop: Shop)
    ensures Replay(st, [c], shop) == Apply(st, c, shop)
  {
    assert [c][..0] == [];
  }

  /** `updated_products` counts the successful `metafieldsSet` calls. */
  function SetsDone(calls: seq<Call>): nat {
    if calls == [] then 0
    else SetsDone(calls[..|calls| - 1]) + (if calls[|calls| - 1].SetCall? && calls[|calls| - 1].ok then 1 else 0)
  }

  /** `deleted_metafields` counts the successful deletes. */
  function DeletesDone(calls: seq<Call>): nat {
    if calls == [] then 0
    else DeletesDone(calls[..|calls| - 1]) + (if calls[|calls| - 1].DeleteCall? && calls[|calls| - 1].ok then 1 else 0)
  }

  lemma {:induction false} DoneAppend(a: seq<Call>, b: seq<Call>)
    ensures SetsDone(a + b) == SetsDone(a) + SetsDone(b)
    ensures DeletesDone(a + b) == DeletesDone(a) + DeletesDone(b)
  {
    if b == [] {
      assert a + b == a;
    } else {
      var init := b[..|b| - 1];
      DoneAppend(a, init);
      assert (a + b)[..|a + b| - 1] == a + init;
      assert (a + b)[|a + b| - 1] == b[|b| - 1];
    }
  }

  /** The deletes for the found keys, in key order, for the ids that are present and non-empty. */
  function DeleteCalls(pid: string, keys: seq<string>, edges: seq<Option<MetafieldNode>>, deleteSucceeds: string -> bool): seq<Call> {
    if keys == [] then []
    else
      var mid := LastIdFor(edges, keys[|keys| - 1]);
      DeleteCalls(pid, keys[..|keys| - 1], edges, deleteSucceeds)
      + (if mid.Some? && mid.value != "" then [DeleteCall(pid, keys[|keys| - 1], mid.value, deleteSucceeds(mid.value))] else [])
  }

  /** The `metafieldsSet` call for a payload, made only when it is non-empty. */
  function SetCalls(payload: seq<DateMetafield>, shop: Shop): seq<Call> {
    if payload != [] then [SetCall(payload, shop.setSucceeds(payload))] else []
  }

  /**
    The lookup of the keys to check, made only when there are some: it answers
    the first page of the product's metafields as the store holds them now,
    and a successful one is followed by the deletes.
  */
  function CheckCalls(pid: string, keys: seq<string>, shop: Shop, st: Store): seq<Call> {
    if keys == [] then []
    else
      var answer := if shop.fetchSucceeds(pid) then Ok(Page(EdgesOf(st, pid))) else Failed;
      [FetchCall(pid, keys, answer)] + (if answer.Ok? then DeleteCalls(pid, keys, answer.value, shop.deleteSucceeds) else [])
  }

  /** What the live pass does to one product, from store `st`: the set, then the lookup on the store it leaves. */
  function ProductCalls(pid: string, w: VendorPlan, today: Day, shop: Shop, st: Store): seq<Call> {
    var sets := SetCalls(Payload(pid, w, today), shop);
    sets + CheckCalls(pid, KeysToCheck(w, today), shop, Replay(st, sets, shop))
  }

  /** The delete loop over the looked-up ids; each successful delete removes the id from the product. */
  method DeleteFound(pid: string, keys: seq<string>, existing: map<string, Option<string>>, edges: seq<Option<MetafieldNode>>,
                     shop: Shop, store: Store)
    returns (calls: seq<Call>, deleted: nat, after: Store)
    requires forall k :: k in keys ==> k in existing && existing[k] == LastIdFor(edges, k)
    ensures calls == DeleteCalls(pid, keys, edges, shop.deleteSucceeds)
    ensures deleted == DeletesDone(calls) && after == Replay(store, calls, shop)
  {
    calls := [];
    deleted := 0;
    after := store;
    for i := 0 to |keys|
      invariant calls == DeleteCalls(pid, keys[..i], edges, shop.deleteSucceeds)
      invariant deleted == DeletesDone(calls) && after == Replay(store, calls, shop)
    {
      DeleteCallsStep(pid, keys, i, edges, shop.deleteSucceeds);
      var mid := existing[keys[i]];
      var one: seq<Call> := [];
      if mid.Some? && mid.value != "" {
        var ok := shop.deleteSucceeds(mid.value);
        one := [DeleteCall(pid, keys[i], mid.value, ok)];
        ReplayOne(after, one[0], shop);
        if ok {
          after := after[pid := RemoveId(EdgesOf(after, pid), mid.value)];
          deleted := deleted + 1;
        }
      }
      DoneAppend(calls, one);
      ReplayAppend(store, calls, one, shop);
      calls := calls + one;
    }
    assert keys[..|keys|] == keys;
  }

  lemma DeleteCallsStep(pid: string, keys: seq<string>, i: nat, edges: seq<Option<MetafieldNode>>, deleteSucceeds: string -> bool)
    requires i < |keys|
    ensures var mid := LastIdFor(edges, keys[i]);
      DeleteCalls(pid, keys[..i + 1], edges, deleteSucceeds)
      == DeleteCalls(pid, keys[..i], edges, deleteSucceeds)
         + (if mid.Some? && mid.value != "" then [DeleteCall(pid, keys[i], mid.value, deleteSucceeds(mid.value))] else [])
  {
    assert keys[..i + 1][..i] == keys[..i];
  }

  /** Send the payload when there is one; `updated_products` goes up when the call succeeds. */
  method SetPayload(payload: seq<DateMetafield>, shop: Shop, store: Store) returns (calls: seq<Call>, updated: nat, after: Store)
    ensures calls == SetCalls(payload, shop) && after == Replay(store, calls, shop)
    ensures updated == SetsDone(calls) && DeletesDone(calls) == 0
  {
    calls := [];
    updated := 0;
    after := store;
    if payload != [] {
      var ok := shop.setSucceeds(payload);
      calls := [SetCall(payload, ok)];
      assert calls[..0] == [];
      if ok {
        after := WriteAll(store, payload, shop.newMetafieldId);
        updated := 1;
      }
    }
  }

  /** Look up the keys to check and delete what is found; a failed lookup deletes nothing. */
  method CheckKeys(pid: string, keys: seq<string>, shop: Shop, store: Store) returns (calls: seq<Call>, deleted: nat, after: Store)
    ensures calls == CheckCalls(pid, keys, shop, store) && after == Replay(store, calls, shop)
    ensures deleted == DeletesDone(calls) && SetsDone(calls) == 0
  {
    calls := [];
    deleted := 0;
    after := store;
    if keys != [] {
      var answer := if shop.fetchSucceeds(pid) then Ok(Page(EdgesOf(store, pid))) else Failed;
      var lookup := [FetchCall(pid, keys, answer)];
      assert lookup[..0] == [];
      var deletes := [];
      if answer.Ok? {
        var existing := GetMetafieldIds(keys, answer.value);
        deletes, deleted, after := DeleteFound(pid, keys, existing, answer.value, shop, store);
        DeletesOnly(pid, keys, answer.value, shop.deleteSucceeds);
      }
      DoneAppend(lookup, deletes);
      ReplayAppend(store, lookup, deletes, shop);
      calls := lookup + deletes;
    }
  }

  lemma {:induction false} DeletesOnly(pid: string, keys: seq<string>, edges: seq<Option<MetafieldNode>>, deleteSucceeds: string -> bool)
    ensures SetsDone(DeleteCalls(pid, keys, edges, deleteSucceeds)) == 0
  {
    if keys != [] {
      var mid := LastIdFor(edges, keys[|keys| - 1]);
      var init := DeleteCalls(pid, keys[..|keys| - 1], edges, deleteSucceeds);
      DeletesOnly(pid, keys[..|keys| - 1], edges, deleteSucceeds);
      if mid.Some? && mid.value != "" {
        DoneAppend(init, [DeleteCall(pid, keys[|keys| - 1], mid.value, deleteSucceeds(mid.value))]);
      } else {
        assert init + [] == init;
      }
    }
  }

  /** The body of the per-product loop: set the payload if any, then look up and delete the keys to check. */
  method ProcessProduct(pid: string, w: VendorPlan, today: Day, shop: Shop, store: Store)
    returns (calls: seq<Call>, updated: nat, deleted: nat, after: Store)
    ensures calls == ProductCalls(pid, w, today, shop, store) && after == Replay(store, calls, shop)
    ensures updated == SetsDone(calls) && deleted == DeletesDone(calls)
  {
    var sets, checks, mid;
    sets, updated, mid := SetPayload(Payload(pid, w, today), shop, store);
    checks, deleted, after := CheckKeys(pid, KeysToCheck(w, today), shop, mid);
    DoneAppend(sets, checks);
    ReplayAppend(store, sets, checks, shop);
    calls := sets + checks;
  }

  lemma {:induction false} DeleteCallsSpec(pid: string, keys: seq<string>, edges: seq<Option<MetafieldNode>>, deleteSucceeds: string -> bool)
    ensures forall c :: c in DeleteCalls(pid, keys, edges, deleteSucceeds) ==>
      && c.DeleteCall? && c.productId == pid && c.key in keys && c.metafieldId != ""
      && c.ok == deleteSucceeds(c.metafieldId) && Some(MetafieldNode(Some(c.metafieldId), Some(c.key))) in edges
    ensures forall k :: k in keys && LastIdFor(edges, k).Some? && LastIdFor(edges, k).value != "" ==>
      DeleteCall(pid, k, LastIdFor(edges, k).value, deleteSucceeds(LastIdFor(edges, k).value)) in DeleteCalls(pid, keys, edges, deleteSucceeds)
  {
    if keys != [] {
      var init := keys[..|keys| - 1];
      var k := keys[|keys| - 1];
      DeleteCallsSpec(pid, init, edges, deleteSucceeds);
      LastIdForSpec(edges, k);
      assert keys == init + [k];
    }
  }

  /** The store a product's lookup reads: the one its own set (if any) leaves. */
  function LookupStore(pid: string, w: VendorPlan, today: Day, shop: Shop, st: Store): Store {
    Replay(st, SetCalls(Payload(pid, w, today), shop), shop)
  }

  /**
    One product's calls: a successful or failed `metafieldsSet` of exactly its
    payload when that is non-empty; a lookup of exactly the keys to check when
    there are some, answering the first page of the product's metafields as
    the set left them; and, after a successful lookup, a delete for each
    checked key found there with a non-empty id, and for nothing else.
  */
  lemma ProductCallsSpec(pid: string, w: VendorPlan, today: Day, shop: Shop, st: Store)
    ensures (exists c :: c in ProductCalls(pid, w, today, shop, st) && c.SetCall?) <==> Payload(pid, w, today) != []
    ensures forall c :: c in ProductCalls(pid, w, today, shop, st) && c.SetCall? ==> c.payload == Payload(pid, w, today)
    ensures (exists c :: c in ProductCalls(pid, w, today, shop, st) && c.FetchCall?) <==> KeysToCheck(w, today) != []
    ensures forall c :: c in ProductCalls(pid, w, today, shop, st) && c.FetchCall? ==>
      && c.productId == pid && c.keys == KeysToCheck(w, today)
      && c.answer == (if shop.fetchSucceeds(pid) then Ok(Page(EdgesOf(LookupStore(pid, w, today, shop, st), pid))) else Failed)
    ensures forall c :: c in ProductCalls(pid, w, today, shop, st) && c.DeleteCall? ==>
      && c.productId == pid && c.key in KeysToCheck(w, today) && c.metafieldId != "" && shop.fetchSucceeds(pid)
      && Some(MetafieldNode(Some(c.metafieldId), Some(c.key))) in Page(EdgesOf(LookupStore(pid, w, today, shop, st), pid))
    ensures shop.fetchSucceeds(pid) ==> forall k :: k in KeysToCheck(w, today) ==>
      var mid := LastIdFor(Page(EdgesOf(LookupStore(pid, w, today, shop, st), pid)), k);
      mid.Some? && mid.value != "" ==> DeleteCall(pid, k, mid.value, shop.deleteSucceeds(mid.value)) in ProductCalls(pid, w, today, shop, st)
  {
    var payload := Payload(pid, w, today);
    var keys := KeysToCheck(w, today);
    var sets := SetCalls(payload, shop);
    var checks := CheckCalls(pid, keys, shop, LookupStore(pid, w, today, shop, st));
    SetCallsSpec(payload, shop);
    CheckCallsSpec(pid, keys, shop, LookupStore(pid, w, today, shop, st));
    assert ProductCalls(pid, w, today, shop, st) == sets + checks;
    assert forall c :: c in ProductCalls(pid, w, today, shop, st) <==> c in sets || c in checks;
  }

  /** The write call is there exactly when the payload is not empty, and carries the payload. */
  lemma SetCallsSpec(payload: seq<DateMetafield>, shop: Shop)
    ensures (exists c :: c in SetCalls(payload, shop) && c.SetCall?) <==> payload != []
    ensures forall c :: c in SetCalls(payload, shop) ==> c.SetCall? && c.payload == payload
  {
    if payload != [] {
      assert SetCalls(payload, shop)[0] == SetCall(payload, shop.setSucceeds(payload));
    }
  }

  /** The lookup is there exactly when keys are to be checked; each delete removes an id the lookup answered. */
  lemma CheckCallsSpec(pid: string, keys: seq<string>, shop: Shop, st: Store)
    ensures forall c :: c in CheckCalls(pid, keys, shop, st) ==> !c.SetCall?
    ensures (exists c :: c in CheckCalls(pid, keys, shop, st) && c.FetchCall?) <==> keys != []
    ensures forall c :: c in CheckCalls(pid, keys, shop, st) && c.FetchCall? ==>
      && c.productId == pid && c.keys == keys
      && c.answer == (if shop.fetchSucceeds(pid) then Ok(Page(EdgesOf(st, pid))) else Failed)
    ensures forall c :: c in CheckCalls(pid, keys, shop, st) && c.DeleteCall? ==>
      && c.productId == pid && c.key in keys && c.metafieldId != "" && shop.fetchSucceeds(pid)
      && Some(MetafieldNode(Some(c.metafieldId), Some(c.key))) in Page(EdgesOf(st, pid))
    ensures shop.fetchSucceeds(pid) ==> forall k :: k in keys ==>
      var mid := LastIdFor(Page(EdgesOf(st, pid)), k);
      mid.Some? && mid.value != "" ==> DeleteCall(pid, k, mid.value, shop.deleteSucceeds(mid.value)) in CheckCalls(pid, keys, shop, st)
  {
    var page := Page(EdgesOf(st, pid));
    var checks := CheckCalls(pid, keys, shop, st);
    DeleteCallsSpec(pid, keys, page, shop.deleteSucceeds);
    if keys != [] {
      assert checks[0].FetchCall?;
    }
  }

  // ---- The run as a whole: lookups read the store the earlier calls left ----

  /** Every successful lookup answered the first page of its product's metafields as the calls before it left the store. */
  ghost predicate ReadsStore(calls: seq<Call>, st: Store, shop: Shop) {
    forall j :: 0 <= j < |calls| ==> ReadsAt(calls, j, st, shop)
  }

  /** The call at `j`, if it is a successful lookup, answered the page the calls before it left. */
  ghost predicate ReadsAt(calls: seq<Call>, j: nat, st: Store, shop: Shop)
    requires j < |calls|
  {
    calls[j].FetchCall? && calls[j].answer.Ok? ==>
      calls[j].answer.value == Page(EdgesOf(Replay(st, calls[..j], shop), calls[j].productId))
  }

  /** Every delete follows a successful lookup of its product that found the deleted id under its key. */
  ghost predicate DeletesFound(calls: seq<Call>) {
    forall i :: 0 <= i < |calls| && calls[i].DeleteCall? ==>
      exists j :: 0 <= j < i && LookupFound(calls[j], calls[i])
  }

  /** Lookup `f` is a successful one of the product of delete `d` that found `d`'s id under `d`'s key. */
  ghost predicate LookupFound(f: Call, d: Call)
    requires d.DeleteCall?
  {
    && f.FetchCall? && f.productId == d.productId && f.answer.Ok? && d.key in f.keys
    && Some(MetafieldNode(Some(d.metafieldId), Some(d.key))) in f.answer.value
  }

  lemma ReadsStoreAppend(a: seq<Call>, b: seq<Call>, st: Store, shop: Shop)
    requires ReadsStore(a, st, shop) && ReadsStore(b, Replay(st, a, shop), shop)
    ensures ReadsStore(a + b, st, shop)
  {
    forall j | 0 <= j < |a + b|
      ensures ReadsAt(a + b, j, st, shop)
    {
      ReadsStoreAppendAt(a, b, st, shop, j);
    }
  }

  /** One index of a joined trace: it falls in the first half or in the second. */
  lemma ReadsStoreAppendAt(a: seq<Call>, b: seq<Call>, st: Store, shop: Shop, j: nat)
    requires ReadsStore(a, st, shop) && ReadsStore(b, Replay(st, a, shop), shop)
    requires j < |a + b|
    ensures ReadsAt(a + b, j, st, shop)
  {
    if j < |a| {
      ReadsStoreBefore(a, b, st, shop, j);
    } else {
      ReadsStoreAfter(a, b, st, shop, j);
    }
  }

  /** A lookup in the first half of a trace is unaffected by what follows it. */
  lemma ReadsStoreBefore(a: seq<Call>, b: seq<Call>, st: Store, shop: Shop, j: nat)
    requires j < |a| && ReadsStore(a, st, shop)
    ensures ReadsAt(a + b, j, st, shop)
  {
    assert ReadsAt(a, j, st, shop);
    assert (a + b)[..j] == a[..j];
    assert (a + b)[j] == a[j];
  }

  /** A lookup in the second half of a trace, seen from the store the whole trace started in. */
  lemma ReadsStoreAfter(a: seq<Call>, b: seq<Call>, st: Store, shop: Shop, j: nat)
    requires |a| <= j < |a + b| && ReadsStore(b, Replay(st, a, shop), shop)
    ensures ReadsAt(a + b, j, st, shop)
  {
    var k := j - |a|;
    assert ReadsAt(b, k, Replay(st, a, shop), shop);
    assert (a + b)[..j] == a + b[..k];
    assert (a + b)[j] == b[k];
    ReplayAppend(st, a, b[..k], shop);
  }

  lemma DeletesFoundAppend(a: seq<Call>, b: seq<Call>)
    requires DeletesFound(a) && DeletesFound(b)
    ensures DeletesFound(a + b)
  {
    var ab := a + b;
    forall i | 0 <= i < |ab| && ab[i].DeleteCall?
      ensures exists j :: 0 <= j < i && LookupFound(ab[j], ab[i])
    {
      if i < |a| {
        var j :| 0 <= j < i && LookupFound(a[j], a[i]);
        assert ab[j] == a[j];
      } else {
        assert ab[i] == b[i - |a|];
        var j :| 0 <= j < i - |a| && LookupFound(b[j], b[i - |a|]);
        assert ab[j + |a|] == b[j];
      }
    }
  }

  lemma TraceAppend(a: seq<Call>, b: seq<Call>, st: Store, shop: Shop)
    requires ReadsStore(a, st, shop) && ReadsStore(b, Replay(st, a, shop), shop)
    requires DeletesFound(a) && DeletesFound(b)
    ensures ReadsStore(a + b, st, shop) && DeletesFound(a + b)
  {
    ReadsStoreAppend(a, b, st, shop);
    DeletesFoundAppend(a, b);
  }

  /** One product's calls read the store they run on, and delete only what their lookup found. */
  lemma ProductCallsTrace(pid: string, w: VendorPlan, today: Day, shop: Shop, st: Store)
    ensures ReadsStore(ProductCalls(pid, w, today, shop, st), st, shop)
    ensures DeletesFound(ProductCalls(pid, w, today, shop, st))
  {
    var sets := SetCalls(Payload(pid, w, today), shop);
    SetCallsTrace(Payload(pid, w, today), st, shop);
    CheckCallsTrace(pid, KeysToCheck(w, today), shop, Replay(st, sets, shop));
    TraceAppend(sets, CheckCalls(pid, KeysToCheck(w, today), shop, Replay(st, sets, shop)), st, shop);
  }

  /** The write of a payload holds no lookup and no delete. */
  lemma SetCallsTrace(payload: seq<DateMetafield>, st: Store, shop: Shop)
    ensures ReadsStore(SetCalls(payload, shop), st, shop)
    ensures DeletesFound(SetCalls(payload, shop))
  {
    var sets := SetCalls(payload, shop);
    forall j | 0 <= j < |sets| ensures ReadsAt(sets, j, st, shop) {
      assert sets[j].SetCall?;
    }
  }

  /** A product's lookup reads the store as it is; every delete after it removes an id that lookup found. */
  lemma CheckCallsTrace(pid: string, keys: seq<string>, shop: Shop, st: Store)
    ensures ReadsStore(CheckCalls(pid, keys, shop, st), st, shop)
    ensures DeletesFound(CheckCalls(pid, keys, shop, st))
  {
    var checks := CheckCalls(pid, keys, shop, st);
    if keys != [] && shop.fetchSucceeds(pid) {
      var page := Page(EdgesOf(st, pid));
      var deletes := DeleteCalls(pid, keys, page, shop.deleteSucceeds);
      DeleteCallsSpec(pid, keys, page, shop.deleteSucceeds);
      assert checks == [FetchCall(pid, keys, Ok(page))] + deletes;
      assert checks[..0] == [];
      assert forall k :: 1 <= k < |checks| ==> checks[k].DeleteCall? && checks[k] in deletes;
      forall j | 0 <= j < |checks| ensures ReadsAt(checks, j, st, shop) {
        if j == 0 {
          assert Replay(st, checks[..0], shop) == st;
        }
      }
      forall i | 0 <= i < |checks| && checks[i].DeleteCall?
        ensures exists j :: 0 <= j < i && LookupFound(checks[j], checks[i])
      {
        assert LookupFound(checks[0], checks[i]);
      }
    } else if keys != [] {
      assert checks == [FetchCall(pid, keys, Failed)];
    }
  }

  /** The calls for a vendor's products, product after product, each on the store the ones before it left. */
  function ProductsCalls(pids: seq<string>, w: VendorPlan, today: Day, shop: Shop, st: Store): seq<Call> {
    if pids == [] then []
    else
      var before := ProductsCalls(pids[..|pids| - 1], w, today, shop, st);
      before + ProductCalls(pids[|pids| - 1], w, today, shop, Replay(st, before, shop))
  }

  /** The calls of the live pass, vendor after vendor, from the store as it was before the run. */
  function LiveCalls(plans: seq<VendorPlan>, today: Day, shop: Shop): seq<Call> {
    if plans == [] then []
    else
      var w := plans[|plans| - 1];
      var before := LiveCalls(plans[..|plans| - 1], today, shop);
      before + ProductsCalls(LiveProductIds(w, shop), w, today, shop, Replay(shop.metafields, before, shop))
  }

  /** The live branch of the vendor loop for one vendor: collect its products and process each. */
  method ProcessVendor(w: VendorPlan, today: Day, shop: Shop, store: Store) returns (calls: seq<Call>, updated: nat, deleted: nat, after: Store)
    ensures calls == ProductsCalls(LiveProductIds(w, shop), w, today, shop, store) && after == Replay(store, calls, shop)
    ensures updated == SetsDone(calls) && deleted == DeletesDone(calls)
  {
    var productIds: seq<string>;
    if |w.collectionIds| > 0 {
      productIds := CollectProductIds(w.collectionIds, shop.productsInCollection);
    } else {
      productIds := FilterByVendor([], shop.vendorSearch(w.vendor), w.vendor);
      assert [] + VendorMatches(shop.vendorSearch(w.vendor), Normalize(w.vendor)) == VendorMatches(shop.vendorSearch(w.vendor), Normalize(w.vendor));
    }
    calls, updated, deleted, after := ProcessProducts(productIds, w, today, shop, store);
  }

  /** The per-product loop of the live branch. */
  method ProcessProducts(productIds: seq<string>, w: VendorPlan, today: Day, shop: Shop, store: Store)
    returns (calls: seq<Call>, updated: nat, deleted: nat, after: Store)
    ensures calls == ProductsCalls(productIds, w, today, shop, store) && after == Replay(store, calls, shop)
    ensures updated == SetsDone(calls) && deleted == DeletesDone(calls)
  {
    calls := [];
    updated := 0;
    deleted := 0;
    after := store;
    for i := 0 to |productIds|
      invariant calls == ProductsCalls(productIds[..i], w, today, shop, store) && after == Replay(store, calls, shop)
      invariant updated == SetsDone(calls) && deleted == DeletesDone(calls)
    {
      ProductsCallsStep(productIds, i, w, today, shop, store);
      var more, u, d;
      more, u, d, after := ProcessProduct(productIds[i], w, today, shop, after);
      DoneAppend(calls, more);
      ReplayAppend(store, calls, more, shop);
      calls := calls + more;
      updated := updated + u;
      deleted := deleted + d;
    }
    assert productIds[..|productIds|] == productIds;
  }

  lemma ProductsCallsStep(pids: seq<string>, i: nat, w: VendorPlan, today: Day, shop: Shop, st: Store)
    requires i < |pids|
    ensures var before := ProductsCalls(pids[..i], w, today, shop, st);
      ProductsCalls(pids[..i + 1], w, today, shop, st) == before + ProductCalls(pids[i], w, today, shop, Replay(st, before, shop))
  {
    assert pids[..i + 1][..i] == pids[..i];
  }

  /**
    The live branch of `main`: every vendor's products get their payload and
    their deletes, each on the store the calls before left; `updated_products`
    and `deleted_metafields` count the calls that went through, and `after` is
    the store the run leaves.
  */
  method LiveRun(plans: seq<VendorPlan>, today: Day, shop: Shop) returns (calls: seq<Call>, updated: nat, deleted: nat, after: Store)
    ensures calls == LiveCalls(plans, today, shop) && after == Replay(shop.metafields, calls, shop)
    ensures updated == SetsDone(calls) && deleted == DeletesDone(calls)
  {
    calls := [];
    updated := 0;
    deleted := 0;
    after := shop.metafields;
    for i := 0 to |plans|
      invariant calls == LiveCalls(plans[..i], today, shop) && after == Replay(shop.metafields, calls, shop)
      invariant updated == SetsDone(calls) && deleted == DeletesDone(calls)
    {
      assert plans[..i + 1][..i] == plans[..i];
      var more, u, d;
      more, u, d, after := ProcessVendor(plans[i], today, shop, after);
      DoneAppend(calls, more);
      ReplayAppend(shop.metafields, calls, more, shop);
      calls := calls + more;
      updated := updated + u;
      deleted := deleted + d;
    }
    assert plans[..|plans|] == plans;
  }

  lemma {:induction false} ProductsCallsTrace(pids: seq<string>, w: VendorPlan, today: Day, shop: Shop, st: Store)
    ensures ReadsStore(ProductsCalls(pids, w, today, shop, st), st, shop)
    ensures DeletesFound(ProductsCalls(pids, w, today, shop, st))
  {
    if pids != [] {
      var before := ProductsCalls(pids[..|pids| - 1], w, today, shop, st);
      ProductsCallsTrace(pids[..|pids| - 1], w, today, shop, st);
      ProductCallsTrace(pids[|pids| - 1], w, today, shop, Replay(st, before, shop));
      TraceAppend(before, ProductCalls(pids[|pids| - 1], w, today, shop, Replay(st, before, shop)), st, shop);
    }
  }

  /**
    Across the whole run, every lookup answers the store as all earlier calls
    left it, whichever vendor made them, and every delete follows a lookup of
    its product that found that id under that key.
  */
  lemma {:induction false} LiveCallsTrace(plans: seq<VendorPlan>, today: Day, shop: Shop)
    ensures ReadsStore(LiveCalls(plans, today, shop), shop.metafields, shop)
    ensures DeletesFound(LiveCalls(plans, today, shop))
  {
    if plans != [] {
      var w := plans[|plans| - 1];
      var before := LiveCalls(plans[..|plans| - 1], today, shop);
      LiveCallsTrace(plans[..|plans| - 1], today, shop);
      ProductsCallsTrace(LiveProductIds(w, shop), w, today, shop, Replay(shop.metafields, before, shop));
      TraceAppend(before, ProductsCalls(LiveProductIds(w, shop), w, today, shop, Replay(shop.metafields, before, shop)), shop.metafields, shop);
    }
  }

  lemma {:induction false} ProductsCallsFrom(pids: seq<string>, w: VendorPlan, today: Day, shop: Shop, st: Store, c: Call)
    requires c in ProductsCalls(pids, w, today, shop, st)
    ensures exists pid, s :: pid in pids && c in ProductCalls(pid, w, today, shop, s)
  {
    var init := pids[..|pids| - 1];
    var before := ProductsCalls(init, w, today, shop, st);
    if c in before {
      ProductsCallsFrom(init, w, today, shop, st, c);
      var pid, s :| pid in init && c in ProductCalls(pid, w, today, shop, s);
      assert pid in pids;
    } else {
      assert c in ProductCalls(pids[|pids| - 1], w, today, shop, Replay(st, before, shop));
    }
  }

  /**
    Every call of the live pass is one that `ProductCalls` (and so
    `ProductCallsSpec`) describes, for some vendor, one of the products of its
    live scope and the store at that point.
  */
  lemma {:induction false} LiveCallsFrom(plans: seq<VendorPlan>, today: Day, shop: Shop, c: Call)
    requires c in LiveCalls(plans, today, shop)
    ensures exists w, pid, s :: w in plans && pid in LiveProductIds(w, shop) && c in ProductCalls(pid, w, today, shop, s)
  {
    var init := plans[..|plans| - 1];
    var w := plans[|plans| - 1];
    var before := LiveCalls(init, today, shop);
    if c in before {
      LiveCallsFrom(init, today, shop, c);
      var u, pid, s :| u in init && pid in LiveProductIds(u, shop) && c in ProductCalls(pid, u, today, shop, s);
      assert u in plans;
    } else {
      ProductsCallsFrom(LiveProductIds(w, shop), w, today, shop, Replay(shop.metafields, before, shop), c);
    }
  }

  /**
    The live pass never writes a display date and never deletes anything it did
    not find: each set carries the non-empty payload of one of its vendors'
    products, and each delete is of a non-empty id under a key that vendor
    should not show, which an earlier lookup of the product found on the store
    as all calls before that lookup left it.
  */
  lemma LiveRunSafe(plans: seq<VendorPlan>, today: Day, shop: Shop, i: nat)
    requires i < |LiveCalls(plans, today, shop)|
    ensures var c := LiveCalls(plans, today, shop)[i];
      c.SetCall? ==> exists w, pid :: w in plans && pid in LiveProductIds(w, shop) && c.payload == Payload(pid, w, today) && c.payload != []
    ensures var calls := LiveCalls(plans, today, shop); var c := calls[i];
      c.DeleteCall? ==>
        && c.metafieldId != "" && (exists w :: w in plans && c.key in KeysToCheck(w, today))
        && (exists j :: 0 <= j < i && calls[j].FetchCall? && calls[j].productId == c.productId && c.key in calls[j].keys
             && Some(MetafieldNode(Some(c.metafieldId), Some(c.key))) in Page(EdgesOf(Replay(shop.metafields, calls[..j], shop), c.productId)))
  {
    var calls := LiveCalls(plans, today, shop);
    var c := calls[i];
    LiveCallsFrom(plans, today, shop, c);
    var w, pid, s :| w in plans && pid in LiveProductIds(w, shop) && c in ProductCalls(pid, w, today, shop, s);
    ProductCallsSpec(pid, w, today, shop, s);
    if c.DeleteCall? {
      LiveCallsTrace(plans, today, shop);
      var j :| 0 <= j < i && LookupFound(calls[j], c);
      assert ReadsAt(calls, j, shop.metafields, shop);
    }
  }

  // ---- Two vendors sharing a product ----

  lemma LiveCallsOne(a: VendorPlan, today: Day, shop: Shop)
    ensures LiveCalls([a], today, shop) == ProductsCalls(LiveProductIds(a, shop), a, today, shop, shop.metafields)
  {
    assert [a][..0] == [];
    assert LiveCalls([], today, shop) == [];
    assert Replay(shop.metafields, [], shop) == shop.metafields;
  }

  lemma LiveCallsSnoc(plans: seq<VendorPlan>, w: VendorPlan, today: Day, shop: Shop)
    ensures var before := LiveCalls(plans, today, shop);
      LiveCalls(plans + [w], today, shop) == before + ProductsCalls(LiveProductIds(w, shop), w, today, shop, Replay(shop.metafields, before, shop))
  {
    assert (plans + [w])[..|plans|] == plans;
  }

  lemma LiveCallsPair(a: VendorPlan, b: VendorPlan, today: Day, shop: Shop)
    ensures var first := ProductsCalls(LiveProductIds(a, shop), a, today, shop, shop.metafields);
      LiveCalls([a, b], today, shop) == first + ProductsCalls(LiveProductIds(b, shop), b, today, shop, Replay(shop.metafields, first, shop))
  {
    assert [a, b] == [a] + [b];
    LiveCallsSnoc([a], b, today, shop);
    LiveCallsOne(a, today, shop);
  }

  lemma ProductsCallsOne(p: string, w: VendorPlan, today: Day, shop: Shop, st: Store)
    ensures ProductsCalls([p], w, today, shop, st) == ProductCalls(p, w, today, shop, st)
  {
    assert [p][..0] == [];
  }

  /** The metafield nodes Shopify creates for the two sale keys of product `p`. */
  function SaleNodes(p: string, shop: Shop): seq<Option<MetafieldNode>> {
    [Some(MetafieldNode(Some(shop.newMetafieldId(p, SaleStartKey)), Some(SaleStartKey))),
     Some(MetafieldNode(Some(shop.newMetafieldId(p, SaleEndKey)), Some(SaleEndKey)))]
  }

  lemma KeysDiffer()
    ensures SaleStartKey != SaleEndKey
  {
    assert SaleStartKey[11] != SaleEndKey[11];
  }

  /** The first vendor's pass over the shared product: it writes the two sale dates and looks nothing up. */
  lemma WriterPass(p: string, a: VendorPlan, today: Day, shop: Shop)
    requires SaleShould(a, today) && a.saleRealStart.Some? && a.saleRealEnd.Some?
    requires PiShould(a, today) && a.piRealStart.None?
    requires p !in shop.metafields && shop.setSucceeds(Payload(p, a, today))
    ensures ProductCalls(p, a, today, shop, shop.metafields) == [SetCall(Payload(p, a, today), true)]
    ensures EdgesOf(Replay(shop.metafields, ProductCalls(p, a, today, shop, shop.metafields), shop), p) == SaleNodes(p, shop)
  {
    var payload := Payload(p, a, today);
    var m0 := BuildDateMetafield(p, Namespace, SaleStartKey, a.saleRealStart.value);
    var m1 := BuildDateMetafield(p, Namespace, SaleEndKey, a.saleRealEnd.value);
    assert payload == [m0, m1];
    assert KeysToCheck(a, today) == [];
    assert ProductCalls(p, a, today, shop, shop.metafields) == [SetCall(payload, true)];
    ReplayOne(shop.metafields, SetCall(payload, true), shop);
    KeysDiffer();
    assert [m0, m1][..1] == [m0];
    assert [m0][..0] == [];
    var n0 := Some(MetafieldNode(Some(shop.newMetafieldId(p, SaleStartKey)), Some(SaleStartKey)));
    var st1 := WriteAll(shop.metafields, [m0], shop.newMetafieldId);
    assert WriteAll(shop.metafields, [], shop.newMetafieldId) == shop.metafields;
    assert !HasKey([], SaleStartKey);
    assert EdgesOf(st1, p) == [n0];
    assert !HasKey([n0], SaleEndKey);
  }

  /** The deletes for the two sale keys when the lookup answers the two sale nodes. */
  lemma SaleDeletes(p: string, shop: Shop)
    requires shop.newMetafieldId(p, SaleStartKey) != "" && shop.newMetafieldId(p, SaleEndKey) != ""
    ensures DeleteCalls(p, [SaleStartKey, SaleEndKey], SaleNodes(p, shop), shop.deleteSucceeds) ==
      [DeleteCall(p, SaleStartKey, shop.newMetafieldId(p, SaleStartKey), shop.deleteSucceeds(shop.newMetafieldId(p, SaleStartKey))),
       DeleteCall(p, SaleEndKey, shop.newMetafieldId(p, SaleEndKey), shop.deleteSucceeds(shop.newMetafieldId(p, SaleEndKey)))]
  {
    var id0 := shop.newMetafieldId(p, SaleStartKey);
    var id1 := shop.newMetafieldId(p, SaleEndKey);
    var nodes := SaleNodes(p, shop);
    var keys := [SaleStartKey, SaleEndKey];
    KeysDiffer();
    assert nodes[..1] == [nodes[0]];
    assert LastIdFor(nodes, SaleEndKey) == Some(id1);
    assert LastIdFor(nodes, SaleStartKey) == LastIdFor([nodes[0]], SaleStartKey) == Some(id0);
    assert keys[..1] == [SaleStartKey];
    assert [SaleStartKey][..0] == [];
    var ds := shop.deleteSucceeds;
    assert DeleteCalls(p, [SaleStartKey], nodes, ds) == [DeleteCall(p, SaleStartKey, id0, ds(id0))];
  }

  /** Deleting both sale ids, one after the other, leaves the product with no metafields. */
  lemma SaleDeletesEmpty(p: string, shop: Shop, st: Store, f: Call, d0: Call, d1: Call)
    requires EdgesOf(st, p) == SaleNodes(p, shop) && f.FetchCall?
    requires shop.newMetafieldId(p, SaleStartKey) != shop.newMetafieldId(p, SaleEndKey)
    requires d0 == DeleteCall(p, SaleStartKey, shop.newMetafieldId(p, SaleStartKey), true)
    requires d1 == DeleteCall(p, SaleEndKey, shop.newMetafieldId(p, SaleEndKey), true)
    ensures EdgesOf(Replay(st, [f, d0, d1], shop), p) == []
  {
    var nodes := SaleNodes(p, shop);
    ReplayThree(st, f, d0, d1, shop);
    SaleNodesRemoved(p, shop);
    var st1 := st[p := RemoveId(nodes, d0.metafieldId)];
    assert Apply(st, f, shop) == st;
    assert Apply(st, d0, shop) == st1;
    assert EdgesOf(st1, p) == [nodes[1]];
  }

  /** Three calls replayed are the three applied in order. */
  lemma ReplayThree(st: Store, c0: Call, c1: Call, c2: Call, shop: Shop)
    ensures Replay(st, [c0, c1, c2], shop) == Apply(Apply(Apply(st, c0, shop), c1, shop), c2, shop)
  {
    assert [c0, c1, c2] == [c0] + [c1] + [c2];
    ReplayAppend(st, [c0] + [c1], [c2], shop);
    ReplayAppend(st, [c0], [c1], shop);
    ReplayOne(st, c0, shop);
    ReplayOne(Apply(st, c0, shop), c1, shop);
    ReplayOne(Apply(Apply(st, c0, shop), c1, shop), c2, shop);
  }

  /** Removing the start id, then the end id, empties the two sale nodes. */
  lemma SaleNodesRemoved(p: string, shop: Shop)
    requires shop.newMetafieldId(p, SaleStartKey) != shop.newMetafieldId(p, SaleEndKey)
    ensures var nodes := SaleNodes(p, shop);
      && RemoveId(nodes, shop.newMetafieldId(p, SaleStartKey)) == [nodes[1]]
      && RemoveId([nodes[1]], shop.newMetafieldId(p, SaleEndKey)) == []
  {
    var nodes := SaleNodes(p, shop);
    assert nodes[..1] == [nodes[0]];
    assert nodes[..1][..0] == [];
    assert RemoveId([nodes[0]], shop.newMetafieldId(p, SaleStartKey)) == [];
    assert [nodes[1]][..0] == [];
  }

  /** The second vendor's pass: it finds the two sale metafields, deletes both, and leaves the product without them. */
  lemma CleanerPass(p: string, b: VendorPlan, today: Day, shop: Shop, st: Store)
    requires !SaleShould(b, today) && PiShould(b, today) && b.piRealStart.None?
    requires EdgesOf(st, p) == SaleNodes(p, shop)
    requires shop.fetchSucceeds(p)
    requires shop.newMetafieldId(p, SaleStartKey) != "" && shop.newMetafieldId(p, SaleEndKey) != ""
    requires shop.newMetafieldId(p, SaleStartKey) != shop.newMetafieldId(p, SaleEndKey)
    requires shop.deleteSucceeds(shop.newMetafieldId(p, SaleStartKey)) && shop.deleteSucceeds(shop.newMetafieldId(p, SaleEndKey))
    ensures ProductCalls(p, b, today, shop, st) ==
      [FetchCall(p, [SaleStartKey, SaleEndKey], Ok(SaleNodes(p, shop))),
       DeleteCall(p, SaleStartKey, shop.newMetafieldId(p, SaleStartKey), true),
       DeleteCall(p, SaleEndKey, shop.newMetafieldId(p, SaleEndKey), true)]
    ensures EdgesOf(Replay(st, ProductCalls(p, b, today, shop, st), shop), p) == []
  {
    var nodes := SaleNodes(p, shop);
    var keys := [SaleStartKey, SaleEndKey];
    var d0 := DeleteCall(p, SaleStartKey, shop.newMetafieldId(p, SaleStartKey), true);
    var d1 := DeleteCall(p, SaleEndKey, shop.newMetafieldId(p, SaleEndKey), true);
    var f := FetchCall(p, keys, Ok(nodes));
    assert Payload(p, b, today) == [];
    assert KeysToCheck(b, today) == keys;
    assert Replay(st, [], shop) == st;
    assert Page(nodes) == nodes;
    SaleDeletes(p, shop);
    assert CheckCalls(p, keys, shop, st) == [f] + [d0, d1];
    assert ProductCalls(p, b, today, shop, st) == [] + [f, d0, d1];
    SaleDeletesEmpty(p, shop, st, f, d0, d1);
  }

  /**
    Two vendors of a run can share a product, and their passes then interact
    through the store: a vendor whose sale shows writes the sale dates on it,
    and a later vendor whose sale does not show finds those metafields and
    deletes them, so the product ends the run without sale dates although the
    run wrote them, and both the write and the two deletes are counted.
  */
  lemma SharedProductWriteThenDelete(p: string, a: VendorPlan, b: VendorPlan, today: Day, shop: Shop)
    requires LiveProductIds(a, shop) == [p] && LiveProductIds(b, shop) == [p]
    requires SaleShould(a, today) && a.saleRealStart.Some? && a.saleRealEnd.Some?
    requires PiShould(a, today) && a.piRealStart.None?
    requires !SaleShould(b, today) && PiShould(b, today) && b.piRealStart.None?
    requires p !in shop.metafields && shop.setSucceeds(Payload(p, a, today)) && shop.fetchSucceeds(p)
    requires shop.newMetafieldId(p, SaleStartKey) != "" && shop.newMetafieldId(p, SaleEndKey) != ""
    requires shop.newMetafieldId(p, SaleStartKey) != shop.newMetafieldId(p, SaleEndKey)
    requires shop.deleteSucceeds(shop.newMetafieldId(p, SaleStartKey)) && shop.deleteSucceeds(shop.newMetafieldId(p, SaleEndKey))
    ensures var calls := LiveCalls([a, b], today, shop);
      && SetsDone(calls) == 1 && DeletesDone(calls) == 2
      && EdgesOf(Replay(shop.metafields, calls, shop), p) == []
  {
    var first := ProductsCalls([p], a, today, shop, shop.metafields);
    LiveCallsPair(a, b, today, shop);
    ProductsCallsOne(p, a, today, shop, shop.metafields);
    WriterPass(p, a, today, shop);
    var st := Replay(shop.metafields, first, shop);
    ProductsCallsOne(p, b, today, shop, st);
    CleanerPass(p, b, today, shop, st);
    var second := ProductCalls(p, b, today, shop, st);
    ReplayAppend(shop.metafields, first, second, shop);
    PassCounts(first, second);
  }

  /** A pass that checks the sale keys of a product without metafields looks them up, finds nothing and deletes nothing. */
  lemma EmptyCleanerPass(p: string, b: VendorPlan, today: Day, shop: Shop, st: Store)
    requires !SaleShould(b, today) && PiShould(b, today) && b.piRealStart.None?
    requires EdgesOf(st, p) == [] && shop.fetchSucceeds(p)
    ensures ProductCalls(p, b, today, shop, st) == [FetchCall(p, [SaleStartKey, SaleEndKey], Ok([]))]
    ensures Replay(st, ProductCalls(p, b, today, shop, st), shop) == st
  {
    var keys := [SaleStartKey, SaleEndKey];
    assert Payload(p, b, today) == [];
    assert KeysToCheck(b, today) == keys;
    assert Replay(st, [], shop) == st;
    assert Page([]) == [];
    assert keys[..1] == [SaleStartKey];
    assert [SaleStartKey][..0] == [];
    assert DeleteCalls(p, [SaleStartKey], [], shop.deleteSucceeds) == [];
    assert DeleteCalls(p, keys, [], shop.deleteSucceeds) == [];
    var fetch := FetchCall(p, keys, Ok([]));
    assert SetCalls(Payload(p, b, today), shop) == [];
    assert CheckCalls(p, keys, shop, st) == [fetch] + [];
    assert ProductCalls(p, b, today, shop, st) == [] + [fetch];
    ReplayOne(st, fetch, shop);
  }

  /**
    Two vendors that both check the sale keys of a shared product do not both
    delete its sale metafields: the first deletes them, the second's lookup
    finds nothing, and the run counts two deletes, not four.
  */
  lemma SharedProductDeletedOnce(p: string, a: VendorPlan, b: VendorPlan, today: Day, shop: Shop)
    requires LiveProductIds(a, shop) == [p] && LiveProductIds(b, shop) == [p]
    requires !SaleShould(a, today) && PiShould(a, today) && a.piRealStart.None?
    requires !SaleShould(b, today) && PiShould(b, today) && b.piRealStart.None?
    requires EdgesOf(shop.metafields, p) == SaleNodes(p, shop) && shop.fetchSucceeds(p)
    requires shop.newMetafieldId(p, SaleStartKey) != "" && shop.newMetafieldId(p, SaleEndKey) != ""
    requires shop.newMetafieldId(p, SaleStartKey) != shop.newMetafieldId(p, SaleEndKey)
    requires shop.deleteSucceeds(shop.newMetafieldId(p, SaleStartKey)) && shop.deleteSucceeds(shop.newMetafieldId(p, SaleEndKey))
    ensures var calls := LiveCalls([a, b], today, shop);
      && SetsDone(calls) == 0 && DeletesDone(calls) == 2
      && EdgesOf(Replay(shop.metafields, calls, shop), p) == []
  {
    var first := ProductsCalls([p], a, today, shop, shop.metafields);
    LiveCallsPair(a, b, today, shop);
    ProductsCallsOne(p, a, today, shop, shop.metafields);
    CleanerPass(p, a, today, shop, shop.metafields);
    var st := Replay(shop.metafields, first, shop);
    ProductsCallsOne(p, b, today, shop, st);
    EmptyCleanerPass(p, b, today, shop, st);
    var second := ProductCalls(p, b, today, shop, st);
    ReplayAppend(shop.metafields, first, second, shop);
    DeleteOnceCounts(first, second);
  }

  lemma DeleteOnceCounts(first: seq<Call>, second: seq<Call>)
    requires |first| == 3 && first[0].FetchCall? && first[1].DeleteCall? && first[1].ok && first[2].DeleteCall? && first[2].ok
    requires |second| == 1 && second[0].FetchCall?
    ensures SetsDone(first + second) == 0 && DeletesDone(first + second) == 2
  {
    DoneAppend(first, second);
    assert second[..0] == [];
    assert SetsDone(second) == 0 && DeletesDone(second) == 0;
    assert first[..2][..1] == first[..1];
    assert first[..1][..0] == [];
    assert SetsDone(first[..1]) == 0 && DeletesDone(first[..1]) == 0;
    assert SetsDone(first[..2]) == 0 && DeletesDone(first[..2]) == 1;
    assert first[..3] == first;
    assert SetsDone(first) == 0 && DeletesDone(first) == 2;
  }

  lemma PassCounts(first: seq<Call>, second: seq<Call>)
    requires |first| == 1 && first[0].SetCall? && first[0].ok
    requires |second| == 3 && second[0].FetchCall? && second[1].DeleteCall? && second[1].ok && second[2].DeleteCall? && second[2].ok
    ensures SetsDone(first + second) == 1 && DeletesDone(first + second) == 2
  {
    DoneAppend(first, second);
    assert first[..0] == [];
    assert SetsDone(first) == 1 && DeletesDone(first) == 0;
    assert second[..2][..1] == second[..1];
    assert second[..1][..0] == [];
    assert SetsDone(second[..1]) == 0 && DeletesDone(second[..1]) == 0;
    assert SetsDone(second[..2]) == 0 && DeletesDone(second[..2]) == 1;
    assert second[..3] == second;
    assert SetsDone(second) == 0 && DeletesDone(second) == 2;
  }

  // ---- main ----

  /** How a run of `main` ends. */
  datatype Outcome =
    | NothingActive
    | PlansOnly(plans: seq<VendorPlan>)
    | DryRunDone(plans: seq<VendorPlan>, results: seq<DryRunRecord>)
    | LiveDone(plans: seq<VendorPlan>, calls: seq<Call>, updated: nat, deleted: nat, store: Store)

  /**
    `main` after the rows are read: stop when there are none, aggregate, stop
    after the plans when `DB_ONLY` is set, and otherwise run the dry-run
    estimate or the live pass.
  */
  method RunMain(rows: seq<PromoRow>, today: Day, x: int, y: int, z: int, dryRun: bool, dbOnly: bool, shop: Shop)
    returns (outcome: Outcome)
    ensures rows == [] <==> outcome.NothingActive?
    ensures rows != [] ==>
      && |outcome.plans| == |Vendors(rows)|
      && forall k :: 0 <= k < |outcome.plans| ==> outcome.plans[k] == PlanOf(rows, Vendors(rows)[k], x, y, z)
    ensures rows != [] && dbOnly ==> outcome.PlansOnly?
    ensures rows != [] && !dbOnly && dryRun ==> outcome.DryRunDone? && outcome.results == DryRunRecords(outcome.plans, today, shop)
    ensures rows != [] && !dbOnly && !dryRun ==>
      && outcome.LiveDone? && outcome.calls == LiveCalls(outcome.plans, today, shop)
      && outcome.updated == SetsDone(outcome.calls) && outcome.deleted == DeletesDone(outcome.calls)
      && outcome.store == Replay(shop.metafields, outcome.calls, shop)
  {
    if rows == [] {
      return NothingActive;
    }
    var plans := AggregateByVendor(rows, x, y, z);
    if dbOnly {
      return PlansOnly(plans);
    }
    if dryRun {
      var results := DryRun(plans, today, shop);
      return DryRunDone(plans, results);
    }
    var calls, updated, deleted, after := LiveRun(plans, today, shop);
    return LiveDone(plans, calls, updated, deleted, after);
  }
}
