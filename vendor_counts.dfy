/**
  The vendor count scripts (`Vendor_Hub_to_Shopify_counts.py` and
  `all_vendors_to_shopify_counts.py`, which share this logic): read the vendor
  names, probing for a vendor column when the expected one is missing, then for
  each non-blank vendor take its product count, and use its collection's count
  when it has products and a collection titled like it.
*/
module VendorCounts {
  import opened Wrappers
  import opened Text
  import opened ShopifyApi

  /** The column names the probe accepts, compared lower-cased. */
  const ColumnCandidates: seq<string> := ["vendor", "vendorname", "name", "vendor_name"]

  /** `candidates[0]` of the probe: the first column whose lower-cased name is a candidate. */
  function PickColumn(cols: seq<string>): Option<string> {
    if cols == [] then None
    else if Lower(cols[0]) in ColumnCandidates then Some(cols[0])
    else PickColumn(cols[1..])
  }

  /** The probe picks a candidate column, the first one, and finds none only when no column is a candidate. */
  lemma {:induction false} PickColumnSpec(cols: seq<string>)
    ensures PickColumn(cols).None? <==> forall c :: c in cols ==> Lower(c) !in ColumnCandidates
    ensures PickColumn(cols).Some? ==> exists i ::
      && 0 <= i < |cols| && cols[i] == PickColumn(cols).value && Lower(cols[i]) in ColumnCandidates
      && forall j :: 0 <= j < i ==> Lower(cols[j]) !in ColumnCandidates
  {
    if cols != [] && Lower(cols[0]) !in ColumnCandidates {
      PickColumnSpec(cols[1..]);
      if PickColumn(cols[1..]).Some? {
        var i :| && 0 <= i < |cols[1..]| && cols[1..][i] == PickColumn(cols).value && Lower(cols[1..][i]) in ColumnCandidates
                 && forall j :: 0 <= j < i ==> Lower(cols[1..][j]) !in ColumnCandidates;
        assert cols[i + 1] == cols[1..][i];
        assert forall j :: 0 < j < i + 1 ==> cols[j] == cols[1..][j - 1];
      }
      assert cols == [cols[0]] + cols[1..];
    }
  }

  /** `[r["Vendor"] for r in rows if r.get("Vendor")]`: the present, non-empty values. */
  function Truthy(values: seq<Option<string>>): seq<string> {
    if values == [] then []
    else (if values[0].Some? && values[0].value != "" then [values[0].value] else []) + Truthy(values[1..])
  }

  lemma {:induction false} TruthySpec(values: seq<Option<string>>)
    ensures forall v :: v in Truthy(values) <==> v != "" && Some(v) in values
  {
    if values != [] {
      TruthySpec(values[1..]);
      assert values == [values[0]] + values[1..];
    }
  }

  /**
    `fetch_vendor_hub_vendors` / `fetch_all_vendors`: the `Vendor` column when
    the first query works; otherwise the first row of a probe names the
    columns, and the first candidate column is read instead. A failing probe or
    fallback query fails the whole fetch.
  */
  function FetchVendors(
    primary: Result<seq<Option<string>>>,
    probe: Result<seq<seq<string>>>,
    byColumn: string -> Result<seq<Option<string>>>): Result<seq<string>>
  {
    match primary
    case Ok(values) => Ok(Truthy(values))
    case Failed =>
      match probe
      case Failed => Failed
      case Ok(rows) =>
        if rows == [] then Ok([])
        else match PickColumn(rows[0])
          case None => Ok([])
          case Some(col) =>
            match byColumn(col)
            case Failed => Failed
            case Ok(values) => Ok(Truthy(values))
  }

  /**
    The fetched names are the non-empty values of the column that was read: the
    `Vendor` column, or else the first candidate column of the probe. An empty
    probe, or one without a candidate column, gives no vendors.
  */
  lemma FetchVendorsSpec(
    primary: Result<seq<Option<string>>>,
    probe: Result<seq<seq<string>>>,
    byColumn: string -> Result<seq<Option<string>>>)
    ensures primary.Ok? ==> FetchVendors(primary, probe, byColumn) == Ok(Truthy(primary.value))
    ensures primary.Failed? && probe.Ok? && (probe.value == [] || forall c :: c in probe.value[0] ==> Lower(c) !in ColumnCandidates) ==>
      FetchVendors(primary, probe, byColumn) == Ok([])
    ensures primary.Failed? && probe.Ok? && probe.value != [] && PickColumn(probe.value[0]).Some? ==>
      var col := PickColumn(probe.value[0]).value;
      && col in probe.value[0] && Lower(col) in ColumnCandidates
      && FetchVendors(primary, probe, byColumn) == (if byColumn(col).Ok? then Ok(Truthy(byColumn(col).value)) else Failed)
    ensures FetchVendors(primary, probe, byColumn).Ok? ==> forall v :: v in FetchVendors(primary, probe, byColumn).value ==> v != ""
  {
    if primary.Ok? {
      TruthySpec(primary.value);
    } else if probe.Ok? && probe.value != [] {
      PickColumnSpec(probe.value[0]);
      var col := PickColumn(probe.value[0]);
      if col.Some? && byColumn(col.value).Ok? {
        TruthySpec(byColumn(col.value).value);
      }
    }
  }

  // ---- The per-vendor decision ----

  /** What the count loop asks Shopify: product counts by vendor and by collection, and the collection title search. */
  datatype CountShop = CountShop(
    countByVendor: string -> nat,
    countInCollection: string -> nat,
    search: string -> Result<seq<CollectionNode>>)

  /** One entry of `results`. */
  datatype CountRecord = CountRecord(
    vendor: string,
    collectionMatched: bool,
    productsFound: nat,
    willWrite: nat,
    willDelete: nat)

  /** The record for one (stripped) vendor. A failing title search counts as no collection. */
  function Decide(vendor: string, shop: CountShop): CountRecord {
    var vendorCount := shop.countByVendor(vendor);
    if vendorCount == 0 then CountRecord(vendor, false, 0, 0, 0)
    else match FindCollectionByTitleExact(vendor, shop.search)
      case Ok(Some(col)) =>
        var n := shop.countInCollection(col.id);
        CountRecord(vendor, true, n, n, 0)
      case _ => CountRecord(vendor, false, vendorCount, vendorCount, 0)
  }

  /**
    A vendor with no products gets 0 and no collection, and no search is made.
    Otherwise a collection whose title matches the vendor up to case and spacing
    gives the collection's count, and its absence the vendor's count. Every
    record promises as many writes as products found, and no deletes.
  */
  lemma DecideSpec(vendor: string, shop: CountShop)
    ensures var r := Decide(vendor, shop);
      var found := FindCollectionByTitleExact(vendor, shop.search);
      && r.vendor == vendor && r.willWrite == r.productsFound && r.willDelete == 0
      && (shop.countByVendor(vendor) == 0 ==> !r.collectionMatched && r.productsFound == 0)
      && (r.collectionMatched <==> (shop.countByVendor(vendor) != 0 && found.Ok? && found.value.Some?))
      && (r.collectionMatched ==>
            && r.productsFound == shop.countInCollection(found.value.value.id)
            && Normalize(found.value.value.title.GetOr("")) == Normalize(vendor))
      && (!r.collectionMatched ==> r.productsFound == shop.countByVendor(vendor))
  {
    FindCollectionSpec(vendor, shop.search);
  }

  /** `results` of the count loop: one record per non-blank vendor, in input order. */
  function Records(vendors: seq<string>, shop: CountShop): seq<CountRecord> {
    if vendors == [] then []
    else
      var v := Strip(vendors[|vendors| - 1]);
      Records(vendors[..|vendors| - 1], shop) + (if v == [] then [] else [Decide(v, shop)])
  }

  /** The vendor loop of `main`. */
  method CountAll(vendors: seq<string>, shop: CountShop) returns (results: seq<CountRecord>)
    ensures results == Records(vendors, shop)
  {
    results := [];
    for i := 0 to |vendors|
      invariant results == Records(vendors[..i], shop)
    {
      assert vendors[..i + 1][..i] == vendors[..i];
      var vendor := Strip(vendors[i]);
      if vendor == [] {
        assert results + [] == results;
        continue;
      }
      var record := DecideVendor(vendor, shop);
      results := results + [record];
    }
    assert vendors[..|vendors|] == vendors;
  }

  /**
    One vendor of the loop, as the loop body's statements assign `count` and
    `matched` step by step; `Decide` is the value-level specification it is
    proved against, which `Records` and the lemmas use.
  */
  method DecideVendor(vendor: string, shop: CountShop) returns (record: CountRecord)
    ensures record == Decide(vendor, shop)
  {
    var vendorCount := shop.countByVendor(vendor);
    var count: nat;
    var matched: bool;
    if vendorCount == 0 {
      count := 0;
      matched := false;
    } else {
      var col := FindCollectionByTitleExact(vendor, shop.search);
      if col.Ok? && col.value.Some? {
        count := shop.countInCollection(col.value.value.id);
        matched := true;
      } else {
        count := vendorCount;
        matched := false;
      }
    }
    record := CountRecord(vendor, matched, count, count, 0);
  }

  /**
    Blank vendors are skipped and every other one gets exactly its record: each
    record is the decision for the stripped name of some input, and each
    non-blank input has its record.
  */
  lemma {:induction false} RecordsSpec(vendors: seq<string>, shop: CountShop)
    ensures forall r :: r in Records(vendors, shop) ==>
      r.vendor != "" && r == Decide(r.vendor, shop) && exists v :: v in vendors && Strip(v) == r.vendor
    ensures forall v :: v in vendors && Strip(v) != "" ==> Decide(Strip(v), shop) in Records(vendors, shop)
  {
    if vendors != [] {
      var init := vendors[..|vendors| - 1];
      var last := vendors[|vendors| - 1];
      RecordsSpec(init, shop);
      assert vendors == init + [last];
      forall r | r in Records(vendors, shop)
        ensures r.vendor != "" && r == Decide(r.vendor, shop) && exists u :: u in vendors && Strip(u) == r.vendor
      {
        RecordOfSnoc(init, last, shop, r);
      }
    }
  }

  /** A record after one more vendor is an earlier record or the new vendor's. */
  lemma RecordOfSnoc(init: seq<string>, last: string, shop: CountShop, r: CountRecord)
    requires forall r :: r in Records(init, shop) ==>
      r.vendor != "" && r == Decide(r.vendor, shop) && exists v :: v in init && Strip(v) == r.vendor
    requires r in Records(init + [last], shop)
    ensures r.vendor != "" && r == Decide(r.vendor, shop) && exists u :: u in init + [last] && Strip(u) == r.vendor
  {
    assert (init + [last])[..|init|] == init;
    if r in Records(init, shop) {
      var u :| u in init && Strip(u) == r.vendor;
      assert u in init + [last];
    } else {
      DecideSpec(Strip(last), shop);
      assert r == Decide(Strip(last), shop);
      assert last in init + [last];
    }
  }
}
