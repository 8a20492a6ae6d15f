/**
  `shopify_vendor_counts.py`: count every product's vendor, merging spellings
  that `normalize` to the same key under the first spelling seen, then look up
  a collection titled like each vendor and record what was found.
*/
module ShopifyVendorCounts {
  import opened Wrappers
  import opened Text
  import opened Sequences
  import opened ShopifyApi
  import opened VendorTally

  // ---- fetch_vendor_counts ----

  /** The dict `fetch_vendor_counts` returns, as its items: first spelling of each normalized vendor, and its count. */
  function VendorCountsOf(nodes: seq<Option<string>>): seq<(string, nat)> {
    TallyItems(NonBlankVendors(nodes), Normalize)
  }

  /** The paging loop of `fetch_vendor_counts` over the product nodes of all pages. */
  method FetchVendorCounts(nodes: seq<Option<string>>) returns (out: seq<(string, nat)>)
    ensures out == VendorCountsOf(nodes)
  {
    var counts: map<string, nat> := map[];
    var displayName: map<string, string> := map[];
    var order: seq<string> := [];  // the key order of `counts`
    ghost var vs: seq<string> := [];  // the stripped non-blank vendors so far
    for i := 0 to |nodes|
      invariant vs == NonBlankVendors(nodes[..i])
      invariant order == KeysOf(vs, Normalize)
      invariant forall k :: k in counts <==> k in order
      invariant forall k :: k in displayName <==> k in order
      invariant forall k :: k in counts ==> counts[k] == CountBy(vs, Normalize, k)
      invariant forall k :: k in displayName ==> displayName[k] == FirstBy(vs, Normalize, k)
    {
      NonBlankTake(nodes, i, VendorOf);
      var v := VendorOf(nodes[i]);
      if v == "" {
        continue;
      }
      counts, displayName, order := CountVendor(counts, displayName, order, vs, v);
      vs := vs + [v];
    }
    assert nodes[..|nodes|] == nodes;
    ItemsOfTally(NonBlankVendors(nodes), Normalize, displayName, counts);
    out := ItemsOf(order, displayName, counts);
  }

  /** The body of the counting loop for one non-blank vendor `v`, after the vendors `vs`. */
  method CountVendor(counts: map<string, nat>, displayName: map<string, string>, order: seq<string>, ghost vs: seq<string>, v: string)
    returns (counts': map<string, nat>, displayName': map<string, string>, order': seq<string>)
    requires order == KeysOf(vs, Normalize)
    requires forall k :: k in counts <==> k in order
    requires forall k :: k in displayName <==> k in order
    requires forall k :: k in counts ==> counts[k] == CountBy(vs, Normalize, k)
    requires forall k :: k in displayName ==> displayName[k] == FirstBy(vs, Normalize, k)
    ensures order' == KeysOf(vs + [v], Normalize)
    ensures forall k :: k in counts' <==> k in order'
    ensures forall k :: k in displayName' <==> k in order'
    ensures forall k :: k in counts' ==> counts'[k] == CountBy(vs + [v], Normalize, k)
    ensures forall k :: k in displayName' ==> displayName'[k] == FirstBy(vs + [v], Normalize, k)
  {
    TallySnoc(vs, v, Normalize);
    var key := Normalize(v);
    if key !in counts {
      CountByZero(vs, Normalize, key);
    }
    counts' := counts[key := (if key in counts then counts[key] else 0) + 1];
    displayName', order' := displayName, order;
    if key !in displayName {
      displayName' := displayName[key := v];
      order' := order + [key];
    }
  }

  // ---- check_collection_for_vendor ----

  /** `(has_collection, collection_name, collection_product_count)`. */
  datatype Check = Check(hasCollection: bool, collectionName: Option<string>, collectionCount: Option<nat>)

  /**
    `check_collection_for_vendor`: the title search decides; the count of a
    found collection is 0 when the count request fails, and a failing search
    raises (here `Failed`).
  */
  function CheckCollectionForVendor(vendor: string, search: string -> Result<seq<CollectionNode>>, countIn: string -> nat): Result<Check> {
    match FindCollectionByTitleExact(vendor, search)
    case Failed => Failed
    case Ok(None) => Ok(Check(false, None, None))
    case Ok(Some(col)) => Ok(Check(true, col.title, Some(countIn(col.id))))
  }

  /**
    A collection is reported exactly when the search finds one titled like the
    vendor, with its title and count; otherwise there is neither name nor count.
  */
  lemma CheckCollectionSpec(vendor: string, search: string -> Result<seq<CollectionNode>>, countIn: string -> nat)
    ensures var c := CheckCollectionForVendor(vendor, search, countIn);
      var found := FindCollectionByTitleExact(vendor, search);
      && (c.Ok? <==> found.Ok?)
      && (c.Ok? ==> (c.value.hasCollection <==> found.value.Some?))
      && (c.Ok? && c.value.hasCollection ==>
            && c.value.collectionName == found.value.value.title
            && Normalize(c.value.collectionName.GetOr("")) == Normalize(vendor)
            && c.value.collectionCount == Some(countIn(found.value.value.id)))
      && (c.Ok? && !c.value.hasCollection ==> c.value.collectionName == None && c.value.collectionCount == None)
  {
    FindCollectionSpec(vendor, search);
  }

  // ---- main ----

  /** A value of a result record: text, a count, or `None`. */
  datatype Cell = Text(text: string) | Number(number: nat) | Null

  /** One record of `results`, as both vendor scripts write it. */
  datatype VendorRecord = VendorRecord(
    vendor: string,
    vendorProductCount: nat,
    hasCollection: bool,
    collectionName: Cell,
    collectionProductCount: Cell)

  const FalseText: Cell := Text("false")

  /** The record for one vendor: without a collection, both collection fields hold the text "false". */
  function RecordOf(vendor: string, count: nat, c: Check): VendorRecord {
    VendorRecord(
      vendor, count, c.hasCollection,
      if !c.hasCollection then FalseText else if c.collectionName.Some? then Text(c.collectionName.value) else Null,
      if !c.hasCollection then FalseText else if c.collectionCount.Some? then Number(c.collectionCount.value) else Null)
  }

  /** The records for the counted vendors in order, `check` looking up each one's collection; the first failing search ends the run. */
  function Results(entries: seq<(string, nat)>, check: string -> Result<Check>): Result<seq<VendorRecord>> {
    if entries == [] then Ok([])
    else
      var last := entries[|entries| - 1];
      match Results(entries[..|entries| - 1], check)
      case Failed => Failed
      case Ok(rs) =>
        match check(last.0)
        case Failed => Failed
        case Ok(c) => Ok(rs + [RecordOf(last.0, last.1, c)])
  }

  /** The vendor loop of `main`. */
  method CheckAll(entries: seq<(string, nat)>, check: string -> Result<Check>)
    returns (res: Result<seq<VendorRecord>>)
    ensures res == Results(entries, check)
  {
    var results: seq<VendorRecord> := [];
    for i := 0 to |entries|
      invariant Results(entries[..i], check) == Ok(results)
    {
      assert entries[..i + 1][..i] == entries[..i];
      var c := check(entries[i].0);
      if c.Failed? {
        FailedStays(entries, i + 1, check);
        assert entries[..|entries|] == entries;
        return Failed;
      }
      results := results + [RecordOf(entries[i].0, entries[i].1, c.value)];
    }
    assert entries[..|entries|] == entries;
    res := Ok(results);
  }

  /** Once a search has failed, the run has failed whatever comes after. */
  lemma {:induction false} FailedStays(entries: seq<(string, nat)>, m: nat, check: string -> Result<Check>)
    requires m <= |entries| && Results(entries[..m], check).Failed?
    ensures Results(entries, check).Failed?
    decreases |entries| - m
  {
    if m < |entries| {
      assert entries[..m + 1][..m] == entries[..m];
      FailedStays(entries, m + 1, check);
    } else {
      assert entries[..m] == entries;
    }
  }

  /**
    A run succeeds exactly when every search does, and then has one record per
    counted vendor, in order, carrying its count, with "false" in both
    collection fields when no collection was found.
  */
  lemma {:induction false} ResultsSpec(entries: seq<(string, nat)>, check: string -> Result<Check>)
    ensures Results(entries, check).Ok? <==> forall i :: 0 <= i < |entries| ==> check(entries[i].0).Ok?
    ensures Results(entries, check).Ok? ==>
      var rs := Results(entries, check).value;
      && |rs| == |entries|
      && forall i :: 0 <= i < |entries| ==>
           && rs[i].vendor == entries[i].0 && rs[i].vendorProductCount == entries[i].1
           && rs[i].hasCollection == check(entries[i].0).value.hasCollection
           && (!rs[i].hasCollection ==> rs[i].collectionName == FalseText && rs[i].collectionProductCount == FalseText)
  {
    if entries != [] {
      var init := entries[..|entries| - 1];
      ResultsSpec(init, check);
      forall i | 0 <= i < |init| ensures init[i] == entries[i] { }
    }
  }

  /** `main` without the output files: count, then check each counted vendor. */
  method VendorCountsMain(nodes: seq<Option<string>>, search: string -> Result<seq<CollectionNode>>, countIn: string -> nat)
    returns (res: Result<seq<VendorRecord>>)
    ensures res == Results(VendorCountsOf(nodes), v => CheckCollectionForVendor(v, search, countIn))
  {
    var counts := FetchVendorCounts(nodes);
    res := CheckAll(counts, v => CheckCollectionForVendor(v, search, countIn));
  }
}
