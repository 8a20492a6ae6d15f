/**
  `get_all_vendors_with_collections.py`: count every product and, per exact
  stripped vendor, its products; then, vendor by vendor in sorted order, look
  up a collection titled like it and record what was found.
*/
module AllVendorsWithCollections {
  import opened Wrappers
  import opened Text
  import opened StableSort
  import opened StringOrder
  import opened Sequences
  import opened ShopifyApi
  import opened VendorTally
  import opened ShopifyVendorCounts

  /**
    The paging loop of `fetch_all_vendors_from_shopify` over the product nodes
    of all pages: `vendor_counts` (with `keys` its key order) and
    `total_products`.
  */
  method FetchAllVendors(nodes: seq<Option<string>>) returns (keys: seq<string>, counts: map<string, nat>, total: nat)
    ensures total == |nodes|
    ensures keys == KeysOf(NonBlankVendors(nodes), Same)
    ensures forall v :: v in counts <==> v in keys
    ensures forall v :: v in counts ==> counts[v] == CountBy(NonBlankVendors(nodes), Same, v)
  {
    keys, counts, total := [], map[], 0;
    ghost var vs: seq<string> := [];  // the stripped non-blank vendors so far
    for i := 0 to |nodes|
      invariant total == i
      invariant vs == NonBlankVendors(nodes[..i])
      invariant keys == KeysOf(vs, Same)
      invariant forall v :: v in counts <==> v in keys
      invariant forall v :: v in counts ==> counts[v] == CountBy(vs, Same, v)
    {
      NonBlankTake(nodes, i, VendorOf);
      total := total + 1;
      var v := VendorOf(nodes[i]);
      if v != "" {
        keys, counts := CountVendor(keys, counts, vs, v);
        vs := vs + [v];
      }
    }
    assert nodes[..|nodes|] == nodes;
  }

  /** The body of the counting loop for one non-blank vendor `v`, after the vendors `vs`. */
  method CountVendor(keys: seq<string>, counts: map<string, nat>, ghost vs: seq<string>, v: string)
    returns (keys': seq<string>, counts': map<string, nat>)
    requires keys == KeysOf(vs, Same)
    requires forall u :: u in counts <==> u in keys
    requires forall u :: u in counts ==> counts[u] == CountBy(vs, Same, u)
    ensures keys' == KeysOf(vs + [v], Same)
    ensures forall u :: u in counts' <==> u in keys'
    ensures forall u :: u in counts' ==> counts'[u] == CountBy(vs + [v], Same, u)
  {
    TallySnoc(vs, v, Same);
    keys' := keys;
    if v !in counts {
      CountByZero(vs, Same, v);
      keys' := keys + [v];
    }
    counts' := counts[v := (if v in counts then counts[v] else 0) + 1];
  }

  /** Every stripped non-blank vendor is a key, counted once per product carrying it; the counts add up to at most `total_products`. */
  lemma FetchAllVendorsSpec(nodes: seq<Option<string>>)
    ensures var vs := NonBlankVendors(nodes);
      var keys := KeysOf(vs, Same);
      && Distinct(keys)
      && (forall v :: v in keys <==> v != "" && HasVendor(nodes, v))
      && (forall v :: v in keys ==> CountBy(vs, Same, v) > 0)
      && SumOver(keys, vs, Same) <= |nodes|
  {
    var vs := NonBlankVendors(nodes);
    KeysOfSpec(vs, Same);
    KeysAreVendors(nodes);
    forall v | v in KeysOf(vs, Same) ensures CountBy(vs, Same, v) > 0 {
      var p :| 0 <= p < |vs| && vs[p] == v;
      CountByPositive(vs, Same, p);
    }
    TallySum(vs, Same);
    NonBlankLength(nodes, VendorOf);
  }

  lemma KeysAreVendors(nodes: seq<Option<string>>)
    ensures forall v :: v in KeysOf(NonBlankVendors(nodes), Same) <==> v != "" && HasVendor(nodes, v)
  {
    var vs := NonBlankVendors(nodes);
    KeysOfSpec(vs, Same);
    NonBlankSpec(nodes, VendorOf);
    forall v ensures v in KeysOf(vs, Same) <==> v in vs {
      if v in vs {
        assert Same(v) == v;
      }
    }
  }

  /** `vendors = sorted(vendor_counts.keys())` with each one's count, for the non-blank vendors `vs`. */
  function SortedEntries(vs: seq<string>): seq<(string, nat)> {
    var sorted := SortBy(KeysOf(vs, Same), Same, StrLe);
    seq(|sorted|, i requires 0 <= i < |sorted| => (sorted[i], CountBy(vs, Same, sorted[i])))
  }

  /** The vendors are visited in sorted order, each once, with its own tally. */
  lemma SortedEntriesSpec(vs: seq<string>)
    ensures var e := SortedEntries(vs);
      && (forall i, j :: 0 <= i < j < |e| ==> StrLe(e[i].0, e[j].0) && e[i].0 != e[j].0)
      && (forall i :: 0 <= i < |e| ==> e[i].1 == CountBy(vs, Same, e[i].0))
  {
    var keys := KeysOf(vs, Same);
    var sorted := SortBy(keys, Same, StrLe);
    KeysOfSpec(vs, Same);
    StrLeTotalOrder();
    SortBySorted(keys, Same, StrLe);
    SortByPerm(keys, Same, StrLe);
    DistinctPermutation(keys, sorted);
  }

  /** Every counted vendor, and nothing else, is visited. */
  lemma SortedEntriesCover(vs: seq<string>)
    ensures var e := SortedEntries(vs);
      forall v :: (exists i :: 0 <= i < |e| && e[i].0 == v) <==> v in vs
  {
    var keys := KeysOf(vs, Same);
    var sorted := SortBy(keys, Same, StrLe);
    var e := SortedEntries(vs);
    SortedMembers(keys);
    KeysOfSpec(vs, Same);
    forall v ensures (exists i :: 0 <= i < |e| && e[i].0 == v) <==> v in vs {
      assert v in vs ==> Same(v) == v;
      if v in keys {
        var i :| 0 <= i < |sorted| && sorted[i] == v;
        assert e[i].0 == v;
      }
      if exists i :: 0 <= i < |e| && e[i].0 == v {
        var i :| 0 <= i < |e| && e[i].0 == v;
        assert sorted[i] == v;
      }
    }
  }

  /** Sorting keeps the members. */
  lemma SortedMembers(keys: seq<string>)
    ensures forall v :: v in SortBy(keys, Same, StrLe) <==> v in keys
  {
    SortByPerm(keys, Same, StrLe);
    forall v ensures v in SortBy(keys, Same, StrLe) <==> v in keys {
      assert v in SortBy(keys, Same, StrLe) <==> v in multiset(SortBy(keys, Same, StrLe));
      assert v in keys <==> v in multiset(keys);
    }
  }

  /** Each sorted vendor with its count from `vendor_counts`. */
  function EntriesFrom(sorted: seq<string>, counts: map<string, nat>): seq<(string, nat)>
    requires forall v :: v in sorted ==> v in counts
  {
    seq(|sorted|, i requires 0 <= i < |sorted| => (sorted[i], counts[sorted[i]]))
  }

  /** Reading the counts of the sorted keys gives the sorted tally. */
  lemma EntriesFromTally(vs: seq<string>, keys: seq<string>, counts: map<string, nat>)
    requires keys == KeysOf(vs, Same)
    requires forall v :: v in counts <==> v in keys
    requires forall v :: v in counts ==> counts[v] == CountBy(vs, Same, v)
    ensures forall v :: v in SortBy(keys, Same, StrLe) ==> v in counts
    ensures EntriesFrom(SortBy(keys, Same, StrLe), counts) == SortedEntries(vs)
  {
    SortedMembers(keys);
  }

  /** `main` without the output files: count, then check each vendor in sorted order. */
  method AllVendorsMain(nodes: seq<Option<string>>, search: string -> Result<seq<CollectionNode>>, countIn: string -> nat)
    returns (total: nat, res: Result<seq<VendorRecord>>)
    ensures total == |nodes|
    ensures res == Results(SortedEntries(NonBlankVendors(nodes)), v => CheckCollectionForVendor(v, search, countIn))
  {
    var keys, counts;
    keys, counts, total := FetchAllVendors(nodes);
    var vendors := SortBy(keys, Same, StrLe);
    EntriesFromTally(NonBlankVendors(nodes), keys, counts);
    res := CheckAll(EntriesFrom(vendors, counts), v => CheckCollectionForVendor(v, search, countIn));
  }
}
