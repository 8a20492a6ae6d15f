/**
  The grouped views of the count records (`build_grouped_view` in
  `Vendor_Hub_to_Shopify_counts.py` and the group filters of
  `tools/generate_views.py`, which compute the same three groups) and their
  flattening back into one list (`tools/apply_views_to_sources.py`).
*/
module Views {
  import opened Wrappers
  import opened Text
  import opened StableSort
  import opened StringOrder

  /**
    A count record as the views read it: `vendor` may be missing or null,
    `collection_matched` is read for truthiness and `products_found` as an integer.
  */
  datatype Entry = Entry(vendor: Option<string>, collectionMatched: bool, productsFound: int)

  predicate InNoProducts(e: Entry) { e.productsFound == 0 }
  predicate InNoCollectionButProducts(e: Entry) { !e.collectionMatched && e.productsFound > 0 }
  predicate InCollectionMatched(e: Entry) { e.collectionMatched }

  /** A list comprehension with a condition. */
  function Filter(s: seq<Entry>, p: Entry -> bool): seq<Entry> {
    if s == [] then [] else (if p(s[0]) then [s[0]] else []) + Filter(s[1..], p)
  }

  /** A filter keeps exactly the elements satisfying the condition, each as often as it occurs. */
  lemma {:induction false} FilterCount(s: seq<Entry>, p: Entry -> bool, e: Entry)
    ensures multiset(Filter(s, p))[e] == if p(e) then multiset(s)[e] else 0
  {
    if s != [] {
      FilterCount(s[1..], p, e);
      assert s == [s[0]] + s[1..];
    }
  }

  /** The sort key `(x.get("vendor") or "").lower()`. */
  function SortKey(e: Entry): string {
    Lower(e.vendor.GetOr(""))
  }

  function SortGroup(s: seq<Entry>): seq<Entry> {
    SortBy(s, SortKey, StrLe)
  }

  /** The three groups, in the order they are written. */
  datatype View = View(noProducts: seq<Entry>, noCollectionButProducts: seq<Entry>, collectionMatched: seq<Entry>)

  /** `build_grouped_view(results)`: filter into the three groups, then sort each by lower-cased vendor. */
  function BuildGroupedView(data: seq<Entry>): View {
    View(
      SortGroup(Filter(data, InNoProducts)),
      SortGroup(Filter(data, InNoCollectionButProducts)),
      SortGroup(Filter(data, InCollectionMatched)))
  }

  /** A sorted group holds its filter's entries, each as often, ordered by key, and entries with equal keys in input order. */
  lemma SortGroupSpec(s: seq<Entry>)
    ensures multiset(SortGroup(s)) == multiset(s)
    ensures SortedBy(SortGroup(s), SortKey, StrLe)
    ensures forall k :: WithKey(SortGroup(s), SortKey, k) == WithKey(s, SortKey, k)
  {
    StrLeTotalOrder();
    SortByPerm(s, SortKey, StrLe);
    SortBySorted(s, SortKey, StrLe);
    forall k ensures WithKey(SortGroup(s), SortKey, k) == WithKey(s, SortKey, k) {
      SortByStable(s, SortKey, StrLe, k);
    }
  }

  /**
    `no_products` holds exactly the entries with no products,
    `no_collection_but_products` exactly the unmatched ones with products, and
    `collection_matched` exactly the matched ones; each group keeps every such
    entry as often as it occurs and is sorted by lower-cased vendor.
  */
  lemma BuildGroupedViewSpec(data: seq<Entry>, e: Entry)
    ensures var v := BuildGroupedView(data);
      && multiset(v.noProducts)[e] == (if InNoProducts(e) then multiset(data)[e] else 0)
      && multiset(v.noCollectionButProducts)[e] == (if InNoCollectionButProducts(e) then multiset(data)[e] else 0)
      && multiset(v.collectionMatched)[e] == (if InCollectionMatched(e) then multiset(data)[e] else 0)
      && SortedBy(v.noProducts, SortKey, StrLe)
      && SortedBy(v.noCollectionButProducts, SortKey, StrLe)
      && SortedBy(v.collectionMatched, SortKey, StrLe)
  {
    SortGroupSpec(Filter(data, InNoProducts));
    SortGroupSpec(Filter(data, InNoCollectionButProducts));
    SortGroupSpec(Filter(data, InCollectionMatched));
    FilterCount(data, InNoProducts, e);
    FilterCount(data, InNoCollectionButProducts, e);
    FilterCount(data, InCollectionMatched, e);
  }

  /** The groups are not a partition: a matched entry with no products is in two of them. */
  lemma GroupsOverlap(data: seq<Entry>, e: Entry)
    requires e in data && e.collectionMatched && e.productsFound == 0
    ensures e in BuildGroupedView(data).noProducts && e in BuildGroupedView(data).collectionMatched
    ensures e !in BuildGroupedView(data).noCollectionButProducts
  {
    BuildGroupedViewSpec(data, e);
  }

  /** Every entry with a non-negative count lands in at least one group. */
  lemma GroupsCover(data: seq<Entry>, e: Entry)
    requires e in data && e.productsFound >= 0
    ensures var v := BuildGroupedView(data);
      e in v.noProducts || e in v.noCollectionButProducts || e in v.collectionMatched
  {
    BuildGroupedViewSpec(data, e);
  }

  // ---- apply_views_to_sources: flattening a view back ----

  /** A view file as JSON: group name to list, where a group can be missing or null. */
  type ViewFile = map<string, Option<seq<Entry>>>

  const NoProductsKey: string := "no_products"
  const NoCollectionKey: string := "no_collection_but_products"
  const MatchedKey: string := "collection_matched"
  const GroupOrder: seq<string> := [NoProductsKey, NoCollectionKey, MatchedKey]

  lemma GroupKeysDistinct()
    ensures |NoProductsKey| == 11 && |NoCollectionKey| == 26 && |MatchedKey| == 18
    ensures NoProductsKey != NoCollectionKey && NoProductsKey != MatchedKey && NoCollectionKey != MatchedKey
  {
  }

  /** `view.get(key) or []`. */
  function Group(view: ViewFile, key: string): seq<Entry> {
    if key in view && view[key].Some? then view[key].value else []
  }

  /** The groups of `keys`, one after the other. */
  function Concat(view: ViewFile, keys: seq<string>): seq<Entry> {
    if keys == [] then [] else Concat(view, keys[..|keys| - 1]) + Group(view, keys[|keys| - 1])
  }

  /** The JSON object a view is written as. */
  function ToFile(v: View): ViewFile {
    map[NoProductsKey := Some(v.noProducts),
        NoCollectionKey := Some(v.noCollectionButProducts),
        MatchedKey := Some(v.collectionMatched)]
  }

  /** The loop that builds `concatenated` with `extend`. */
  method Flatten(view: ViewFile) returns (concatenated: seq<Entry>)
    ensures concatenated == Group(view, NoProductsKey) + Group(view, NoCollectionKey) + Group(view, MatchedKey)
  {
    concatenated := [];
    for i := 0 to |GroupOrder|
      invariant concatenated == Concat(view, GroupOrder[..i])
    {
      assert GroupOrder[..i + 1][..i] == GroupOrder[..i];
      var group := Group(view, GroupOrder[i]);
      concatenated := concatenated + group;
    }
    ConcatGroupOrder(view);
  }

  lemma ConcatGroupOrder(view: ViewFile)
    ensures Concat(view, GroupOrder[..|GroupOrder|]) == Group(view, NoProductsKey) + Group(view, NoCollectionKey) + Group(view, MatchedKey)
  {
    var g := GroupOrder;
    assert g[..3] == g;
    assert g[..3][..2] == g[..2] && g[..2][..1] == g[..1] && g[..1][..0] == [];
    assert Concat(view, g[..1]) == Group(view, g[0]);
    assert Concat(view, g[..2]) == Concat(view, g[..1]) + Group(view, g[1]);
    assert Concat(view, g[..3]) == Concat(view, g[..2]) + Group(view, g[2]);
  }

  /** Reading back a written view gives its groups. */
  lemma ToFileGroups(v: View)
    ensures Group(ToFile(v), NoProductsKey) == v.noProducts
    ensures Group(ToFile(v), NoCollectionKey) == v.noCollectionButProducts
    ensures Group(ToFile(v), MatchedKey) == v.collectionMatched
  {
    GroupKeysDistinct();
  }

  /** How many groups an entry belongs to. */
  function Memberships(e: Entry): nat {
    (if InNoProducts(e) then 1 else 0) + (if InNoCollectionButProducts(e) then 1 else 0) + (if InCollectionMatched(e) then 1 else 0)
  }

  /** The flattened list of a generated view. */
  function RoundTrip(data: seq<Entry>): seq<Entry> {
    var file := ToFile(BuildGroupedView(data));
    Group(file, NoProductsKey) + Group(file, NoCollectionKey) + Group(file, MatchedKey)
  }

  /**
    Flattening a generated view gives the entries with no products first, then
    the unmatched ones with products, then the matched ones: each segment is
    its group, holds only entries of the data that belong to that group, and is
    sorted by lower-cased vendor.
  */
  lemma FlattenedViewSegments(data: seq<Entry>)
    ensures var v := BuildGroupedView(data);
      var out := RoundTrip(data);
      var a := |v.noProducts|;
      var b := |v.noCollectionButProducts|;
      && |out| == a + b + |v.collectionMatched|
      && out[..a] == v.noProducts && out[a..a + b] == v.noCollectionButProducts && out[a + b..] == v.collectionMatched
      && (forall i :: 0 <= i < a ==> InNoProducts(out[i]) && out[i] in data)
      && (forall i :: a <= i < a + b ==> InNoCollectionButProducts(out[i]) && out[i] in data)
      && (forall i :: a + b <= i < |out| ==> InCollectionMatched(out[i]) && out[i] in data)
      && SortedBy(out[..a], SortKey, StrLe)
      && SortedBy(out[a..a + b], SortKey, StrLe)
      && SortedBy(out[a + b..], SortKey, StrLe)
  {
    var v := BuildGroupedView(data);
    ToFileGroups(v);
    var out := RoundTrip(data);
    var a := |v.noProducts|;
    var b := |v.noCollectionButProducts|;
    assert out == v.noProducts + v.noCollectionButProducts + v.collectionMatched;
    assert out[..a] == v.noProducts && out[a..a + b] == v.noCollectionButProducts && out[a + b..] == v.collectionMatched;
    SortedGroupMembers(data, InNoProducts);
    SortedGroupMembers(data, InNoCollectionButProducts);
    SortedGroupMembers(data, InCollectionMatched);
    assert forall i :: 0 <= i < a ==> out[i] == v.noProducts[i];
    assert forall i :: a <= i < a + b ==> out[i] == v.noCollectionButProducts[i - a];
    assert forall i :: a + b <= i < |out| ==> out[i] == v.collectionMatched[i - a - b];
  }

  /** A sorted group holds only entries of the data that meet its condition, and is sorted. */
  lemma SortedGroupMembers(data: seq<Entry>, p: Entry -> bool)
    ensures forall i :: 0 <= i < |SortGroup(Filter(data, p))| ==>
      p(SortGroup(Filter(data, p))[i]) && SortGroup(Filter(data, p))[i] in data
    ensures SortedBy(SortGroup(Filter(data, p)), SortKey, StrLe)
  {
    var g := SortGroup(Filter(data, p));
    SortGroupSpec(Filter(data, p));
    forall i | 0 <= i < |g| ensures p(g[i]) && g[i] in data {
      FilterCount(data, p, g[i]);
      assert multiset(g)[g[i]] > 0;
    }
  }

  /** Flattening a generated view repeats each entry once per group it is in. */
  lemma FlattenedViewCounts(data: seq<Entry>, e: Entry)
    ensures multiset(RoundTrip(data))[e] == multiset(data)[e] * Memberships(e)
  {
    var v := BuildGroupedView(data);
    BuildGroupedViewSpec(data, e);
    ToFileGroups(v);
    var m := multiset(data)[e];
    assert RoundTrip(data) == v.noProducts + v.noCollectionButProducts + v.collectionMatched;
    assert multiset(RoundTrip(data))[e] == multiset(v.noProducts)[e] + multiset(v.noCollectionButProducts)[e] + multiset(v.collectionMatched)[e];
    MembershipsTimes(e, m);
  }

  lemma MembershipsTimes(e: Entry, m: nat)
    ensures m * Memberships(e) ==
      (if InNoProducts(e) then m else 0) + (if InNoCollectionButProducts(e) then m else 0) + (if InCollectionMatched(e) then m else 0)
  {
  }

  /**
    Generating a view and flattening it back is a reordering of the records
    exactly when every record is in exactly one group: a record matched with no
    products comes back twice, and an unmatched one with a negative count is lost.
  */
  lemma FlattenedViewPermutation(data: seq<Entry>)
    ensures multiset(RoundTrip(data)) == multiset(data) <==> forall e :: e in data ==> Memberships(e) == 1
  {
    if forall e :: e in data ==> Memberships(e) == 1 {
      forall e ensures multiset(RoundTrip(data))[e] == multiset(data)[e] {
        FlattenedViewCounts(data, e);
        TimesOne(multiset(data)[e], Memberships(e));
      }
      assert multiset(RoundTrip(data)) == multiset(data);
    } else {
      var e :| e in data && Memberships(e) != 1;
      FlattenedViewCounts(data, e);
      TimesNotOne(multiset(data)[e], Memberships(e));
    }
  }

  lemma TimesOne(m: nat, k: nat)
    requires m == 0 || k == 1
    ensures m * k == m
  {
  }

  lemma TimesNotOne(m: nat, k: nat)
    requires m >= 1 && k != 1
    ensures m * k != m
  {
    if k == 0 {
    } else {
      assert m * k == m + m * (k - 1);
      assert m * (k - 1) >= m;
    }
  }
}
