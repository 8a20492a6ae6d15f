/**
  `export_shopify_collections.py`: one row per collection with its numeric id,
  enriched with its product count and the sorted list of its vendors, sorted
  by product count, and written as a table whose header is the row fields
  followed by the extra fields.
*/
module ExportCollections {
  import opened Wrappers
  import opened Text
  import opened Numerals
  import opened StableSort
  import opened StringOrder
  import opened Sequences
  import opened ShopifyApi
  import opened VendorTally

  // ---- parse_numeric_id ----

  /** `parse_numeric_id(gid)`: `None` for empty text, else `int()` of the part after the last "/" of a gid, or of the whole text. */
  function ParseNumericId(gid: string): Option<int> {
    if gid == "" then None else ParseInt(NumericIdOf(gid))
  }

  /** The numeric id survives a trip through text and through a collection gid. */
  lemma ParseNumericIdRoundTrip(n: nat)
    ensures ParseNumericId(DecimalString(n)) == Some(n)
    ensures ParseNumericId(ToCollectionGid(Some(DecimalString(n)))) == Some(n)
  {
    DecimalIsBareId(n);
    ParseIntOfDecimal(n);
    NumericIdOfGid(n);
  }

  /** A gid whose last segment is empty has no numeric id. */
  lemma ParseNumericIdOfBareGid(p: string)
    requires StartsWith(p, GidPrefix) && p[|p| - 1] == '/'
    ensures ParseNumericId(p) == None
  {
    assert AfterLast(p, '/') == [];
  }

  /** `str(parse_numeric_id(gid) or "")`: the id's text, or "" when there is none or it is 0. */
  function CollectionIdText(gid: string): string {
    match ParseNumericId(gid)
    case Some(n) => if n == 0 then "" else DecimalString(n)
    case None => ""
  }

  /** The `collection_id` column holds the parsed id, and is empty exactly when there is no non-zero id. */
  lemma CollectionIdTextSpec(gid: string)
    ensures CollectionIdText(gid) == "" <==> ParseNumericId(gid).None? || ParseNumericId(gid) == Some(0)
    ensures CollectionIdText(gid) != "" ==> ParseInt(CollectionIdText(gid)) == ParseNumericId(gid)
  {
    if ParseNumericId(gid).Some? {
      var n := ParseNumericId(gid).value;
      ParseIntOfDecimal(n);
      assert DecimalString(n) != "" by {
        if n < 0 { assert DecimalString(n)[0] == '-'; } else { assert |NatString(n)| > 0; }
      }
    }
  }

  // ---- list_collections ----

  /** A node of the collections query; a missing field reads as "". */
  datatype ExportNode = ExportNode(id: string, title: string, handle: string, updatedAt: string)

  /** A row of the export, as the dict built in `list_collections` and completed by `enrich_collections`. */
  datatype CollectionRow = CollectionRow(
    collectionGid: string,
    collectionId: string,
    title: string,
    handle: string,
    updatedAt: string,
    productCount: string,
    vendors: string)

  /** The row for one node, before enrichment. */
  function RowOf(n: ExportNode): CollectionRow {
    CollectionRow(n.id, CollectionIdText(n.id), n.title, n.handle, n.updatedAt, "", "")
  }

  /** The nodes of all pages, page after page. */
  function AllNodes(pages: seq<seq<ExportNode>>): seq<ExportNode> {
    if pages == [] then [] else AllNodes(pages[..|pages| - 1]) + pages[|pages| - 1]
  }

  /** `list_collections` over the pages the cursor loop fetches: one row per node, in order. */
  method ListCollections(pages: seq<seq<ExportNode>>) returns (rows: seq<CollectionRow>)
    ensures |rows| == |AllNodes(pages)|
    ensures forall i :: 0 <= i < |rows| ==> rows[i] == RowOf(AllNodes(pages)[i])
  {
    rows := [];
    for p := 0 to |pages|
      invariant rows == RowsOf(AllNodes(pages[..p]))
    {
      AllNodesTake(pages, p);
      RowsOfAppend(AllNodes(pages[..p]), pages[p]);
      rows := ListPage(rows, pages[p]);
    }
    assert pages[..|pages|] == pages;
  }

  /** One row per node, in order. */
  function RowsOf(nodes: seq<ExportNode>): (rows: seq<CollectionRow>)
    ensures |rows| == |nodes| && forall i :: 0 <= i < |nodes| ==> rows[i] == RowOf(nodes[i])
  {
    seq(|nodes|, i requires 0 <= i < |nodes| => RowOf(nodes[i]))
  }

  lemma RowsOfAppend(a: seq<ExportNode>, b: seq<ExportNode>)
    ensures RowsOf(a + b) == RowsOf(a) + RowsOf(b)
  {
  }

  /** The inner loop of `list_collections`: one row per node of a page, after the rows so far. */
  method ListPage(rows: seq<CollectionRow>, nodes: seq<ExportNode>) returns (rows': seq<CollectionRow>)
    ensures rows' == rows + RowsOf(nodes)
  {
    rows' := rows;
    for j := 0 to |nodes|
      invariant rows' == rows + RowsOf(nodes[..j])
    {
      assert RowsOf(nodes[..j + 1]) == RowsOf(nodes[..j]) + [RowOf(nodes[j])];
      rows' := rows' + [RowOf(nodes[j])];
    }
    assert nodes[..|nodes|] == nodes;
  }

  lemma AllNodesTake(pages: seq<seq<ExportNode>>, p: nat)
    requires p < |pages|
    ensures AllNodes(pages[..p + 1]) == AllNodes(pages[..p]) + pages[p]
  {
    assert pages[..p + 1][..p] == pages[..p];
  }

  // ---- get_vendors_in_collection ----

  /** `sorted(vendors)` of the vendor set. */
  function SortedVendors(nodes: seq<Option<string>>): seq<string> {
    SortBy(Dedupe(NonBlankVendors(nodes)), Same, StrLe)
  }

  /**
    The vendor loop: a set of the stripped non-blank vendors, then `sorted`. The
    set is kept as the list of its members in the order they were added.
  */
  method GetVendorsInCollection(nodes: seq<Option<string>>) returns (vendors: seq<string>)
    ensures vendors == SortedVendors(nodes)
  {
    var seen: set<string> := {};
    var members: seq<string> := [];
    for i := 0 to |nodes|
      invariant members == Dedupe(NonBlankVendors(nodes[..i]))
      invariant forall x :: x in seen <==> x in members
    {
      assert nodes[..i + 1] == nodes[..i] + [nodes[i]];
      DedupeNonBlankStep(nodes[..i], nodes[i], VendorOf);
      var v := VendorOf(nodes[i]);
      if v != "" && v !in seen {
        seen := seen + {v};
        members := members + [v];
      }
    }
    assert nodes[..|nodes|] == nodes;
    vendors := SortBy(members, Same, StrLe);
  }

  /** The vendor list is sorted, has no repeats, and holds exactly the non-blank stripped vendors of the collection's products. */
  lemma SortedVendorsSpec(nodes: seq<Option<string>>)
    ensures SortedBy(SortedVendors(nodes), Same, StrLe)
    ensures Distinct(SortedVendors(nodes))
    ensures forall v :: v in SortedVendors(nodes) <==> v != "" && HasVendor(nodes, v)
  {
    var members := Dedupe(NonBlankVendors(nodes));
    DedupeSpec(NonBlankVendors(nodes));
    NonBlankSpec(nodes, VendorOf);
    StrLeTotalOrder();
    SortBySorted(members, Same, StrLe);
    SortByPerm(members, Same, StrLe);
    DistinctPermutation(members, SortedVendors(nodes));
    forall v ensures v in SortedVendors(nodes) <==> v in members {
      assert v in SortedVendors(nodes) <==> v in multiset(SortedVendors(nodes));
      assert v in members <==> v in multiset(members);
    }
  }

  // ---- enrich_collections ----

  /**
    What enrichment asks Shopify: a collection's product count (0 when the
    count request fails, as `rest_count_products_in_collection` swallows its
    errors) and the vendor fields of its products, or a failure.
  */
  datatype ExportShop = ExportShop(
    countIn: string -> nat,
    vendorNodes: string -> Result<seq<Option<string>>>)

  /** One row after enrichment: its count as text, and its vendors joined by ";" ("" when they could not be read). */
  function EnrichRow(r: CollectionRow, shop: ExportShop): CollectionRow {
    var vendors := match shop.vendorNodes(r.collectionGid)
      case Ok(nodes) => JoinWith(";", SortedVendors(nodes))
      case Failed => "";
    r.(productCount := DecimalString(shop.countIn(r.collectionGid)), vendors := vendors)
  }

  /**
    `enrich_collections(rows, client)`: fill in each row in place. An interrupt
    ends the loop before row `interruptAt` (`main` catches it and keeps the
    rows as they are); `interruptAt >= rows.Length` is a run to the end.
  */
  method EnrichCollections(rows: array<CollectionRow>, shop: ExportShop, interruptAt: nat)
    modifies rows
    ensures forall i :: 0 <= i < rows.Length && i < interruptAt ==> rows[i] == EnrichRow(old(rows[i]), shop)
    ensures forall i :: interruptAt <= i < rows.Length ==> rows[i] == old(rows[i])
  {
    var stop := if interruptAt < rows.Length then interruptAt else rows.Length;
    for idx := 0 to stop
      invariant forall i :: 0 <= i < idx ==> rows[i] == EnrichRow(old(rows[i]), shop)
      invariant forall i :: idx <= i < rows.Length ==> rows[i] == old(rows[i])
    {
      rows[idx] := EnrichOne(rows[idx], shop);
    }
  }

  /** The body of the enrichment loop for one row. */
  method EnrichOne(r: CollectionRow, shop: ExportShop) returns (e: CollectionRow)
    ensures e == EnrichRow(r, shop)
  {
    var cnt := shop.countIn(r.collectionGid);
    var vendorsStr: string;
    match shop.vendorNodes(r.collectionGid) {
      case Ok(nodes) =>
        var vendors := GetVendorsInCollection(nodes);
        vendorsStr := JoinWith(";", vendors);
      case Failed =>
        vendorsStr := "";
    }
    e := r.(productCount := DecimalString(cnt), vendors := vendorsStr);
  }

  /**
    Enrichment changes only the count and the vendors: the count text parses
    back to the collection's count ("0" when the count failed), and a vendor
    failure leaves the vendors empty.
  */
  lemma EnrichRowSpec(r: CollectionRow, shop: ExportShop)
    ensures var e := EnrichRow(r, shop);
      && e.collectionGid == r.collectionGid && e.collectionId == r.collectionId && e.title == r.title
      && e.handle == r.handle && e.updatedAt == r.updatedAt
      && ParseInt(e.productCount) == Some(shop.countIn(r.collectionGid) as int)
      && (shop.countIn(r.collectionGid) == 0 ==> e.productCount == "0")
      && (shop.vendorNodes(r.collectionGid).Failed? ==> e.vendors == "")
      && (shop.vendorNodes(r.collectionGid).Ok? ==> e.vendors == JoinWith(";", SortedVendors(shop.vendorNodes(r.collectionGid).value)))
  {
    ParseIntOfDecimal(shop.countIn(r.collectionGid));
  }

  // ---- The sort in main ----

  /** `int(r.get("product_count", "0") or "0")`; text that is not a number (which no row holds) reads as 0. */
  function CountKey(r: CollectionRow): int {
    ParseInt(if r.productCount == "" then "0" else r.productCount).GetOr(0)
  }

  function Ge(a: int, b: int): bool { a >= b }

  lemma GeTotalOrder()
    ensures TotalOrder(Ge)
  {
  }

  /** `rows.sort(key=..., reverse=True)`. */
  function SortRows(rows: seq<CollectionRow>): seq<CollectionRow> {
    SortBy(rows, CountKey, Ge)
  }

  /**
    The sorted rows are the same rows, by product count from most to fewest,
    and rows with the same count keep their order (Python's sort is stable,
    with `reverse=True` too).
  */
  lemma SortRowsSpec(rows: seq<CollectionRow>)
    ensures multiset(SortRows(rows)) == multiset(rows)
    ensures forall i, j :: 0 <= i < j < |SortRows(rows)| ==> CountKey(SortRows(rows)[i]) >= CountKey(SortRows(rows)[j])
    ensures forall k :: WithKey(SortRows(rows), CountKey, k) == WithKey(rows, CountKey, k)
  {
    GeTotalOrder();
    SortByPerm(rows, CountKey, Ge);
    SortBySorted(rows, CountKey, Ge);
    forall k ensures WithKey(SortRows(rows), CountKey, k) == WithKey(rows, CountKey, k) {
      SortByStable(rows, CountKey, Ge, k);
    }
  }

  /** A row sorts by the count enrichment gave it, and a row the interrupt left unenriched by 0. */
  lemma CountKeySpec(n: ExportNode, r: CollectionRow, shop: ExportShop)
    ensures CountKey(RowOf(n)) == 0
    ensures CountKey(EnrichRow(r, shop)) == shop.countIn(r.collectionGid)
  {
    ParseIntOfDecimal(0);
    assert DecimalString(0) == "0";
    EnrichRowSpec(r, shop);
  }

  // ---- write_xlsx / write_csv ----

  /** A Python dict as its items in insertion order. */
  type Dict = seq<(string, string)>

  function Keys(d: Dict): seq<string> {
    seq(|d|, i requires 0 <= i < |d| => d[i].0)
  }

  function Values(d: Dict): seq<string> {
    seq(|d|, i requires 0 <= i < |d| => d[i].1)
  }

  /** `d.get(k)`. */
  function Get(d: Dict, k: string): Option<string> {
    if d == [] then None else if d[0].0 == k then Some(d[0].1) else Get(d[1..], k)
  }

  /** `d[k] = v`: an existing key keeps its place, a new one goes last. */
  function Put(d: Dict, k: string, v: string): Dict {
    if d == [] then [(k, v)]
    else if d[0].0 == k then [(k, v)] + d[1..]
    else [d[0]] + Put(d[1..], k, v)
  }

  /** `d.update(e)`. */
  function Update(d: Dict, e: Dict): Dict
    decreases |e|
  {
    if e == [] then d else Update(Put(d, e[0].0, e[0].1), e[1..])
  }

  lemma {:induction false} GetPut(d: Dict, k: string, v: string, j: string)
    ensures Get(Put(d, k, v), j) == if j == k then Some(v) else Get(d, j)
  {
    if d != [] && d[0].0 != k {
      GetPut(d[1..], k, v, j);
    }
  }

  /** After `d.update(e)` a key reads from `e` when `e` has it, and from `d` otherwise. */
  lemma {:induction false} GetUpdate(d: Dict, e: Dict, k: string)
    requires Distinct(Keys(e))
    ensures Get(Update(d, e), k) == if k in Keys(e) then Get(e, k) else Get(d, k)
    decreases |e|
  {
    if e != [] {
      assert Distinct(Keys(e[1..])) by {
        forall i, j | 0 <= i < j < |Keys(e[1..])| ensures Keys(e[1..])[i] != Keys(e[1..])[j] {
          assert Keys(e[1..])[i] == Keys(e)[i + 1] && Keys(e[1..])[j] == Keys(e)[j + 1];
        }
      }
      GetUpdate(Put(d, e[0].0, e[0].1), e[1..], k);
      GetPut(d, e[0].0, e[0].1, k);
      assert k in Keys(e) <==> k == e[0].0 || k in Keys(e[1..]) by {
        assert Keys(e) == [e[0].0] + Keys(e[1..]);
      }
      if k == e[0].0 {
        assert k !in Keys(e[1..]) by {
          forall i | 0 <= i < |Keys(e[1..])| ensures Keys(e[1..])[i] != k {
            assert Keys(e[1..])[i] == Keys(e)[i + 1];
            assert Keys(e)[0] != Keys(e)[i + 1];
          }
        }
      }
    }
  }

  /** In a dict whose keys are distinct, each key reads its own value. */
  lemma {:induction false} GetAt(d: Dict, i: nat)
    requires Distinct(Keys(d)) && i < |d|
    ensures Get(d, d[i].0) == Some(d[i].1)
  {
    if i > 0 {
      assert Keys(d)[0] != Keys(d)[i];
      assert Distinct(Keys(d[1..])) by {
        forall a, b | 0 <= a < b < |Keys(d[1..])| ensures Keys(d[1..])[a] != Keys(d[1..])[b] {
          assert Keys(d[1..])[a] == Keys(d)[a + 1] && Keys(d[1..])[b] == Keys(d)[b + 1];
        }
      }
      GetAt(d[1..], i - 1);
    }
  }

  /** `[row.get(k, "") for k in fieldnames]`. */
  function Line(d: Dict, fieldnames: seq<string>): seq<string> {
    seq(|fieldnames|, i requires 0 <= i < |fieldnames| => Get(d, fieldnames[i]).GetOr(""))
  }

  /** `list(rows[0].keys()) + list(extra.keys())`. */
  function Header(rows: seq<Dict>, extra: Dict): seq<string>
    requires rows != []
  {
    Keys(rows[0]) + Keys(extra)
  }

  /** The sheet `write_xlsx` fills: nothing for no rows, else the header and one line per row with `extra` merged in. */
  function Table(rows: seq<Dict>, extra: Dict): seq<seq<string>> {
    if rows == [] then []
    else
      var names := Header(rows, extra);
      [names] + seq(|rows|, i requires 0 <= i < |rows| => Line(Update(rows[i], extra), names))
  }

  /** The append loop of `write_xlsx`. */
  method WriteXlsx(rows: seq<Dict>, extra: Dict) returns (sheet: seq<seq<string>>)
    ensures sheet == Table(rows, extra)
  {
    if rows == [] {
      return [];
    }
    ghost var table := Table(rows, extra);
    var fieldnames := Keys(rows[0]) + Keys(extra);
    sheet := [fieldnames];
    assert sheet == table[..1];
    for i := 0 to |rows|
      invariant sheet == table[..i + 1]
    {
      var row := Update(rows[i], extra);
      assert table[i + 1] == Line(row, fieldnames);
      TakeSnoc(table, i + 1);
      sheet := sheet + [Line(row, fieldnames)];
    }
    assert table[..|rows| + 1] == table;
  }

  /**
    Each cell holds the row's value for its column, overridden by `extra` for
    the extra columns, and "" where the row has no such field.
  */
  lemma TableSpec(rows: seq<Dict>, extra: Dict)
    requires Distinct(Keys(extra))
    ensures Table(rows, extra) == [] <==> rows == []
    ensures rows != [] ==>
      && |Table(rows, extra)| == |rows| + 1
      && Table(rows, extra)[0] == Header(rows, extra)
      && forall i, j :: 0 <= i < |rows| && 0 <= j < |Header(rows, extra)| ==>
           Table(rows, extra)[i + 1][j] == MergedValue(rows[i], extra, Header(rows, extra)[j])
  {
    if rows != [] {
      forall i, j | 0 <= i < |rows| && 0 <= j < |Header(rows, extra)| {
        TableCell(rows, extra, i, j);
      }
    }
  }

  /** The value under column `k` once `extra` is merged into the row `d`, "" when neither has it. */
  function MergedValue(d: Dict, extra: Dict, k: string): string {
    if k in Keys(extra) then Get(extra, k).GetOr("") else Get(d, k).GetOr("")
  }

  lemma TableCell(rows: seq<Dict>, extra: Dict, i: nat, j: nat)
    requires Distinct(Keys(extra))
    requires i < |rows| && j < |Header(rows, extra)|
    ensures Table(rows, extra)[i + 1][j] == MergedValue(rows[i], extra, Header(rows, extra)[j])
  {
    var names := Header(rows, extra);
    assert Table(rows, extra)[i + 1] == Line(Update(rows[i], extra), names);
    GetUpdate(rows[i], extra, names[j]);
  }

  /**
    When a row and `extra` together have distinct keys, the row's line is its
    own values followed by those of `extra`: every value lands under its own
    column.
  */
  lemma LineOfMerged(d: Dict, extra: Dict)
    requires Distinct(Keys(d) + Keys(extra))
    ensures Line(Update(d, extra), Keys(d) + Keys(extra)) == Values(d) + Values(extra)
  {
    DistinctAppend(Keys(d), Keys(extra));
    var names := Keys(d) + Keys(extra);
    forall j | 0 <= j < |names|
      ensures Line(Update(d, extra), names)[j] == (Values(d) + Values(extra))[j]
    {
      GetUpdate(d, extra, names[j]);
      if j < |d| {
        assert names[j] == Keys(d)[j];
        GetAt(d, j);
      } else {
        assert names[j] == Keys(extra)[j - |d|];
        GetAt(extra, j - |d|);
      }
    }
  }

  // ---- main ----

  /** The keys of a row dict, in the order `list_collections` writes them. */
  const RowKeys: seq<string> := ["collection_gid", "collection_id", "title", "handle", "updated_at", "product_count", "vendors"]

  /** The keys of `extra`. */
  const ExtraKeys: seq<string> := ["shop", "exported_at"]

  function RowValues(r: CollectionRow): seq<string> {
    [r.collectionGid, r.collectionId, r.title, r.handle, r.updatedAt, r.productCount, r.vendors]
  }

  function Zip(keys: seq<string>, values: seq<string>): (d: Dict)
    requires |keys| == |values|
    ensures Keys(d) == keys && Values(d) == values
  {
    seq(|keys|, i requires 0 <= i < |keys| => (keys[i], values[i]))
  }

  function RowDict(r: CollectionRow): Dict {
    Zip(RowKeys, RowValues(r))
  }

  function ExtraDict(shopName: string, exportedAt: string): Dict {
    Zip(ExtraKeys, [shopName, exportedAt])
  }

  lemma ColumnsDistinct()
    ensures Distinct(RowKeys + ExtraKeys)
  {
    var all := RowKeys + ExtraKeys;
    assert |all[0]| == 14 && |all[1]| == 13 && |all[2]| == 5 && |all[3]| == 6 && |all[4]| == 10;
    assert |all[5]| == 13 && |all[6]| == 7 && |all[7]| == 4 && |all[8]| == 11;
    assert all[1][0] != all[5][0];
  }

  /** The row dicts of `list_collections`, in order. */
  function Dicts(rows: seq<CollectionRow>): seq<Dict> {
    seq(|rows|, i requires 0 <= i < |rows| => RowDict(rows[i]))
  }

  /**
    The sheet of the exported rows: empty when there are none; otherwise the
    seven row columns then `shop` and `exported_at`, and under them each row's
    own values followed by the shop name and the export time.
  */
  lemma SheetOfRows(rows: seq<CollectionRow>, shopName: string, exportedAt: string)
    ensures var t := Table(Dicts(rows), ExtraDict(shopName, exportedAt));
      && (t == [] <==> rows == [])
      && (t != [] ==>
            && |t| == |rows| + 1 && t[0] == RowKeys + ExtraKeys
            && forall i :: 0 <= i < |rows| ==> t[i + 1] == RowValues(rows[i]) + [shopName, exportedAt])
  {
    var dicts := Dicts(rows);
    var extra := ExtraDict(shopName, exportedAt);
    if rows != [] {
      ColumnsDistinct();
      forall i | 0 <= i < |rows| ensures Table(dicts, extra)[i + 1] == RowValues(rows[i]) + [shopName, exportedAt] {
        LineOfMerged(dicts[i], extra);
        assert Keys(dicts[i]) == Keys(dicts[0]);
      }
    }
  }

  lemma SortRowsLength(rows: seq<CollectionRow>)
    ensures |SortRows(rows)| == |rows|
  {
    SortRowsSpec(rows);
    assert |multiset(SortRows(rows))| == |multiset(rows)|;
  }

  /** The exported rows: the first `interruptAt` enriched, the rest as listed. */
  function ExportRows(nodes: seq<ExportNode>, shop: ExportShop, interruptAt: nat): seq<CollectionRow> {
    seq(|nodes|, i requires 0 <= i < |nodes| => if i < interruptAt then EnrichRow(RowOf(nodes[i]), shop) else RowOf(nodes[i]))
  }

  /** `main` without the files: list, enrich (perhaps interrupted), sort, and fill the sheet. */
  method ExportMain(pages: seq<seq<ExportNode>>, shop: ExportShop, interruptAt: nat, shopName: string, exportedAt: string)
    returns (sheet: seq<seq<string>>)
    ensures var sorted := SortRows(ExportRows(AllNodes(pages), shop, interruptAt));
      && (sheet == [] <==> AllNodes(pages) == [])
      && (sheet != [] ==>
            && |sheet| == |sorted| + 1 && sheet[0] == RowKeys + ExtraKeys
            && forall i :: 0 <= i < |sorted| ==> sheet[i + 1] == RowValues(sorted[i]) + [shopName, exportedAt])
  {
    var listed := ListCollections(pages);
    var rows := new CollectionRow[|listed|](i requires 0 <= i < |listed| reads {} => listed[i]);
    EnrichCollections(rows, shop, interruptAt);
    assert rows[..] == ExportRows(AllNodes(pages), shop, interruptAt);
    var sorted := SortRows(rows[..]);
    SortRowsLength(rows[..]);
    sheet := WriteXlsx(Dicts(sorted), ExtraDict(shopName, exportedAt));
    SheetOfRows(sorted, shopName, exportedAt);
  }
}
