/**
  The parts of `ShopifyClient` that decide something: collection ids in gid and
  numeric form, exact-title matching of search results, the product filter by
  vendor, the key-to-id map of `get_metafield_ids`, the date metafield payload,
  and the retry loop of `graphql`. The HTTP requests themselves are parameters:
  a search is a function from query text to its result nodes.
*/
module ShopifyApi {
  import opened Wrappers
  import opened Text
  import opened Numerals
  import opened Dates

  const GidPrefix: string := "gid://"
  const CollectionGidPrefix: string := "gid://shopify/Collection/"

  /** `ShopifyClient.to_collection_gid(collection_id)`: strip, then keep a gid or prefix a bare id. */
  function ToCollectionGid(collectionId: Option<string>): string {
    var cid := Strip(collectionId.GetOr(""));
    if StartsWith(cid, GidPrefix) then cid else CollectionGidPrefix + cid
  }

  /** The numeric part that `rest_count_products_in_collection` sends: the text after the last "/" of a gid. */
  function NumericIdOf(collectionId: string): string {
    if StartsWith(collectionId, GidPrefix) then AfterLast(collectionId, '/') else collectionId
  }

  /** Every converted id is a gid. */
  lemma ToCollectionGidIsGid(collectionId: Option<string>)
    ensures StartsWith(ToCollectionGid(collectionId), GidPrefix)
  {
  }

  lemma CollectionGidPrefixEnds()
    ensures CollectionGidPrefix != [] && !IsSpace(CollectionGidPrefix[0])
    ensures !IsSpace(CollectionGidPrefix[|CollectionGidPrefix| - 1])
  {
  }

  /** The collection prefix in front of a stripped id gives a stripped text. */
  lemma PrefixedStripped(cid: string)
    requires Strip(cid) == cid
    ensures Strip(CollectionGidPrefix + cid) == CollectionGidPrefix + cid
  {
    StripSpec(cid);
    CollectionGidPrefixEnds();
    StripAfterPrefix(CollectionGidPrefix, cid);
  }

  /** A converted id has no surrounding whitespace. */
  lemma ToCollectionGidStripped(collectionId: Option<string>)
    ensures Strip(ToCollectionGid(collectionId)) == ToCollectionGid(collectionId)
  {
    var cid := Strip(collectionId.GetOr(""));
    StripIdempotent(collectionId.GetOr(""));
    if !StartsWith(cid, GidPrefix) {
      PrefixedStripped(cid);
    }
  }

  /** Converting a converted id changes nothing. */
  lemma ToCollectionGidIdempotent(collectionId: Option<string>)
    ensures ToCollectionGid(Some(ToCollectionGid(collectionId))) == ToCollectionGid(collectionId)
  {
    var g := ToCollectionGid(collectionId);
    ToCollectionGidStripped(collectionId);
    ToCollectionGidIsGid(collectionId);
    KeepsStrippedGid(g);
  }

  /** A stripped gid is kept as it is. */
  lemma KeepsStrippedGid(g: string)
    requires Strip(g) == g && StartsWith(g, GidPrefix)
    ensures ToCollectionGid(Some(g)) == g
  {
    var cid := Strip(Some(g).GetOr(""));
    assert cid == g;
  }

  /** `str(n)` for `n >= 0` is digits only: no whitespace at its ends, no "/", and not a gid. */
  lemma DecimalIsBareId(n: nat)
    ensures Strip(DecimalString(n)) == DecimalString(n)
    ensures '/' !in DecimalString(n)
    ensures !StartsWith(DecimalString(n), GidPrefix)
  {
    var d := DecimalString(n);
    assert IsDigit(d[0]) && IsDigit(d[|d| - 1]);
    NoSpaceStrip(d);
    assert forall i :: 0 <= i < |d| ==> IsDigit(d[i]);
  }

  /**
    A bare decimal id survives the trip to a gid and back: the numeric part of
    the gid of `str(n)` is `str(n)`, and it parses back to `n`.
  */
  lemma NumericIdOfGid(n: nat)
    ensures NumericIdOf(ToCollectionGid(Some(DecimalString(n)))) == DecimalString(n)
    ensures ParseInt(NumericIdOf(ToCollectionGid(Some(DecimalString(n))))) == Some(n)
  {
    var d := DecimalString(n);
    DecimalIsBareId(n);
    BareIdToGid(d);
    NumericIdOfPrefixed(d);
    ParseIntOfDecimal(n);
  }

  /** A stripped id that is not a gid gets the collection prefix. */
  lemma BareIdToGid(d: string)
    requires Strip(d) == d && !StartsWith(d, GidPrefix)
    ensures ToCollectionGid(Some(d)) == CollectionGidPrefix + d
  {
    assert Some(d).GetOr("") == d;
  }

  lemma CollectionGidPrefixSplit()
    ensures CollectionGidPrefix == "gid://shopify/Collection" + ['/']
    ensures StartsWith(CollectionGidPrefix, GidPrefix)
  {
  }

  /** The numeric part of a prefixed id without "/" is that id. */
  lemma NumericIdOfPrefixed(d: string)
    requires '/' !in d
    ensures NumericIdOf(CollectionGidPrefix + d) == d
  {
    CollectionGidPrefixSplit();
    assert StartsWith(CollectionGidPrefix + d, GidPrefix);
    AfterLastOfSuffix("gid://shopify/Collection", '/', d);
  }

  // ---- find_collection_by_title_exact ----

  /** A node of a collection search: its gid and its title (`None` when the response has none). */
  datatype CollectionNode = CollectionNode(id: string, title: Option<string>)

  /** The first node whose normalised title is `target` (the `for ... return` of each search). */
  function FirstTitleMatch(nodes: seq<CollectionNode>, target: string): (r: Option<CollectionNode>)
    ensures r.Some? ==> r.value in nodes && NormalizeOpt(r.value.title) == target
    ensures r.None? <==> forall n :: n in nodes ==> NormalizeOpt(n.title) != target
  {
    if nodes == [] then None
    else if NormalizeOpt(nodes[0].title) == target then Some(nodes[0])
    else FirstTitleMatch(nodes[1..], target)
  }

  /** The match is the earliest: no node before it matches. */
  lemma {:induction false} FirstTitleMatchIsFirst(nodes: seq<CollectionNode>, target: string, i: nat)
    requires FirstTitleMatch(nodes, target).Some?
    requires i < |nodes| && nodes[i] == FirstTitleMatch(nodes, target).value
    ensures exists j ::
      && 0 <= j <= i && nodes[j] == nodes[i]
      && (forall k :: 0 <= k < j ==> NormalizeOpt(nodes[k].title) != target)
  {
    if NormalizeOpt(nodes[0].title) == target {
      assert nodes[0] == nodes[i];
    } else {
      assert i > 0;
      assert nodes[1..][i - 1] == nodes[i];
      FirstTitleMatchIsFirst(nodes[1..], target, i - 1);
      var j :| 0 <= j <= i - 1 && nodes[1..][j] == nodes[i] &&
        (forall k :: 0 <= k < j ==> NormalizeOpt(nodes[1..][k].title) != target);
      forall k | 0 <= k < j + 1 ensures NormalizeOpt(nodes[k].title) != target {
        if k > 0 {
          assert nodes[k] == nodes[1..][k - 1];
        }
      }
      assert nodes[j + 1] == nodes[i];
    }
  }

  /** The quoted query `title:"<title>"`. */
  function QuotedTitleQuery(title: string): string {
    "title:\"" + title + "\""
  }

  /** The bare query `title:<title>`. */
  function BareTitleQuery(title: string): string {
    "title:" + title
  }

  /**
    `find_collection_by_title_exact(title)`: search with the quoted query, then
    with the bare query, and return the first node whose normalised title equals
    the normalised `title`. `Failed` when a search raises.
  */
  function FindCollectionByTitleExact(title: string, search: string -> Result<seq<CollectionNode>>): Result<Option<CollectionNode>> {
    var target := Normalize(title);
    match search(QuotedTitleQuery(title))
    case Failed => Failed
    case Ok(nodes) =>
      match FirstTitleMatch(nodes, target)
      case Some(n) => Ok(Some(n))
      case None =>
        match search(BareTitleQuery(title))
        case Failed => Failed
        case Ok(nodes2) => Ok(FirstTitleMatch(nodes2, target))
  }

  /**
    A found collection has exactly the requested title up to case and spacing
    and comes from one of the two searches; the bare search is consulted only
    when the quoted one matched nothing; and nothing is found only when neither
    search has a match.
  */
  lemma FindCollectionSpec(title: string, search: string -> Result<seq<CollectionNode>>)
    ensures var r := FindCollectionByTitleExact(title, search);
      var q1 := search(QuotedTitleQuery(title));
      var q2 := search(BareTitleQuery(title));
      && (r.Ok? && r.value.Some? ==>
            Normalize(r.value.value.title.GetOr("")) == Normalize(title)
            && ((q1.Ok? && r.value.value in q1.value) || (q2.Ok? && r.value.value in q2.value)))
      && (r == Ok(None) <==>
            q1.Ok? && q2.Ok?
            && (forall n :: n in q1.value ==> NormalizeOpt(n.title) != Normalize(title))
            && (forall n :: n in q2.value ==> NormalizeOpt(n.title) != Normalize(title)))
      && (q1.Ok? && (exists n :: n in q1.value && NormalizeOpt(n.title) == Normalize(title)) ==>
            r == Ok(FirstTitleMatch(q1.value, Normalize(title))))
      && (r.Failed? <==> q1.Failed? || (FirstTitleMatch(q1.value, Normalize(title)).None? && q2.Failed?))
  {
  }

  // ---- list_product_ids_by_vendor: the vendor filter ----

  /** A product node of a vendor search. */
  datatype ProductNode = ProductNode(id: string, vendor: Option<string>)

  /** The ids of the nodes whose normalised vendor equals `target`, in order. */
  function VendorMatches(nodes: seq<ProductNode>, target: string): seq<string> {
    if nodes == [] then []
    else
      var last := nodes[|nodes| - 1];
      VendorMatches(nodes[..|nodes| - 1], target) + (if NormalizeOpt(last.vendor) == target then [last.id] else [])
  }

  /**
    The loop over the nodes of one response page in `list_product_ids_by_vendor`:
    keep the ids of nodes whose vendor normalises to the requested vendor's form.
  */
  method FilterByVendor(ids0: seq<string>, nodes: seq<ProductNode>, vendor: string) returns (ids: seq<string>)
    ensures ids == ids0 + VendorMatches(nodes, Normalize(vendor))
  {
    var target := Normalize(vendor);
    ids := ids0;
    var i := 0;
    while i < |nodes|
      invariant 0 <= i <= |nodes|
      invariant ids == ids0 + VendorMatches(nodes[..i], target)
    {
      assert nodes[..i + 1][..i] == nodes[..i];
      if NormalizeOpt(nodes[i].vendor) == target {
        ids := ids + [nodes[i].id];
      }
      i := i + 1;
    }
    assert nodes[..i] == nodes;
  }

  /** An id is kept exactly when some node with that id has the requested vendor up to case and spacing. */
  lemma {:induction false} VendorMatchesMembers(nodes: seq<ProductNode>, target: string)
    ensures forall id :: id in VendorMatches(nodes, target) <==>
      exists n :: n in nodes && n.id == id && NormalizeOpt(n.vendor) == target
    ensures |VendorMatches(nodes, target)| <= |nodes|
  {
    if nodes != [] {
      var init := nodes[..|nodes| - 1];
      VendorMatchesMembers(init, target);
      assert nodes == init + [nodes[|nodes| - 1]];
    }
  }

  // ---- get_metafield_ids ----

  /** A metafield node of the response; a missing or empty node is `None` in the edge list. */
  datatype MetafieldNode = MetafieldNode(id: Option<string>, key: Option<string>)

  /** The id that the last edge carrying key `k` records, `None` when no edge carries it. */
  function LastIdFor(edges: seq<Option<MetafieldNode>>, k: string): Option<string> {
    if edges == [] then None
    else
      var e := edges[|edges| - 1];
      if e.Some? && e.value.key == Some(k) then e.value.id else LastIdFor(edges[..|edges| - 1], k)
  }

  /**
    `get_metafield_ids(product_id, namespace, keys)` after the query: every
    requested key maps to the id of the last edge with that key, or to `None`.
  */
  method GetMetafieldIds(keys: seq<string>, edges: seq<Option<MetafieldNode>>) returns (out: map<string, Option<string>>)
    ensures out.Keys == set k | k in keys
    ensures forall k :: k in out ==> out[k] == LastIdFor(edges, k)
  {
    out := map k | k in keys :: None;
    var i := 0;
    while i < |edges|
      invariant 0 <= i <= |edges|
      invariant out.Keys == set k | k in keys
      invariant forall k :: k in out ==> out[k] == LastIdFor(edges[..i], k)
    {
      assert edges[..i + 1][..i] == edges[..i];
      var node := edges[i];
      if node.Some? && node.value.key.Some? && node.value.key.value in out {
        out := out[node.value.key.value := node.value.id];
      }
      i := i + 1;
    }
    assert edges[..i] == edges;
  }

  /** A recorded id comes from an edge with that key; a key no edge carries stays `None`. */
  lemma {:induction false} LastIdForSpec(edges: seq<Option<MetafieldNode>>, k: string)
    ensures LastIdFor(edges, k).Some? ==> exists e :: e in edges && e == Some(MetafieldNode(LastIdFor(edges, k), Some(k)))
    ensures (forall e :: e in edges ==> e.None? || e.value.key != Some(k)) ==> LastIdFor(edges, k) == None
  {
    if edges != [] {
      var init := edges[..|edges| - 1];
      var e := edges[|edges| - 1];
      LastIdForSpec(init, k);
      assert edges == init + [e];
      if e.Some? && e.value.key == Some(k) {
        assert e in edges && e == Some(MetafieldNode(LastIdFor(edges, k), Some(k)));
      } else if LastIdFor(init, k).Some? {
        var w :| w in init && w == Some(MetafieldNode(LastIdFor(init, k), Some(k)));
        assert w in edges;
      }
    }
  }

  // ---- build_date_metafield ----

  /** A `metafieldsSet` input; the value is the date's ISO text. */
  datatype DateMetafield = DateMetafield(ownerId: string, namespace: string, key: string, kind: string, value: string)

  /**
    `build_date_metafield(owner_id, namespace, key, d)`: a metafield of type
    "date" on the owner whose value is `d.isoformat()`, which reads back as `d`.
  */
  function BuildDateMetafield(ownerId: string, namespace: string, key: string, d: Day): (m: DateMetafield)
    ensures m.kind == "date" && m.ownerId == ownerId && m.namespace == namespace && m.key == key
    ensures 1 <= d <= MaxDay ==> |m.value| == 10 && ParseYmd(m.value).Some? && ToOrdinal(ParseYmd(m.value).value) == d
  {
    DateMetafield(ownerId, namespace, key, "date", IsoText(d))
  }

  // ---- graphql: the retry loop ----

  /** What one POST attempt yields. */
  datatype Attempt<T> =
    | TemporaryStatus   // HTTP 429, 500, 502, 503 or 504
    | RequestError      // a transport error or another HTTP error status
    | GraphqlErrors     // a 200 response whose body has "errors"
    | Answer(data: T)   // a 200 response without errors

  /** The first answer among the first `n` attempts. */
  function FirstAnswer<T>(attempts: seq<Attempt<T>>, n: nat): Result<T>
    requires n <= |attempts|
  {
    if n == 0 then Failed
    else match FirstAnswer(attempts, n - 1)
      case Ok(d) => Ok(d)
      case Failed => if attempts[n - 1].Answer? then Ok(attempts[n - 1].data) else Failed
  }

  /**
    `graphql(query, variables, retries)`: up to `retries` attempts; every kind
    of failure, including a response with GraphQL errors, is retried, and the
    first answer is returned. `attempts[i]` is what attempt `i` yields.
  */
  method Graphql<T>(attempts: seq<Attempt<T>>, retries: nat) returns (r: Result<T>)
    requires retries <= |attempts|
    ensures r == FirstAnswer(attempts, retries)
  {
    var attempt := 0;
    while attempt < retries
      invariant 0 <= attempt <= retries
      invariant FirstAnswer(attempts, attempt) == Failed
    {
      if attempts[attempt].Answer? {
        FirstAnswerStop(attempts, attempt + 1, retries);
        return Ok(attempts[attempt].data);
      }
      attempt := attempt + 1;
    }
    return Failed;
  }

  /** Once an answer is found, later attempts do not change it. */
  lemma {:induction false} FirstAnswerStop<T>(attempts: seq<Attempt<T>>, m: nat, n: nat)
    requires m <= n <= |attempts|
    requires FirstAnswer(attempts, m).Ok?
    ensures FirstAnswer(attempts, n) == FirstAnswer(attempts, m)
    decreases n - m
  {
    if m < n {
      FirstAnswerStop(attempts, m, n - 1);
    }
  }

  /**
    The call fails exactly when none of the first `retries` attempts answers,
    and otherwise returns the earliest answer, with every earlier attempt a
    failure of some kind (GraphQL errors included).
  */
  lemma {:induction false} FirstAnswerSpec<T>(attempts: seq<Attempt<T>>, n: nat)
    requires n <= |attempts|
    ensures FirstAnswer(attempts, n).Failed? <==> forall i :: 0 <= i < n ==> !attempts[i].Answer?
    ensures FirstAnswer(attempts, n).Ok? ==>
      exists i :: 0 <= i < n && attempts[i] == Answer(FirstAnswer(attempts, n).value)
        && forall j :: 0 <= j < i ==> !attempts[j].Answer?
  {
    if n > 0 {
      FirstAnswerSpec(attempts, n - 1);
    }
  }
}
