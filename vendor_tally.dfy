/**
  The product vendor fields the Shopify scripts read: their stripped,
  non-blank values, and tallies of them by a key (the vendor itself, or its
  `normalize`d form), in the order the keys are first seen.
*/
module VendorTally {
  import opened Wrappers
  import opened Text
  import opened StableSort
  import opened StringOrder
  import opened Sequences

  /** The identity, as a sort key. */
  function Same(s: string): string { s }

  /** `(v or "").strip()`: a product's vendor field, stripped. */
  function VendorOf(n: Option<string>): string {
    Strip(n.GetOr(""))
  }

  /** The non-blank values `f` reads from the product nodes, in order. */
  function NonBlank(nodes: seq<Option<string>>, f: Option<string> -> string): seq<string> {
    if nodes == [] then []
    else
      var v := f(nodes[|nodes| - 1]);
      NonBlank(nodes[..|nodes| - 1], f) + (if v == "" then [] else [v])
  }

  /** The stripped, non-blank vendors of the product nodes, in order. */
  function NonBlankVendors(nodes: seq<Option<string>>): seq<string> {
    NonBlank(nodes, VendorOf)
  }

  lemma NonBlankSnoc(init: seq<Option<string>>, n: Option<string>, f: Option<string> -> string)
    ensures NonBlank(init + [n], f) == NonBlank(init, f) + (if f(n) == "" then [] else [f(n)])
  {
    assert (init + [n])[..|init|] == init;
  }

  /** One more product node read, as the paging loops do it. */
  lemma NonBlankTake(nodes: seq<Option<string>>, i: nat, f: Option<string> -> string)
    requires i < |nodes|
    ensures NonBlank(nodes[..i + 1], f) == NonBlank(nodes[..i], f) + (if f(nodes[i]) == "" then [] else [f(nodes[i])])
  {
    TakeSnoc(nodes, i);
    NonBlankSnoc(nodes[..i], nodes[i], f);
  }

  /** Some product node reads as `v`. */
  ghost predicate Reads(nodes: seq<Option<string>>, f: Option<string> -> string, v: string) {
    exists n :: n in nodes && f(n) == v
  }

  /** Some product node has the vendor `v` once stripped. */
  ghost predicate HasVendor(nodes: seq<Option<string>>, v: string) {
    Reads(nodes, VendorOf, v)
  }

  lemma {:induction false} NonBlankSpec(nodes: seq<Option<string>>, f: Option<string> -> string)
    ensures forall v :: v in NonBlank(nodes, f) <==> v != "" && Reads(nodes, f, v)
  {
    if nodes != [] {
      var init := nodes[..|nodes| - 1];
      NonBlankSpec(init, f);
      assert nodes == init + [nodes[|nodes| - 1]];
      forall v ensures v in NonBlank(nodes, f) <==> v != "" && Reads(nodes, f, v) {
        NonBlankStep(init, nodes[|nodes| - 1], f, v);
      }
    }
  }

  lemma NonBlankStep(init: seq<Option<string>>, last: Option<string>, f: Option<string> -> string, v: string)
    requires v in NonBlank(init, f) <==> v != "" && Reads(init, f, v)
    ensures v in NonBlank(init + [last], f) <==> v != "" && Reads(init + [last], f, v)
  {
    NonBlankSnoc(init, last, f);
    if v in NonBlank(init, f) {
      var n :| n in init && f(n) == v;
      assert n in init + [last];
    } else if v != "" && Reads(init + [last], f, v) {
      var n :| n in init + [last] && f(n) == v;
      assert n in init ==> Reads(init, f, v);
      assert n !in init ==> n == last;
    }
  }

  /** One step of the vendor loop: a new non-blank value is appended, anything else leaves the list as it was. */
  lemma DedupeNonBlankStep(init: seq<Option<string>>, n: Option<string>, f: Option<string> -> string)
    ensures var d := Dedupe(NonBlank(init, f));
      Dedupe(NonBlank(init + [n], f)) == if f(n) == "" || f(n) in d then d else d + [f(n)]
  {
    NonBlankSnoc(init, n, f);
    if f(n) == "" {
      assert NonBlank(init, f) + [] == NonBlank(init, f);
    } else {
      DedupeSnoc(NonBlank(init, f), f(n));
    }
  }

  // ---- Tallies ----

  /** The keys of the values, each once, in the order first seen: the key order of a Python dict built by counting. */
  function KeysOf(vs: seq<string>, key: string -> string): seq<string> {
    if vs == [] then []
    else
      var d := KeysOf(vs[..|vs| - 1], key);
      var k := key(vs[|vs| - 1]);
      if k in d then d else d + [k]
  }

  /** How many values have key `k`. */
  function CountBy(vs: seq<string>, key: string -> string, k: string): nat {
    if vs == [] then 0
    else CountBy(vs[..|vs| - 1], key, k) + (if key(vs[|vs| - 1]) == k then 1 else 0)
  }

  /** The first value with key `k`, or "" when there is none. */
  function FirstBy(vs: seq<string>, key: string -> string, k: string): string {
    if vs == [] then ""
    else
      var init := vs[..|vs| - 1];
      if k in KeysOf(init, key) then FirstBy(init, key, k)
      else if key(vs[|vs| - 1]) == k then vs[|vs| - 1] else ""
  }

  /** The three tallies after one more value. */
  lemma TallySnoc(vs: seq<string>, v: string, key: string -> string)
    ensures KeysOf(vs + [v], key) == if key(v) in KeysOf(vs, key) then KeysOf(vs, key) else KeysOf(vs, key) + [key(v)]
    ensures forall k :: CountBy(vs + [v], key, k) == CountBy(vs, key, k) + (if key(v) == k then 1 else 0)
    ensures forall k ::
      FirstBy(vs + [v], key, k) == (if k in KeysOf(vs, key) then FirstBy(vs, key, k) else if key(v) == k then v else "")
  {
    assert (vs + [v])[..|vs|] == vs;
  }

  /** The keys are distinct, and are exactly the keys of the values. */
  lemma {:induction false} KeysOfSpec(vs: seq<string>, key: string -> string)
    ensures Distinct(KeysOf(vs, key))
    ensures forall k :: k in KeysOf(vs, key) <==> exists v :: v in vs && key(v) == k
  {
    if vs != [] {
      var init := vs[..|vs| - 1];
      var last := vs[|vs| - 1];
      KeysOfSpec(init, key);
      assert vs == init + [last];
      forall k ensures k in KeysOf(vs, key) <==> exists v :: v in vs && key(v) == k {
        if k in KeysOf(init, key) {
          var v :| v in init && key(v) == k;
          assert v in vs;
        } else if exists v :: v in vs && key(v) == k {
          var v :| v in vs && key(v) == k;
          assert v in init ==> k in KeysOf(init, key);
          assert v !in init ==> v == last;
        }
      }
    }
  }

  /** A key counts the values that have it; a key no value has counts 0. */
  lemma {:induction false} CountByZero(vs: seq<string>, key: string -> string, k: string)
    requires k !in KeysOf(vs, key)
    ensures CountBy(vs, key, k) == 0
  {
    if vs != [] {
      var init := vs[..|vs| - 1];
      CountByZero(init, key, k);
    }
  }

  /** The first value with a key that occurs is the earliest one with that key. */
  lemma {:induction false} FirstBySpec(vs: seq<string>, key: string -> string, k: string)
    requires k in KeysOf(vs, key)
    ensures exists i ::
      && 0 <= i < |vs| && vs[i] == FirstBy(vs, key, k) && key(vs[i]) == k
      && forall j :: 0 <= j < i ==> key(vs[j]) != k
  {
    var init := vs[..|vs| - 1];
    var last := vs[|vs| - 1];
    KeysOfSpec(init, key);
    if k in KeysOf(init, key) {
      FirstBySpec(init, key, k);
      var i :| 0 <= i < |init| && init[i] == FirstBy(init, key, k) && key(init[i]) == k
        && forall j :: 0 <= j < i ==> key(init[j]) != k;
      assert vs[i] == init[i];
      assert forall j :: 0 <= j < i ==> vs[j] == init[j];
    } else {
      assert key(last) == k;
      forall j | 0 <= j < |vs| - 1 ensures key(vs[j]) != k {
        assert vs[j] == init[j] && init[j] in init;
      }
    }
  }

  /** The counts of the keys `ks`, added up. */
  function SumOver(ks: seq<string>, vs: seq<string>, key: string -> string): nat {
    if ks == [] then 0 else SumOver(ks[..|ks| - 1], vs, key) + CountBy(vs, key, ks[|ks| - 1])
  }

  /** One more value adds one to the sum for each time its key is listed. */
  lemma {:induction false} SumOverSnoc(ks: seq<string>, vs: seq<string>, v: string, key: string -> string)
    ensures SumOver(ks, vs + [v], key) == SumOver(ks, vs, key) + multiset(ks)[key(v)]
  {
    TallySnoc(vs, v, key);
    if ks != [] {
      var init := ks[..|ks| - 1];
      SumOverSnoc(init, vs, v, key);
      assert ks == init + [ks[|ks| - 1]];
    }
  }

  /** The counts of all keys add up to the number of values: every value is counted once. */
  lemma {:induction false} TallySum(vs: seq<string>, key: string -> string)
    ensures SumOver(KeysOf(vs, key), vs, key) == |vs|
  {
    if vs != [] {
      var init := vs[..|vs| - 1];
      var v := vs[|vs| - 1];
      var ks := KeysOf(init, key);
      TallySum(init, key);
      assert vs == init + [v];
      TallySnoc(init, v, key);
      SumOverSnoc(ks, init, v, key);
      KeysOfSpec(init, key);
      DistinctCounts(ks);
      if key(v) in ks {
        assert multiset(ks)[key(v)] == 1;
      } else {
        assert multiset(ks)[key(v)] == 0;
        CountByZero(init, key, key(v));
        assert (ks + [key(v)])[..|ks|] == ks;
      }
    }
  }

  /** A key that some value has is counted at least once. */
  lemma {:induction false} CountByPositive(vs: seq<string>, key: string -> string, p: nat)
    requires p < |vs|
    ensures CountBy(vs, key, key(vs[p])) > 0
  {
    if p < |vs| - 1 {
      CountByPositive(vs[..|vs| - 1], key, p);
      assert vs[..|vs| - 1][p] == vs[p];
    }
  }

  /** The items of a tally dict whose display name is the first value with each key. */
  function TallyItems(vs: seq<string>, key: string -> string): seq<(string, nat)> {
    var ks := KeysOf(vs, key);
    seq(|ks|, i requires 0 <= i < |ks| => (FirstBy(vs, key, ks[i]), CountBy(vs, key, ks[i])))
  }

  /** The counts added up. */
  function Total(out: seq<(string, nat)>): nat {
    if out == [] then 0 else Total(out[..|out| - 1]) + out[|out| - 1].1
  }

  lemma {:induction false} TotalIsSum(vs: seq<string>, key: string -> string, ks: seq<string>, m: nat)
    requires m <= |ks|
    ensures Total(seq(m, i requires 0 <= i < m => (FirstBy(vs, key, ks[i]), CountBy(vs, key, ks[i]))))
      == SumOver(ks[..m], vs, key)
  {
    if m > 0 {
      TotalIsSum(vs, key, ks, m - 1);
      var out := seq(m, i requires 0 <= i < m => (FirstBy(vs, key, ks[i]), CountBy(vs, key, ks[i])));
      assert out[..m - 1] == seq(m - 1, i requires 0 <= i < m - 1 => (FirstBy(vs, key, ks[i]), CountBy(vs, key, ks[i])));
      assert ks[..m][..m - 1] == ks[..m - 1];
    }
  }

  /**
    Each item is named by the first value with its key and counts the values
    with that key, at least one.
  */
  lemma TallyItemsSpec(vs: seq<string>, key: string -> string)
    ensures var out := TallyItems(vs, key);
      forall i :: 0 <= i < |out| ==>
        && out[i].0 in vs
        && out[i].1 == CountBy(vs, key, key(out[i].0)) > 0
        && forall j :: 0 <= j < |vs| && key(vs[j]) == key(out[i].0) ==> out[i].0 in vs[..j + 1]
  {
    var out := TallyItems(vs, key);
    var ks := KeysOf(vs, key);
    forall i | 0 <= i < |out|
      ensures out[i].0 in vs && key(out[i].0) == ks[i]
      ensures out[i].1 == CountBy(vs, key, key(out[i].0)) > 0
      ensures forall j :: 0 <= j < |vs| && key(vs[j]) == key(out[i].0) ==> out[i].0 in vs[..j + 1]
    {
      TallyItemSpec(vs, key, ks[i]);
    }
  }

  /** The item names are distinct, and every value is counted under the item of its key. */
  lemma TallyItemsCover(vs: seq<string>, key: string -> string)
    ensures var out := TallyItems(vs, key);
      && (forall i, j :: 0 <= i < j < |out| ==> out[i].0 != out[j].0)
      && (forall v :: v in vs ==> exists i :: 0 <= i < |out| && key(out[i].0) == key(v))
  {
    var out := TallyItems(vs, key);
    var ks := KeysOf(vs, key);
    KeysOfSpec(vs, key);
    forall i | 0 <= i < |out| ensures key(out[i].0) == ks[i] {
      TallyItemSpec(vs, key, ks[i]);
    }
    forall i, j | 0 <= i < j < |out| ensures out[i].0 != out[j].0 {
      assert ks[i] != ks[j];
    }
    forall v | v in vs ensures exists i :: 0 <= i < |out| && key(out[i].0) == key(v) {
      assert key(v) in ks;
      var i :| 0 <= i < |ks| && ks[i] == key(v);
      assert key(out[i].0) == ks[i];
    }
  }

  /** The counts of the items add up to the number of values. */
  lemma TallyItemsTotal(vs: seq<string>, key: string -> string)
    ensures Total(TallyItems(vs, key)) == |vs|
  {
    var ks := KeysOf(vs, key);
    TotalIsSum(vs, key, ks, |ks|);
    assert ks[..|ks|] == ks;
    TallySum(vs, key);
  }

  /** The item of one key: its first value, and a positive count. */
  lemma TallyItemSpec(vs: seq<string>, key: string -> string, k: string)
    requires k in KeysOf(vs, key)
    ensures FirstBy(vs, key, k) in vs && key(FirstBy(vs, key, k)) == k
    ensures CountBy(vs, key, k) > 0
    ensures forall j :: 0 <= j < |vs| && key(vs[j]) == k ==> FirstBy(vs, key, k) in vs[..j + 1]
  {
    FirstBySpec(vs, key, k);
    var p :| && 0 <= p < |vs| && vs[p] == FirstBy(vs, key, k) && key(vs[p]) == k
             && forall j :: 0 <= j < p ==> key(vs[j]) != k;
    CountByPositive(vs, key, p);
    forall j | 0 <= j < |vs| && key(vs[j]) == k ensures FirstBy(vs, key, k) in vs[..j + 1] {
      assert p <= j;
      assert vs[..j + 1][p] == vs[p];
    }
  }

  /** Dropping blank values never lengthens the list. */
  lemma {:induction false} NonBlankLength(nodes: seq<Option<string>>, f: Option<string> -> string)
    ensures |NonBlank(nodes, f)| <= |nodes|
  {
    if nodes != [] {
      NonBlankLength(nodes[..|nodes| - 1], f);
    }
  }

  /** `{names[k]: counts[k] for k in order}`, as its items. */
  function ItemsOf(order: seq<string>, names: map<string, string>, counts: map<string, nat>): seq<(string, nat)>
    requires forall k :: k in order ==> k in names && k in counts
  {
    seq(|order|, j requires 0 <= j < |order| => (names[order[j]], counts[order[j]]))
  }

  /** Maps that hold each key's first value and count give the tally's items. */
  lemma ItemsOfTally(vs: seq<string>, key: string -> string, names: map<string, string>, counts: map<string, nat>)
    requires forall k :: k in KeysOf(vs, key) ==> k in names && k in counts
    requires forall k :: k in names ==> names[k] == FirstBy(vs, key, k)
    requires forall k :: k in counts ==> counts[k] == CountBy(vs, key, k)
    ensures ItemsOf(KeysOf(vs, key), names, counts) == TallyItems(vs, key)
  {
  }
}
