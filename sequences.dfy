/** Sequences without repeats, and removing repeats while keeping first occurrences. */
module Sequences {

  /** A sequence without repeats. */
  predicate Distinct<T(==)>(s: seq<T>) {
    forall i, j :: 0 <= i < j < |s| ==> s[i] != s[j]
  }

  /** The first occurrence of each element, in order: what a `seen` set and an `append` build. */
  function Dedupe<T(==)>(s: seq<T>): seq<T> {
    if s == [] then []
    else
      var d := Dedupe(s[..|s| - 1]);
      if s[|s| - 1] in d then d else d + [s[|s| - 1]]
  }

  /** Taking one more element appends it. */
  lemma TakeSnoc<T>(s: seq<T>, i: nat)
    requires i < |s|
    ensures s[..i + 1] == s[..i] + [s[i]]
  {
  }

  /** The two halves of a sequence without repeats have none, and share nothing. */
  lemma DistinctAppend<T>(a: seq<T>, b: seq<T>)
    requires Distinct(a + b)
    ensures Distinct(a) && Distinct(b)
    ensures forall x :: x in a ==> x !in b
  {
    forall i, j | 0 <= i < j < |a| ensures a[i] != a[j] {
      assert a[i] == (a + b)[i] && a[j] == (a + b)[j];
    }
    forall i, j | 0 <= i < j < |b| ensures b[i] != b[j] {
      assert b[i] == (a + b)[|a| + i] && b[j] == (a + b)[|a| + j];
    }
    forall i, j | 0 <= i < |a| && 0 <= j < |b| ensures a[i] != b[j] {
      assert a[i] == (a + b)[i] && b[j] == (a + b)[|a| + j];
    }
  }

  /** Deduplication keeps every element once and adds none, and so never grows the list. */
  lemma {:induction false} DedupeSpec<T>(s: seq<T>)
    ensures Distinct(Dedupe(s))
    ensures forall x :: x in Dedupe(s) <==> x in s
    ensures |Dedupe(s)| <= |s|
  {
    if s != [] {
      var init := s[..|s| - 1];
      DedupeSpec(init);
      assert s == init + [s[|s| - 1]];
    }
  }

  /**
    Deduplication keeps first-seen order: when `Dedupe(s)` lists one element
    before another, every occurrence of the later one in `s` comes after an
    occurrence of the earlier one.
  */
  lemma {:induction false} DedupeFirstSeen<T>(s: seq<T>, a: nat, b: nat, j: nat)
    requires a < b < |Dedupe(s)| && j < |s| && s[j] == Dedupe(s)[b]
    ensures exists i :: 0 <= i < j && s[i] == Dedupe(s)[a]
  {
    var init := s[..|s| - 1];
    var d := Dedupe(init);
    DedupeSpec(init);
    assert s == init + [s[|s| - 1]];
    assert Dedupe(s)[..|d|] == d;
    assert a < |d|;
    assert Dedupe(s)[a] == d[a];
    if j == |s| - 1 {
      var x := d[a];
      DedupeMember(init, x);
      var i :| 0 <= i < |init| && init[i] == x;
      assert s[i] == init[i];
    } else {
      assert s[j] == init[j];
      assert b < |d|;
      assert Dedupe(s)[b] == d[b];
      DedupeFirstSeen(init, a, b, j);
      var i :| 0 <= i < j && init[i] == d[a];
      assert s[i] == init[i];
    }
  }

  lemma DedupeMember<T>(s: seq<T>, x: T)
    requires x in Dedupe(s)
    ensures x in s
  {
    DedupeSpec(s);
  }

  lemma DedupeSnoc<T>(s: seq<T>, x: T)
    ensures Dedupe(s + [x]) == if x in Dedupe(s) then Dedupe(s) else Dedupe(s) + [x]
  {
    assert (s + [x])[..|s|] == s;
  }

  /** A sequence is without repeats exactly when it holds each element at most once. */
  lemma {:induction false} DistinctCounts<T>(s: seq<T>)
    ensures Distinct(s) <==> forall x :: multiset(s)[x] <= 1
  {
    if s != [] {
      var init := s[..|s| - 1];
      var last := s[|s| - 1];
      DistinctCounts(init);
      assert s == init + [last];
      if Distinct(s) {
        assert Distinct(init) by {
          forall i, j | 0 <= i < j < |init| ensures init[i] != init[j] {
            assert s[i] == init[i] && s[j] == init[j];
          }
        }
      } else {
        var i, j :| 0 <= i < j < |s| && s[i] == s[j];
        if j < |s| - 1 {
          assert init[i] == s[i] && init[j] == s[j];
          assert !Distinct(init);
          var x :| multiset(init)[x] > 1;
          assert multiset(s)[x] >= multiset(init)[x];
        } else {
          assert s[i] in init by { assert init[i] == s[i]; }
          assert multiset(s)[last] == multiset(init)[last] + 1;
        }
      }
    }
  }

  /** Reordering keeps a sequence without repeats. */
  lemma DistinctPermutation<T>(a: seq<T>, b: seq<T>)
    requires multiset(a) == multiset(b) && Distinct(a)
    ensures Distinct(b)
  {
    DistinctCounts(a);
    DistinctCounts(b);
  }
}
