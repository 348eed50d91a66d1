/** Ranking a cost map: listing its entries, sorting them by cost and keeping a prefix. */
module Ranking {
  import opened Wrappers

  /** A (plan name, cost) pair, as in the entry set of a cost map. */
  type Entry = (string, real)

  predicate SortedByCost(s: seq<Entry>) {
    forall p, q :: 0 <= p < q < |s| ==> s[p].1 <= s[q].1
  }

  /** Every pair of `s` is an entry of `m`. */
  predicate EntriesOf(s: seq<Entry>, m: map<string, real>) {
    forall i :: 0 <= i < |s| ==> s[i].0 in m && m[s[i].0] == s[i].1
  }

  predicate DistinctNames(s: seq<Entry>) {
    forall p, q :: 0 <= p < q < |s| ==> s[p].0 != s[q].0
  }

  predicate DistinctEntries(s: seq<Entry>) {
    forall p, q :: 0 <= p < q < |s| ==> s[p] != s[q]
  }

  /** Every entry of `m` that `s` leaves out costs at least as much as every entry it keeps. */
  predicate KeepsCheapest(s: seq<Entry>, m: map<string, real>) {
    forall i, k :: 0 <= i < |s| && k in m && (forall j :: 0 <= j < |s| ==> s[j].0 != k) ==> s[i].1 <= m[k]
  }

  /** How many entries a recommendation for `n` plans keeps: `limit` when it is given and
      smaller than `n`, otherwise all `n`. */
  function RecommendationLength(n: nat, limit: Option<int>): nat {
    if limit.Some? && 0 <= limit.value < n then limit.value else n
  }

  /** `s` recommends the cheapest plans of `m`: distinct entries of `m` in ascending cost,
      as many as the limit allows, none dearer than a plan left out. */
  predicate IsRecommendation(s: seq<Entry>, m: map<string, real>, limit: Option<int>) {
    && |s| == RecommendationLength(|m|, limit)
    && SortedByCost(s)
    && EntriesOf(s, m)
    && DistinctNames(s)
    && KeepsCheapest(s, m)
  }

  /** The ArrayList built from a map's entry set: every entry once, in an unspecified order. */
  method EntryList(m: map<string, real>) returns (s: seq<Entry>)
    ensures |s| == |m|
    ensures EntriesOf(s, m) && DistinctNames(s)
    ensures forall k :: k in m ==> (k, m[k]) in s
  {
    s := [];
    var rest := m.Keys;
    while rest != {}
      invariant rest <= m.Keys
      invariant EntriesOf(s, m) && DistinctNames(s)
      invariant forall i :: 0 <= i < |s| ==> s[i].0 !in rest
      invariant forall k :: k in m && k !in rest ==> (k, m[k]) in s
      invariant |s| + |rest| == |m|
      decreases |rest|
    {
      var k :| k in rest;
      s := s + [(k, m[k])];
      rest := rest - {k};
    }
  }

  /** List.sort by cost, in place: afterwards ascending, and a permutation of the input. */
  method SortByCost(a: array<Entry>)
    modifies a
    ensures SortedByCost(a[..])
    ensures multiset(a[..]) == old(multiset(a[..]))
  {
    var i := 0;
    while i < a.Length
      invariant 0 <= i <= a.Length
      invariant SortedByCost(a[..i])
      invariant multiset(a[..]) == old(multiset(a[..]))
    {
      InsertIntoSorted(a, i);
      i := i + 1;
    }
    assert a[..a.Length] == a[..];
  }

  /** One insertion step: moves a[i] down into the sorted prefix a[..i]. */
  method InsertIntoSorted(a: array<Entry>, i: int)
    requires 0 <= i < a.Length && SortedByCost(a[..i])
    modifies a
    ensures SortedByCost(a[..i + 1])
    ensures multiset(a[..]) == old(multiset(a[..]))
  {
    var j := i;
    while j > 0 && a[j - 1].1 > a[j].1
      invariant 0 <= j <= i
      invariant forall p, q :: 0 <= p < q <= i && p != j && q != j ==> a[p].1 <= a[q].1
      invariant forall q :: j < q <= i ==> a[j].1 < a[q].1
      invariant 0 < j < i ==> a[j - 1].1 <= a[j + 1].1
      invariant multiset(a[..]) == old(multiset(a[..]))
    {
      SwapDown(a, j);
      j := j - 1;
    }
  }

  /** Exchanges a[j - 1] and a[j]. */
  method SwapDown(a: array<Entry>, j: int)
    requires 0 < j < a.Length
    modifies a
    ensures a[..] == old(a[..])[j - 1 := old(a[j])][j := old(a[j - 1])]
    ensures multiset(a[..]) == old(multiset(a[..]))
  {
    a[j - 1], a[j] := a[j], a[j - 1];
  }

  lemma {:induction false} DistinctCountsOnce(s: seq<Entry>, x: Entry)
    requires DistinctEntries(s)
    ensures multiset(s)[x] <= 1
  {
    if s != [] {
      var rest := s[1..];
      assert s == [s[0]] + rest;
      assert DistinctEntries(rest) by {
        forall p, q | 0 <= p < q < |rest| ensures rest[p] != rest[q] {
          assert rest[p] == s[p + 1] && rest[q] == s[q + 1];
        }
      }
      DistinctCountsOnce(rest, x);
      if s[0] == x {
        forall i | 0 <= i < |rest| ensures rest[i] != x {
          assert rest[i] == s[i + 1];
        }
        assert x !in rest;
      }
    }
  }

  lemma RepeatCountsTwice(s: seq<Entry>, p: int, q: int)
    requires 0 <= p < q < |s| && s[p] == s[q]
    ensures multiset(s)[s[p]] >= 2
  {
    var t := [s[q]] + s[q + 1..];
    var u := [s[p]] + (s[p + 1..q] + t);
    assert s == s[..p] + u;
  }

  /** A permutation of a duplicate-free list is duplicate-free. */
  lemma PermutationKeepsDistinct(s: seq<Entry>, t: seq<Entry>)
    requires multiset(s) == multiset(t) && DistinctEntries(s)
    ensures DistinctEntries(t)
  {
    forall p, q | 0 <= p < q < |t| ensures t[p] != t[q] {
      if t[p] == t[q] {
        RepeatCountsTwice(t, p, q);
        DistinctCountsOnce(s, t[p]);
      }
    }
  }

  /** A sorted permutation of a map's full entry list, cut to `n` entries, recommends the
      cheapest `n` plans. */
  lemma SortedPrefixRecommends(entries: seq<Entry>, sorted: seq<Entry>, m: map<string, real>, n: nat)
    requires EntriesOf(entries, m) && DistinctNames(entries)
    requires forall k :: k in m ==> (k, m[k]) in entries
    requires multiset(sorted) == multiset(entries) && SortedByCost(sorted)
    requires n <= |sorted|
    ensures var s := sorted[..n];
      SortedByCost(s) && EntriesOf(s, m) && DistinctNames(s) && KeepsCheapest(s, m)
  {
    forall i | 0 <= i < |sorted| ensures sorted[i] in entries {
      assert sorted[i] in multiset(sorted);
    }
    assert EntriesOf(sorted, m);
    assert DistinctEntries(sorted) by {
      PermutationKeepsDistinct(entries, sorted);
    }
    var s := sorted[..n];
    forall i, k | 0 <= i < |s| && k in m && (forall j :: 0 <= j < |s| ==> s[j].0 != k)
      ensures s[i].1 <= m[k]
    {
      assert (k, m[k]) in multiset(entries);
      var j :| 0 <= j < |sorted| && sorted[j] == (k, m[k]);
    }
  }

  /** A set of names drawn from a duplicate-free list has the list's length. */
  lemma {:induction false} DistinctNamesCardinality(s: seq<Entry>)
    requires DistinctNames(s)
    ensures |set i | 0 <= i < |s| :: s[i].0| == |s|
  {
    if s != [] {
      var init := s[..|s| - 1];
      assert DistinctNames(init);
      DistinctNamesCardinality(init);
      var names := set i | 0 <= i < |s| :: s[i].0;
      var initNames := set i | 0 <= i < |init| :: init[i].0;
      assert names == initNames + {s[|s| - 1].0} by {
        forall x | x in names ensures x in initNames + {s[|s| - 1].0} {
          var i :| 0 <= i < |s| && s[i].0 == x;
          if i < |s| - 1 { assert init[i] == s[i]; }
        }
      }
      assert s[|s| - 1].0 !in initNames;
    }
  }

  /** A recommendation without a limit names every plan of the map. */
  lemma FullRecommendationNamesEveryPlan(s: seq<Entry>, m: map<string, real>)
    requires IsRecommendation(s, m, None)
    ensures (set i | 0 <= i < |s| :: s[i].0) == m.Keys
  {
    var names := set i | 0 <= i < |s| :: s[i].0;
    DistinctNamesCardinality(s);
    assert names <= m.Keys;
    assert |names| == |m.Keys|;
    assert |m.Keys| == |m|;
    if names != m.Keys {
      var k :| k in m.Keys && k !in names;
      SubsetNoLarger(names, m.Keys - {k});
    }
  }

  lemma {:induction false} SubsetNoLarger(a: set<string>, b: set<string>)
    requires a <= b
    ensures |a| <= |b|
    decreases b
  {
    if a != {} {
      var x :| x in a;
      SubsetNoLarger(a - {x}, b - {x});
    }
  }
}
