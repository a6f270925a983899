/** A stable sort by an integer key, largest first. It stands in for SQL
    `ORDER BY … DESC` and for PHP's `arsort`; PHP's sort is stable from
    PHP 8 on, and on older versions equal keys may come in any order. */
module Sorting {
  import opened Common

  predicate SortedDesc<T>(s: seq<T>, key: T -> int) {
    forall i, j :: 0 <= i < j < |s| ==> key(s[i]) >= key(s[j])
  }

  /** Places `x` after every entry whose key is at least its own. */
  function InsertDesc<T(==)>(x: T, s: seq<T>, key: T -> int): (r: seq<T>)
    requires SortedDesc(s, key)
    ensures SortedDesc(r, key)
    ensures multiset(r) == multiset(s) + multiset{x}
    ensures |r| == |s| + 1
  {
    if |s| == 0 then [x]
    else if key(x) > key(s[0]) then [x] + s
    else
      var rest := InsertDesc(x, s[1..], key);
      assert s == [s[0]] + s[1..];
      forall k | 0 <= k < |rest| ensures key(s[0]) >= key(rest[k]) {
        assert rest[k] in multiset(rest);
        if rest[k] != x {
          assert rest[k] in multiset(s[1..]);
          var j :| 0 <= j < |s[1..]| && s[1..][j] == rest[k];
          assert s[j + 1] == rest[k];
        }
      }
      ConsSorted(s[0], rest, key);
      [s[0]] + rest
  }

  /** An entry whose key bounds a sorted list's keys can go in front. */
  lemma ConsSorted<T>(h: T, rest: seq<T>, key: T -> int)
    requires SortedDesc(rest, key)
    requires forall k :: 0 <= k < |rest| ==> key(h) >= key(rest[k])
    ensures SortedDesc([h] + rest, key)
  {
    var r := [h] + rest;
    forall i, j | 0 <= i < j < |r| ensures key(r[i]) >= key(r[j]) {
      assert r[j] == rest[j - 1];
      if i > 0 {
        assert r[i] == rest[i - 1];
      }
    }
  }

  /** Insertion sort from the left, so entries with equal keys keep their
      input order. */
  function SortDesc<T(==)>(s: seq<T>, key: T -> int): (r: seq<T>)
    ensures SortedDesc(r, key)
    ensures multiset(r) == multiset(s)
    ensures |r| == |s|
  {
    if |s| == 0 then []
    else
      assert s == s[..|s| - 1] + [s[|s| - 1]];
      InsertDesc(s[|s| - 1], SortDesc(s[..|s| - 1], key), key)
  }
  /** Sorting keeps exactly the entries it was given. */
  lemma SortDescMembers<T>(s: seq<T>, key: T -> int)
    ensures forall x :: x in SortDesc(s, key) <==> x in s
  {
    var r := SortDesc(s, key);
    forall x
      ensures x in r <==> x in s
    {
      assert x in r <==> x in multiset(r);
      assert x in s <==> x in multiset(s);
    }
  }


  /** The entries satisfying `keep`, in order. */
  function Filter<T>(s: seq<T>, keep: T -> bool): (r: seq<T>)
    ensures |r| <= |s|
    ensures forall i :: 0 <= i < |r| ==> keep(r[i]) && r[i] in s
  {
    if |s| == 0 then []
    else if keep(s[0]) then [s[0]] + Filter(s[1..], keep)
    else Filter(s[1..], keep)
  }

  /** `f` applied to every entry, in order. */
  function Map<T, U>(s: seq<T>, f: T -> U): (r: seq<U>)
    ensures |r| == |s|
    ensures forall i :: 0 <= i < |s| ==> r[i] == f(s[i])
  {
    if |s| == 0 then [] else [f(s[0])] + Map(s[1..], f)
  }

  /** Mapping a concatenation maps each part. */
  lemma MapAppend<T, U>(a: seq<T>, b: seq<T>, f: T -> U)
    ensures Map(a + b, f) == Map(a, f) + Map(b, f)
  {
    assert forall i :: 0 <= i < |b| ==> (a + b)[|a| + i] == b[i];
  }

  /** Filtering keeps exactly the entries that satisfy the test. */
  lemma {:induction false} FilterMember<T>(s: seq<T>, keep: T -> bool, x: T)
    ensures x in Filter(s, keep) <==> x in s && keep(x)
    decreases |s|
  {
    if |s| > 0 {
      FilterMember(s[1..], keep, x);
      assert x in s <==> x == s[0] || x in s[1..];
    }
  }

  /** A window of a sorted list is sorted and holds only the list's entries. */
  lemma WindowSorted<T>(s: seq<T>, i: nat, j: nat, key: T -> int)
    requires i <= j <= |s| && SortedDesc(s, key)
    ensures SortedDesc(s[i..j], key)
    ensures forall k :: 0 <= k < j - i ==> s[i..j][k] in s
  {
    assert forall k :: 0 <= k < j - i ==> s[i..j][k] == s[i + k];
  }

  /** In a sorted list made of two parts, every key of the first part bounds
      every key of the second. */
  lemma SortedSplit<T>(a: seq<T>, b: seq<T>, key: T -> int)
    requires SortedDesc(a + b, key)
    ensures forall i, j :: 0 <= i < |a| && 0 <= j < |b| ==> key(a[i]) >= key(b[j])
  {
    forall i, j | 0 <= i < |a| && 0 <= j < |b| ensures key(a[i]) >= key(b[j]) {
      assert (a + b)[i] == a[i] && (a + b)[|a| + j] == b[j];
    }
  }

  /** A bound on every key of a list bounds every key of its second part. */
  lemma BoundedTail<T>(a: seq<T>, b: seq<T>, key: T -> int, x: T)
    requires forall i :: 0 <= i < |a + b| ==> key((a + b)[i]) >= key(x)
    ensures forall j :: 0 <= j < |b| ==> key(b[j]) >= key(x)
  {
    forall j | 0 <= j < |b| ensures key(b[j]) >= key(x) {
      assert (a + b)[|a| + j] == b[j];
    }
  }

  /** Filtering keeps the relative order of first occurrences. */
  lemma {:induction false} FilterFirstIndex<T>(s: seq<T>, keep: T -> bool, x: T, y: T)
    requires x in Filter(s, keep) && y in Filter(s, keep)
    ensures x in s && y in s
    ensures FirstIndex(Filter(s, keep), x) < FirstIndex(Filter(s, keep), y) <==> FirstIndex(s, x) < FirstIndex(s, y)
    decreases |s|
  {
    FilterMember(s, keep, x);
    FilterMember(s, keep, y);
    var f, rest := Filter(s, keep), Filter(s[1..], keep);
    if s[0] != x && s[0] != y {
      FilterMember(s[1..], keep, x);
      FilterMember(s[1..], keep, y);
      FilterFirstIndex(s[1..], keep, x, y);
      if keep(s[0]) {
        assert f == [s[0]] + rest && f[1..] == rest;
      }
    }
  }

  /** Filtering and then sorting keeps exactly the entries that pass the test. */
  lemma SortedFilterMembers<T>(s: seq<T>, keep: T -> bool, key: T -> int)
    ensures forall x :: x in SortDesc(Filter(s, keep), key) <==> x in s && keep(x)
  {
    SortDescMembers(Filter(s, keep), key);
    forall x
      ensures x in Filter(s, keep) <==> x in s && keep(x)
    {
      FilterMember(s, keep, x);
    }
  }

  /** Filtering keeps the whole list exactly when every entry passes the test. */
  lemma {:induction false} FilterAll<T>(s: seq<T>, keep: T -> bool)
    ensures |Filter(s, keep)| == |s| <==> forall i :: 0 <= i < |s| ==> keep(s[i])
    decreases |s|
  {
    if |s| > 0 {
      FilterAll(s[1..], keep);
      assert forall i :: 1 <= i < |s| ==> s[i] == s[1..][i - 1];
    }
  }

  /** Filtering a sorted list leaves it sorted. */
  lemma {:induction false} FilterSorted<T>(s: seq<T>, keep: T -> bool, key: T -> int)
    requires SortedDesc(s, key)
    ensures SortedDesc(Filter(s, keep), key)
    decreases |s|
  {
    if |s| > 0 {
      FilterSorted(s[1..], keep, key);
      var rest := Filter(s[1..], keep);
      forall i | 0 <= i < |rest| ensures key(s[0]) >= key(rest[i]) {
        var k :| 0 <= k < |s[1..]| && s[1..][k] == rest[i];
        assert s[k + 1] == rest[i];
      }
    }
  }

  /** Filtering a list without repeats gives a list without repeats. */
  lemma {:induction false} FilterDistinct<T>(s: seq<T>, keep: T -> bool)
    requires Distinct(s)
    ensures Distinct(Filter(s, keep))
    decreases |s|
  {
    if |s| > 0 {
      FilterDistinct(s[1..], keep);
      FilterMember(s[1..], keep, s[0]);
      assert s[0] !in s[1..];
    }
  }

  /** In a list without repeats every entry occurs once. */
  lemma {:induction false} DistinctOnce<T>(s: seq<T>, x: T)
    requires Distinct(s)
    ensures multiset(s)[x] <= 1
    decreases |s|
  {
    if |s| > 0 {
      assert s == [s[0]] + s[1..];
      DistinctOnce(s[1..], x);
      if x == s[0] {
        assert x !in s[1..];
      }
    }
  }

  /** An entry found at two positions occurs at least twice. */
  lemma TwiceCounted<T>(b: seq<T>, i: int, j: int)
    requires 0 <= i < j < |b| && b[i] == b[j]
    ensures multiset(b)[b[i]] >= 2
  {
    var x := b[i];
    assert b == b[..i] + [x] + b[i + 1..];
    assert b[i + 1..][j - i - 1] == x;
    assert multiset(b[i + 1..])[x] >= 1;
  }

  /** A rearrangement of a list without repeats has no repeats. */
  lemma PermutationDistinct<T>(a: seq<T>, b: seq<T>)
    requires Distinct(a) && multiset(a) == multiset(b)
    ensures Distinct(b)
  {
    forall i, j | 0 <= i < j < |b| ensures b[i] != b[j] {
      if b[i] == b[j] {
        TwiceCounted(b, i, j);
        DistinctOnce(a, b[i]);
        assert false;
      }
    }
  }
}
