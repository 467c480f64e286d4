/** The `ORDER BY ... LIMIT n` part of the store's queries. An ordering is
    given as a relation `le(a, b)`: "a may be listed before b". SQL leaves
    the order of ties open; the model lists tied rows in input order. */
module Sorting {

  /** `le` is a total preorder: any two values are comparable and the
      relation is transitive. Every ORDER BY key list gives one. */
  ghost predicate TotalPreorder<T(!new)>(le: (T, T) -> bool) {
    && (forall a, b :: le(a, b) || le(b, a))
    && (forall a, b, c :: le(a, b) && le(b, c) ==> le(a, c))
  }

  predicate SortedBy<T>(s: seq<T>, le: (T, T) -> bool) {
    forall i, j :: 0 <= i < j < |s| ==> le(s[i], s[j])
  }

  /** Puts `x` in front of the first element it may precede. */
  function Insert<T>(x: T, s: seq<T>, le: (T, T) -> bool): (r: seq<T>)
    ensures |r| == |s| + 1
    ensures multiset(r) == multiset(s) + multiset{x}
  {
    if s == [] then [x]
    else if le(x, s[0]) then [x] + s
    else
      assert s == [s[0]] + s[1..];
      [s[0]] + Insert(x, s[1..], le)
  }

  /** Insertion sort: a reordering of `s` (see SortByIsSorted for the order). */
  function SortBy<T>(s: seq<T>, le: (T, T) -> bool): (r: seq<T>)
    ensures |r| == |s|
    ensures multiset(r) == multiset(s)
  {
    if s == [] then []
    else
      assert s == [s[0]] + s[1..];
      Insert(s[0], SortBy(s[1..], le), le)
  }

  lemma {:induction false} InsertIsSorted<T(!new)>(x: T, s: seq<T>, le: (T, T) -> bool)
    requires TotalPreorder(le)
    requires SortedBy(s, le)
    ensures SortedBy(Insert(x, s, le), le)
  {
    if s == [] {
    } else if le(x, s[0]) {
      var r := [x] + s;
      forall i, j | 0 <= i < j < |r| ensures le(r[i], r[j]) {
        if i == 0 && j > 1 {
          assert le(x, s[0]) && le(s[0], s[j - 1]);
        }
      }
    } else {
      assert le(s[0], x);
      var t := Insert(x, s[1..], le);
      InsertIsSorted(x, s[1..], le);
      InsertKeepsLowerBound(s[0], x, s[1..], le);
      var r := [s[0]] + t;
      forall i, j | 0 <= i < j < |r| ensures le(r[i], r[j]) {
        if i == 0 {
          assert r[j] == t[j - 1];
        } else {
          assert r[i] == t[i - 1] && r[j] == t[j - 1];
        }
      }
    }
  }

  /** A value that may precede `x` and every element of `s` may precede
      every element of `Insert(x, s, le)`. */
  lemma InsertKeepsLowerBound<T>(y: T, x: T, s: seq<T>, le: (T, T) -> bool)
    requires le(y, x)
    requires SortedBy([y] + s, le)
    ensures forall j :: 0 <= j < |Insert(x, s, le)| ==> le(y, Insert(x, s, le)[j])
  {
    var t := Insert(x, s, le);
    forall j | 0 <= j < |t| ensures le(y, t[j]) {
      assert t[j] in multiset(s) + multiset{x} by {
        assert t[j] in multiset(t);
      }
      if t[j] != x {
        var k :| 0 <= k < |s| && s[k] == t[j];
        assert ([y] + s)[0] == y && ([y] + s)[k + 1] == s[k];
      }
    }
  }

  lemma {:induction false} SortByIsSorted<T(!new)>(s: seq<T>, le: (T, T) -> bool)
    requires TotalPreorder(le)
    ensures SortedBy(SortBy(s, le), le)
  {
    if s != [] {
      SortByIsSorted(s[1..], le);
      InsertIsSorted(s[0], SortBy(s[1..], le), le);
    }
  }

  /** `LIMIT n`: SQLite treats a negative limit as no limit. */
  function Take<T>(s: seq<T>, n: int): (r: seq<T>)
    ensures |r| <= |s|
    ensures r == s[..|r|]
    ensures n >= 0 ==> |r| == if n < |s| then n else |s|
    ensures n < 0 ==> r == s
  {
    if 0 <= n < |s| then s[..n] else s
  }

  lemma TakeKeepsSorted<T>(s: seq<T>, n: int, le: (T, T) -> bool)
    requires SortedBy(s, le)
    ensures SortedBy(Take(s, n), le)
  {
  }

  /** A sorted, limited listing: the prefix of the ordered input. */
  lemma {:induction false} OrderedPrefix<T(!new)>(s: seq<T>, n: int, le: (T, T) -> bool)
    requires TotalPreorder(le)
    ensures SortedBy(Take(SortBy(s, le), n), le)
    ensures multiset(Take(SortBy(s, le), n)) <= multiset(s)
    ensures n < 0 || n >= |s| ==> multiset(Take(SortBy(s, le), n)) == multiset(s)
  {
    var t := SortBy(s, le);
    SortByIsSorted(s, le);
    TakeKeepsSorted(t, n, le);
    var r := Take(t, n);
    assert t == r + t[|r|..];
    assert multiset(t) == multiset(r) + multiset(t[|r|..]);
  }

  /** Every element of a listing drawn from `s` is an element of `s`. */
  lemma MultisetSubsetMembers<T>(r: seq<T>, s: seq<T>)
    requires multiset(r) <= multiset(s)
    ensures forall x :: x in r ==> x in s
  {
    forall x | x in r ensures x in s {
      assert x in multiset(r);
    }
  }

  /** When the limit cut an element off a sorted listing, the listing is
      full and everything in it may precede the element cut off. */
  lemma OrderedPrefixDominates<T(!new)>(s: seq<T>, n: int, le: (T, T) -> bool, x: T)
    requires TotalPreorder(le)
    requires x in s && x !in Take(SortBy(s, le), n)
    ensures 0 <= n < |s| && |Take(SortBy(s, le), n)| == n
    ensures forall y :: y in Take(SortBy(s, le), n) ==> le(y, x)
  {
    var t := SortBy(s, le);
    SortByIsSorted(s, le);
    assert x in multiset(t);
    var k :| 0 <= k < |t| && t[k] == x;
    forall y | y in Take(t, n) ensures le(y, x) {
      var i :| 0 <= i < |Take(t, n)| && Take(t, n)[i] == y;
      assert t[i] == y;
    }
  }

  /** No value is listed twice. */
  predicate Distinct<T(==)>(s: seq<T>) {
    forall i, j :: 0 <= i < j < |s| ==> s[i] != s[j]
  }

  lemma {:induction false} DistinctCountsOnce<T>(s: seq<T>, x: T)
    requires Distinct(s)
    ensures multiset(s)[x] <= 1
  {
    if s != [] {
      assert s == [s[0]] + s[1..];
      assert Distinct(s[1..]) by {
        forall i, j | 0 <= i < j < |s[1..]| ensures s[1..][i] != s[1..][j] {
          assert s[1..][i] == s[i + 1] && s[1..][j] == s[j + 1];
        }
      }
      DistinctCountsOnce(s[1..], x);
      if x == s[0] {
        assert x !in s[1..] by {
          forall k | 0 <= k < |s[1..]| ensures s[1..][k] != x {
            assert s[1..][k] == s[k + 1];
          }
        }
      }
    }
  }

  /** A reordering of a list without repetitions has none either. */
  lemma DistinctPermutation<T>(a: seq<T>, b: seq<T>)
    requires multiset(a) == multiset(b)
    requires Distinct(a)
    ensures Distinct(b)
  {
    forall i, j | 0 <= i < j < |b| ensures b[i] != b[j] {
      DistinctCountsOnce(a, b[i]);
      if b[i] == b[j] {
        RepeatCountsTwice(b, i, j);
      }
    }
  }

  lemma RepeatCountsTwice<T>(b: seq<T>, i: nat, j: nat)
    requires i < j < |b| && b[i] == b[j]
    ensures multiset(b)[b[i]] >= 2
  {
    assert b == b[..j] + [b[j]] + b[j + 1..];
    assert b[i] in b[..j];
  }

  /** `GROUP BY`: each value of `s` once, in order of first appearance. */
  function Dedup<T(==, !new)>(s: seq<T>): (r: seq<T>)
    ensures forall x :: x in r <==> x in s
    ensures Distinct(r)
    ensures |r| <= |s|
  {
    if s == [] then []
    else
      var r := Dedup(s[..|s| - 1]);
      var x := s[|s| - 1];
      assert s == s[..|s| - 1] + [x];
      if x in r then r else r + [x]
  }

  /** A reordering lists the same values. */
  lemma PermutationMembers<T>(a: seq<T>, b: seq<T>)
    requires multiset(a) == multiset(b)
    ensures forall x :: x in a <==> x in b
  {
    forall x ensures x in a <==> x in b {
      assert x in a <==> x in multiset(a);
      assert x in b <==> x in multiset(b);
    }
  }
}
