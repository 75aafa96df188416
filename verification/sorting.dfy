/** The ORDER BY clauses of the read queries, as a sort on a lexicographic pair of integer
    keys. SQL leaves the order among rows with equal keys open; the contracts here promise
    only what ORDER BY promises: the rows are a permutation of the input, in key order. */
module Sorting {

  /** A sort key: compared on `primary` first, then on `secondary`, both ascending. A
      descending SQL column is written as its negation. */
  datatype Key = Key(primary: int, secondary: int)

  predicate KeyLe(a: Key, b: Key)
  {
    a.primary < b.primary || (a.primary == b.primary && a.secondary <= b.secondary)
  }

  ghost predicate SortedBy<T>(s: seq<T>, key: T -> Key)
  {
    forall i, j :: 0 <= i < j < |s| ==> KeyLe(key(s[i]), key(s[j]))
  }

  /** Every element of `s` has a key at least `k`. */
  ghost predicate AllAtLeast<T>(s: seq<T>, key: T -> Key, k: Key)
  {
    forall i :: 0 <= i < |s| ==> KeyLe(k, key(s[i]))
  }

  lemma {:induction false} AtLeastByMultiset<T>(s: seq<T>, t: seq<T>, key: T -> Key, k: Key)
    requires multiset(s) == multiset(t)
    requires AllAtLeast(t, key, k)
    ensures AllAtLeast(s, key, k)
  {
    forall i | 0 <= i < |s|
      ensures KeyLe(k, key(s[i]))
    {
      assert s[i] in multiset(t);
      var j :| 0 <= j < |t| && t[j] == s[i];
    }
  }

  /** A permutation has the same elements. */
  lemma {:induction false} SameElements<T>(a: seq<T>, b: seq<T>)
    requires multiset(a) == multiset(b)
    ensures forall x :: x in a <==> x in b
  {
    forall x
      ensures x in a <==> x in b
    {
      assert x in a <==> x in multiset(a);
      assert x in b <==> x in multiset(b);
    }
  }

  /** Puts `x` into the sorted `s` in front of the first element whose key is not smaller. */
  function Insert<T>(x: T, s: seq<T>, key: T -> Key): (r: seq<T>)
    requires SortedBy(s, key)
    ensures multiset(r) == multiset(s) + multiset{x}
    ensures SortedBy(r, key)
  {
    if s == [] then [x]
    else if KeyLe(key(x), key(s[0])) then [x] + s
    else
      var rest := Insert(x, s[1..], key);
      InsertBehindHead(x, s, rest, key);
      [s[0]] + rest
  }

  /** The step of Insert that keeps the head of `s` in front. */
  lemma {:induction false} InsertBehindHead<T>(x: T, s: seq<T>, rest: seq<T>, key: T -> Key)
    requires s != [] && SortedBy(s, key) && !KeyLe(key(x), key(s[0]))
    requires multiset(rest) == multiset(s[1..]) + multiset{x} && SortedBy(rest, key)
    ensures multiset([s[0]] + rest) == multiset(s) + multiset{x}
    ensures SortedBy([s[0]] + rest, key)
  {
    assert s == [s[0]] + s[1..];
    assert AllAtLeast(s[1..] + [x], key, key(s[0]));
    assert multiset(rest) == multiset(s[1..] + [x]);
    AtLeastByMultiset(rest, s[1..] + [x], key, key(s[0]));
  }

  /** Insertion sort: the result is the input's rows, rearranged into key order. */
  function SortBy<T>(s: seq<T>, key: T -> Key): (r: seq<T>)
    ensures multiset(r) == multiset(s)
    ensures |r| == |s|
    ensures SortedBy(r, key)
  {
    if s == [] then []
    else
      assert s == [s[0]] + s[1..];
      Insert(s[0], SortBy(s[1..], key), key)
  }

  /** `LIMIT n`. */
  function Take<T>(s: seq<T>, n: nat): (r: seq<T>)
    ensures |r| == if |s| < n then |s| else n
    ensures r == s[..|r|]
  {
    if |s| <= n then s else s[..n]
  }

  /** `LIMIT n` after `ORDER BY` keeps the least rows: each row it drops (one copy of it, as
      rows may repeat) has a key no smaller than every row it keeps. */
  lemma {:induction false} TakeKeepsLeast<T>(s: seq<T>, key: T -> Key, n: nat)
    requires SortedBy(s, key)
    ensures forall x :: multiset(Take(s, n))[x] <= multiset(s)[x]
    ensures forall x :: multiset(Take(s, n))[x] < multiset(s)[x] ==>
      forall i :: 0 <= i < |Take(s, n)| ==> KeyLe(key(Take(s, n)[i]), key(x))
    ensures |s| <= n ==> Take(s, n) == s
  {
    var r := Take(s, n);
    var rest := s[|r|..];
    assert s == r + rest;
    assert multiset(s) == multiset(r) + multiset(rest);
    forall x | multiset(r)[x] < multiset(s)[x]
      ensures forall i :: 0 <= i < |r| ==> KeyLe(key(r[i]), key(x))
    {
      assert x in multiset(rest);
      var k :| 0 <= k < |rest| && rest[k] == x;
      forall i | 0 <= i < |r|
        ensures KeyLe(key(r[i]), key(x))
      {
        assert r[i] == s[i] && x == s[|r| + k];
      }
    }
  }

  // ---------------------------------------------------------------------------
  // Distinct elements survive a permutation
  // ---------------------------------------------------------------------------

  ghost predicate Distinct<T>(s: seq<T>)
  {
    forall i, j :: 0 <= i < j < |s| ==> s[i] != s[j]
  }

  lemma {:induction false} DistinctCountsAtMostOne<T>(s: seq<T>, x: T)
    requires Distinct(s)
    ensures multiset(s)[x] <= 1
  {
    if s != [] {
      assert s == [s[0]] + s[1..];
      DistinctCountsAtMostOne(s[1..], x);
      if s[0] == x {
        assert x !in s[1..];
      }
    }
  }

  lemma {:induction false} RepeatCountsTwice<T>(s: seq<T>, i: nat, j: nat)
    requires i < j < |s| && s[i] == s[j]
    ensures multiset(s)[s[i]] >= 2
  {
    assert s == s[..j] + [s[j]] + s[j + 1..];
    assert s[..j][i] == s[i];
  }

  /** A permutation of a sequence without repeats has no repeats either. */
  lemma {:induction false} DistinctByMultiset<T>(a: seq<T>, b: seq<T>)
    requires multiset(a) == multiset(b) && Distinct(b)
    ensures Distinct(a)
  {
    forall i, j | 0 <= i < j < |a|
      ensures a[i] != a[j]
    {
      if a[i] == a[j] {
        RepeatCountsTwice(a, i, j);
        DistinctCountsAtMostOne(b, a[i]);
      }
    }
  }
}
