/**
 * Sequence operations shared by the in-memory handlers and the table model:
 * JavaScript's Array.prototype.filter and Array.prototype.slice, SQL's
 * LIMIT, and a stable sort by an integer key (ORDER BY / Array.prototype.sort).
 */
module Seqs {

  // ---------------------------------------------------------------- filter

  /** The elements of s that satisfy p, in their original order. */
  function Keep<T(!new)>(s: seq<T>, p: T -> bool): (r: seq<T>)
    ensures |r| <= |s|
    ensures forall x :: x in r <==> x in s && p(x)
    ensures multiset(r) <= multiset(s)
  {
    if s == [] then []
    else
      var rest := Keep(s[1..], p);
      assert s == [s[0]] + s[1..];
      if p(s[0]) then [s[0]] + rest else rest
  }

  /** Filtering a concatenation filters each part: the kept elements keep their order. */
  lemma {:induction false} KeepAppend<T(!new)>(a: seq<T>, b: seq<T>, p: T -> bool)
    ensures Keep(a + b, p) == Keep(a, p) + Keep(b, p)
  {
    if a == [] {
      assert a + b == b;
    } else {
      assert (a + b)[0] == a[0];
      assert (a + b)[1..] == a[1..] + b;
      KeepAppend(a[1..], b, p);
    }
  }

  /** Two filters in sequence are one filter by their conjunction. */
  lemma {:induction false} KeepKeep<T(!new)>(s: seq<T>, p: T -> bool, q: T -> bool, pq: T -> bool)
    requires forall x :: pq(x) == (p(x) && q(x))
    ensures Keep(Keep(s, p), q) == Keep(s, pq)
  {
    if s != [] {
      KeepKeep(s[1..], p, q, pq);
      if p(s[0]) {
        assert Keep(s, p) == [s[0]] + Keep(s[1..], p);
        assert Keep(s, p)[0] == s[0] && Keep(s, p)[1..] == Keep(s[1..], p);
      }
    }
  }

  /** Filters that agree on every element keep the same elements. */
  lemma {:induction false} KeepSame<T(!new)>(s: seq<T>, p: T -> bool, q: T -> bool)
    requires forall x :: p(x) == q(x)
    ensures Keep(s, p) == Keep(s, q)
  {
    if s != [] {
      KeepSame(s[1..], p, q);
    }
  }

  /** A filter that every element passes returns the sequence unchanged. */
  lemma {:induction false} KeepAll<T(!new)>(s: seq<T>, p: T -> bool)
    requires forall x :: x in s ==> p(x)
    ensures Keep(s, p) == s
  {
    if s != [] {
      assert s[0] in s;
      assert forall x :: x in s[1..] ==> x in s;
      KeepAll(s[1..], p);
      assert s == [s[0]] + s[1..];
    }
  }

  /** What a filter keeps and what its negation keeps add up to the whole sequence. */
  lemma {:induction false} KeepSplit<T(!new)>(s: seq<T>, p: T -> bool, notP: T -> bool)
    requires forall x :: notP(x) == !p(x)
    ensures |Keep(s, p)| + |Keep(s, notP)| == |s|
  {
    if s != [] {
      KeepSplit(s[1..], p, notP);
    }
  }

  // ------------------------------------------------------- distinct keys

  /** No two elements of s share a key. */
  ghost predicate DistinctBy<T, K>(s: seq<T>, key: T -> K) {
    forall i, j :: 0 <= i < j < |s| ==> key(s[i]) != key(s[j])
  }
  /** The tail of a sequence with distinct keys has distinct keys, none of them the head's. */
  lemma DistinctTail<T, K>(s: seq<T>, key: T -> K)
    requires s != [] && DistinctBy(s, key)
    ensures DistinctBy(s[1..], key)
    ensures forall x :: x in s[1..] ==> key(x) != key(s[0])
  {
    var tail := s[1..];
    forall i, j | 0 <= i < j < |tail| ensures key(tail[i]) != key(tail[j]) {
      assert tail[i] == s[i + 1] && tail[j] == s[j + 1];
    }
    forall x | x in tail ensures key(x) != key(s[0]) {
      var k :| 0 <= k < |tail| && tail[k] == x;
      assert s[k + 1] == x;
    }
  }
  /** A new key in front of distinct keys keeps them distinct. */
  lemma ConsDistinct<T, K>(x: T, rest: seq<T>, key: T -> K)
    requires DistinctBy(rest, key)
    requires forall y :: y in rest ==> key(y) != key(x)
    ensures DistinctBy([x] + rest, key)
  {
    var r := [x] + rest;
    forall i, j | 0 <= i < j < |r| ensures key(r[i]) != key(r[j]) {
      assert r[j] == rest[j - 1];
      if i > 0 {
        assert r[i] == rest[i - 1];
      }
    }
  }

  /** Filtering keeps keys distinct. */
  lemma {:induction false} KeepDistinctBy<T(!new), K>(s: seq<T>, p: T -> bool, key: T -> K)
    requires DistinctBy(s, key)
    ensures DistinctBy(Keep(s, p), key)
  {
    if s != [] {
      DistinctTail(s, key);
      KeepDistinctBy(s[1..], p, key);
      var rest := Keep(s[1..], p);
      if p(s[0]) {
        ConsDistinct(s[0], rest, key);
      }
    }
  }

  // ----------------------------------------------------------- LIMIT, slice

  /** The length of `Limit(s, n)` for a sequence of length len. */
  function LimitLength(len: nat, n: int): nat {
    if n < 0 || n >= len then len else n
  }

  /** SQLite's LIMIT n: the first n rows; a negative n means no limit. */
  function Limit<T>(s: seq<T>, n: int): (r: seq<T>)
    ensures |r| == LimitLength(|s|, n)
    ensures r == s[..|r|]
  {
    if n < 0 || n >= |s| then s else s[..n]
  }

  /** How Array.prototype.slice normalises an index for a sequence of length len. */
  function SliceIndex(i: int, len: nat): (k: nat)
    ensures k <= len
    ensures 0 <= i <= len ==> k == i
  {
    if i < 0 then (if len + i < 0 then 0 else len + i)
    else if i > len then len
    else i
  }

  /** Array.prototype.slice(start, end), including its negative-index behaviour. */
  function JsSlice<T>(s: seq<T>, start: int, end: int): (r: seq<T>)
    ensures |r| <= |s|
    ensures 0 <= start <= end ==> r == s[Min(start, |s|)..Min(end, |s|)]
  {
    var b := SliceIndex(start, |s|);
    var e := SliceIndex(end, |s|);
    if e <= b then [] else s[b..e]
  }

  /** A slice holds only elements of the sequence, in the same relative order. */
  lemma JsSliceOf<T>(s: seq<T>, start: int, end: int, key: T -> int)
    ensures forall x :: x in JsSlice(s, start, end) ==> x in s
    ensures SortedBy(s, key) ==> SortedBy(JsSlice(s, start, end), key)
  {
    var b := SliceIndex(start, |s|);
    var e := SliceIndex(end, |s|);
    if b < e {
      var r := s[b..e];
      assert forall i :: 0 <= i < |r| ==> r[i] == s[b + i];
    }
  }

  function Min(a: int, b: int): int {
    if a <= b then a else b
  }

  /** The sequence in reverse order (Array.prototype.reverse). */
  function Reverse<T>(s: seq<T>): (r: seq<T>)
    ensures |r| == |s|
    ensures forall i :: 0 <= i < |s| ==> r[i] == s[|s| - 1 - i]
  {
    if s == [] then [] else Reverse(s[1..]) + [s[0]]
  }

  lemma {:induction false} ReverseMultiset<T>(s: seq<T>)
    ensures multiset(Reverse(s)) == multiset(s)
  {
    if s != [] {
      ReverseMultiset(s[1..]);
      assert s == [s[0]] + s[1..];
    }
  }

  /** f applied to each element, in order, built by appending one result at a time. */
  function MapSeq<A, B>(s: seq<A>, f: A -> B): (r: seq<B>)
    ensures |r| == |s|
    ensures forall i :: 0 <= i < |s| ==> r[i] == f(s[i])
  {
    if s == [] then [] else MapSeq(s[..|s| - 1], f) + [f(s[|s| - 1])]
  }

  // ----------------------------------------------------------------- sort

  /** s is ordered by key, smallest first. */
  ghost predicate SortedBy<T>(s: seq<T>, key: T -> int) {
    forall i, j :: 0 <= i < j < |s| ==> key(s[i]) <= key(s[j])
  }

  /** Inserts x before the first element whose key is not smaller than x's. */
  function InsertBy<T>(x: T, s: seq<T>, key: T -> int): (r: seq<T>)
    ensures |r| == |s| + 1
  {
    if s == [] then [x]
    else if key(x) <= key(s[0]) then [x] + s
    else [s[0]] + InsertBy(x, s[1..], key)
  }

  lemma {:induction false} InsertByMultiset<T>(x: T, s: seq<T>, key: T -> int)
    ensures multiset(InsertBy(x, s, key)) == multiset(s) + multiset{x}
  {
    if s != [] && key(x) > key(s[0]) {
      InsertByMultiset(x, s[1..], key);
      assert s == [s[0]] + s[1..];
    }
  }

  /** Every key in the inserted sequence is at least the smaller of x's key and s's first key. */
  lemma InsertByLowerBound<T>(x: T, s: seq<T>, key: T -> int, lo: int)
    requires SortedBy(s, key)
    requires lo <= key(x)
    requires forall i :: 0 <= i < |s| ==> lo <= key(s[i])
    ensures forall i :: 0 <= i < |InsertBy(x, s, key)| ==> lo <= key(InsertBy(x, s, key)[i])
  {
    InsertByMultiset(x, s, key);
    var r := InsertBy(x, s, key);
    forall i | 0 <= i < |r| ensures lo <= key(r[i]) {
      assert r[i] in multiset(r);
      if r[i] != x {
        assert r[i] in multiset(s);
        var j :| 0 <= j < |s| && s[j] == r[i];
      }
    }
  }

  lemma {:induction false} InsertBySorted<T>(x: T, s: seq<T>, key: T -> int)
    requires SortedBy(s, key)
    ensures SortedBy(InsertBy(x, s, key), key)
  {
    if s != [] && key(x) > key(s[0]) {
      var tail := s[1..];
      assert SortedBy(tail, key) by {
        forall i, j | 0 <= i < j < |tail| ensures key(tail[i]) <= key(tail[j]) {
          assert tail[i] == s[i + 1] && tail[j] == s[j + 1];
        }
      }
      InsertBySorted(x, tail, key);
      assert forall i :: 0 <= i < |tail| ==> key(s[0]) <= key(tail[i]) by {
        forall i | 0 <= i < |tail| ensures key(s[0]) <= key(tail[i]) {
          assert tail[i] == s[i + 1];
        }
      }
      InsertByLowerBound(x, tail, key, key(s[0]));
      var rest := InsertBy(x, tail, key);
      var r := [s[0]] + rest;
      assert r == InsertBy(x, s, key);
      forall i, j | 0 <= i < j < |r| ensures key(r[i]) <= key(r[j]) {
        assert r[j] == rest[j - 1];
        if i > 0 {
          assert r[i] == rest[i - 1];
        }
      }
    } else if s != [] {
      var r := [x] + s;
      forall i, j | 0 <= i < j < |r| ensures key(r[i]) <= key(r[j]) {
        assert r[j] == s[j - 1];
        if i > 0 {
          assert r[i] == s[i - 1];
        } else {
          assert key(s[0]) <= key(s[j - 1]) || j - 1 == 0;
        }
      }
    }
  }

  /** A stable insertion sort by key, smallest first: rows with equal keys keep their order. */
  function SortBy<T>(s: seq<T>, key: T -> int): (r: seq<T>)
    ensures |r| == |s|
  {
    if s == [] then [] else InsertBy(s[0], SortBy(s[1..], key), key)
  }

  /** SortBy returns a permutation of its input, ordered by key. */
  lemma {:induction false} SortBySorted<T>(s: seq<T>, key: T -> int)
    ensures SortedBy(SortBy(s, key), key)
    ensures multiset(SortBy(s, key)) == multiset(s)
    ensures |SortBy(s, key)| == |s|
  {
    if s != [] {
      SortBySorted(s[1..], key);
      InsertBySorted(s[0], SortBy(s[1..], key), key);
      InsertByMultiset(s[0], SortBy(s[1..], key), key);
      assert s == [s[0]] + s[1..];
      assert |multiset(SortBy(s, key))| == |multiset(s)|;
    }
  }

  /** The first n rows of a sort are in order and are rows of the pool. */
  lemma LimitOfSortOf<T>(pool: seq<T>, n: int, key: T -> int)
    ensures SortedBy(Limit(SortBy(pool, key), n), key)
    ensures forall x :: x in Limit(SortBy(pool, key), n) ==> x in pool
  {
    var sorted := SortBy(pool, key);
    SortBySorted(pool, key);
    var r := Limit(sorted, n);
    forall x | x in r ensures x in pool {
      assert x in sorted;
      assert x in multiset(sorted);
    }
  }

  /** A slice of a sort is in order and holds rows of the pool. */
  lemma SliceOfSortOf<T>(pool: seq<T>, start: int, end: int, key: T -> int)
    ensures SortedBy(JsSlice(SortBy(pool, key), start, end), key)
    ensures forall x :: x in JsSlice(SortBy(pool, key), start, end) ==> x in pool
  {
    var sorted := SortBy(pool, key);
    SortBySorted(pool, key);
    JsSliceOf(sorted, start, end, key);
    forall x | x in JsSlice(sorted, start, end) ensures x in pool {
      assert x in multiset(sorted);
    }
  }

  // ------------------------------------------------------ top-n selection

  /**
   * r holds n rows of pool (all of them when n is negative or too large)
   * with the smallest keys: no row left out has a smaller key than a row taken.
   */
  ghost predicate TopBy<T>(r: seq<T>, pool: seq<T>, n: int, key: T -> int) {
    && multiset(r) <= multiset(pool)
    && |r| == LimitLength(|pool|, n)
    && forall x, y :: x in r && y in multiset(pool) - multiset(r) ==> key(x) <= key(y)
  }

  /** Sorting by key and keeping the first n rows selects the n smallest keys. */
  lemma {:induction false} LimitOfSortIsTop<T>(pool: seq<T>, n: int, key: T -> int)
    ensures TopBy(Limit(SortBy(pool, key), n), pool, n, key)
  {
    var sorted := SortBy(pool, key);
    SortBySorted(pool, key);
    var r := Limit(sorted, n);
    var k := |r|;
    var rest := sorted[k..];
    assert sorted == r + rest;
    assert multiset(pool) == multiset(r) + multiset(rest);
    assert multiset(pool) - multiset(r) == multiset(rest);
    SortedPrefixBelowRest(sorted, k, key);
    forall x, y | x in r && y in multiset(pool) - multiset(r)
      ensures key(x) <= key(y)
    {
      assert y in rest;
    }
  }

  /** In a sorted sequence, no key before index k exceeds a key from k on. */
  lemma SortedPrefixBelowRest<T>(sorted: seq<T>, k: nat, key: T -> int)
    requires SortedBy(sorted, key) && k <= |sorted|
    ensures forall x, y :: x in sorted[..k] && y in sorted[k..] ==> key(x) <= key(y)
  {
    forall x, y | x in sorted[..k] && y in sorted[k..] ensures key(x) <= key(y) {
      var i :| 0 <= i < k && sorted[..k][i] == x;
      var j :| 0 <= j < |sorted| - k && sorted[k..][j] == y;
      assert sorted[i] == x && sorted[k + j] == y;
    }
  }
}
