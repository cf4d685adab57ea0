/**
 * The array built-ins the store and the pages are written with, over
 * sequences: `filter`, `findIndex`/`find`, a stable descending `sort`
 * followed by `slice(0, n)`, and the "replace the first match or push"
 * update the save functions perform.
 */
module Seqs {
  import opened Wrappers

  function Min(a: int, b: int): int {
    if a <= b then a else b
  }

  // ---------------------------------------------------------------- filter

  /** `s.filter(p)` */
  function Filter<T(==,!new)>(s: seq<T>, p: T -> bool): (r: seq<T>)
    ensures |r| <= |s|
    ensures forall x :: x in r <==> x in s && p(x)
  {
    if s == [] then [] else (if p(s[0]) then [s[0]] else []) + Filter(s[1..], p)
  }

  /** Filtering keeps every copy of an element that passes, and no copy of one that does not. */
  lemma {:induction false} FilterMultiset<T(!new)>(s: seq<T>, p: T -> bool)
    ensures forall x :: multiset(Filter(s, p))[x] == if p(x) then multiset(s)[x] else 0
    decreases |s|
  {
    if s != [] {
      FilterMultiset(s[1..], p);
      assert s == [s[0]] + s[1..];
    }
  }

  /** `r` is `s` with some elements left out, the others in their order. */
  predicate IsSubsequence<T(==)>(r: seq<T>, s: seq<T>)
    decreases |s|
  {
    if r == [] then true
    else if s == [] then false
    else (r[0] == s[0] && IsSubsequence(r[1..], s[1..])) || IsSubsequence(r, s[1..])
  }

  lemma {:induction false} IsSubsequenceRefl<T>(s: seq<T>)
    ensures IsSubsequence(s, s)
    decreases |s|
  {
    if s != [] {
      IsSubsequenceRefl(s[1..]);
    }
  }

  /** Every element of a subsequence is an element of the whole. */
  lemma {:induction false} SubsequenceMembers<T>(r: seq<T>, s: seq<T>, x: T)
    requires IsSubsequence(r, s) && x in r
    ensures x in s
    decreases |s|
  {
    if r[0] == s[0] && IsSubsequence(r[1..], s[1..]) {
      if x != r[0] {
        assert x in r[1..];
        SubsequenceMembers(r[1..], s[1..], x);
      }
    } else {
      SubsequenceMembers(r, s[1..], x);
    }
  }

  /** `s.map(f)` */
  function MapSeq<A, B>(s: seq<A>, f: A -> B): (r: seq<B>)
    ensures |r| == |s| && forall i :: 0 <= i < |s| ==> r[i] == f(s[i])
  {
    seq(|s|, i requires 0 <= i < |s| => f(s[i]))
  }

  /** Mapping a concatenation maps each part. */
  lemma MapSeqAppend<A, B>(s: seq<A>, t: seq<A>, f: A -> B)
    ensures MapSeq(s + t, f) == MapSeq(s, f) + MapSeq(t, f)
  {
  }

  /** Filtering keeps the surviving elements in their original order. */
  lemma {:induction false} FilterIsSubsequence<T(!new)>(s: seq<T>, p: T -> bool)
    ensures IsSubsequence(Filter(s, p), s)
    decreases |s|
  {
    if s != [] {
      FilterIsSubsequence(s[1..], p);
      var r := Filter(s, p);
      if p(s[0]) {
        assert r[0] == s[0] && r[1..] == Filter(s[1..], p);
        assert IsSubsequence(r[1..], s[1..]);
      } else {
        assert r == Filter(s[1..], p);
      }
    }
  }

  /** When every element passes, filtering returns the sequence itself. */
  lemma {:induction false} FilterKeepsAll<T(!new)>(s: seq<T>, p: T -> bool)
    requires forall x :: x in s ==> p(x)
    ensures Filter(s, p) == s
    decreases |s|
  {
    if s != [] {
      FilterKeepsAll(s[1..], p);
      assert s == [s[0]] + s[1..];
    }
  }

  /** Filtering twice by the same test is filtering once. */
  lemma FilterIdempotent<T(!new)>(s: seq<T>, p: T -> bool)
    ensures Filter(Filter(s, p), p) == Filter(s, p)
  {
    FilterKeepsAll(Filter(s, p), p);
  }

  /** Filtering an extended sequence filters the extension separately. */
  lemma {:induction false} FilterSnoc<T(!new)>(s: seq<T>, x: T, p: T -> bool)
    ensures Filter(s + [x], p) == Filter(s, p) + (if p(x) then [x] else [])
    decreases |s|
  {
    if s == [] {
      assert [x][1..] == [];
    } else {
      var head, tail := if p(s[0]) then [s[0]] else [], if p(x) then [x] else [];
      assert (s + [x])[0] == s[0] && (s + [x])[1..] == s[1..] + [x];
      FilterSnoc(s[1..], x, p);
      assert Filter(s + [x], p) == head + (Filter(s[1..], p) + tail);
      assert head + (Filter(s[1..], p) + tail) == (head + Filter(s[1..], p)) + tail;
    }
  }

  // ---------------------------------------------------------------- ordering

  /** Non-increasing by `key`. */
  predicate SortedDesc<T>(s: seq<T>, key: T -> int) {
    forall i, j :: 0 <= i < j < |s| ==> key(s[i]) >= key(s[j])
  }

  /** A filtered sorted sequence is still sorted. */
  lemma {:induction false} FilterKeepsSorted<T(!new)>(s: seq<T>, p: T -> bool, key: T -> int)
    requires SortedDesc(s, key)
    ensures SortedDesc(Filter(s, p), key)
    decreases |s|
  {
    if s != [] {
      FilterKeepsSorted(s[1..], p, key);
      var rest := Filter(s[1..], p);
      forall y | y in rest
        ensures key(s[0]) >= key(y)
      {
        var j :| 0 <= j < |s[1..]| && s[1..][j] == y;
        assert s[j + 1] == y;
      }
    }
  }

  /**
   * Places `x` in front of the first element whose key is not larger, so that
   * `x` goes before the elements of `s` with an equal key.
   */
  function Insert<T>(x: T, s: seq<T>, key: T -> int): (r: seq<T>)
    ensures |r| == |s| + 1
    ensures multiset(r) == multiset(s) + multiset{x}
  {
    if s == [] then [x]
    else if key(x) >= key(s[0]) then [x] + s
    else
      assert s == [s[0]] + s[1..];
      [s[0]] + Insert(x, s[1..], key)
  }

  /**
   * `sort((a, b) => key(b) - key(a))`: a stable sort into non-increasing key
   * order (an insertion sort that keeps equal keys in their original order).
   */
  function SortDesc<T>(s: seq<T>, key: T -> int): (r: seq<T>)
    ensures |r| == |s|
    ensures multiset(r) == multiset(s)
  {
    if s == [] then []
    else
      assert s == [s[0]] + s[1..];
      Insert(s[0], SortDesc(s[1..], key), key)
  }

  lemma {:induction false} InsertSorted<T>(x: T, s: seq<T>, key: T -> int)
    requires SortedDesc(s, key)
    ensures SortedDesc(Insert(x, s, key), key)
    decreases |s|
  {
    if s != [] && key(x) < key(s[0]) {
      InsertSorted(x, s[1..], key);
      var tail := Insert(x, s[1..], key);
      forall y | y in tail
        ensures key(s[0]) >= key(y)
      {
        assert y in multiset(tail);
        if y != x {
          assert y in multiset(s[1..]);
          var j :| 0 <= j < |s[1..]| && s[1..][j] == y;
          assert s[j + 1] == y;
        }
      }
    }
  }

  /** The sort yields a sequence in non-increasing key order. */
  lemma {:induction false} SortDescSorted<T>(s: seq<T>, key: T -> int)
    ensures SortedDesc(SortDesc(s, key), key)
    decreases |s|
  {
    if s != [] {
      SortDescSorted(s[1..], key);
      InsertSorted(s[0], SortDesc(s[1..], key), key);
    }
  }

  /**
   * `[...s].sort(byKeyDesc).slice(0, n)`: the `n` elements with the largest
   * keys, largest first. Anything left out has a key no larger than every
   * key taken.
   */
  function TopN<T(==,!new)>(s: seq<T>, key: T -> int, n: nat): (r: seq<T>)
    ensures |r| == Min(n, |s|)
    ensures r == SortDesc(s, key)[..|r|]
    ensures multiset(r) <= multiset(s)
    ensures |s| <= n ==> multiset(r) == multiset(s)
    ensures SortedDesc(r, key)
    ensures forall x, y :: x in s && x !in r && y in r ==> key(x) <= key(y)
  {
    SortDescSorted(s, key);
    SortedPrefix(s, SortDesc(s, key), key, Min(n, |s|));
    SortDesc(s, key)[..Min(n, |s|)]
  }

  /**
   * The first `m` elements of a sorted permutation of `s` are sorted, come
   * from `s`, and have keys no smaller than those of the elements left out.
   */
  lemma SortedPrefix<T>(s: seq<T>, sorted: seq<T>, key: T -> int, m: nat)
    requires multiset(sorted) == multiset(s) && SortedDesc(sorted, key) && m <= |sorted|
    ensures multiset(sorted[..m]) <= multiset(s)
    ensures m == |s| ==> multiset(sorted[..m]) == multiset(s)
    ensures SortedDesc(sorted[..m], key)
    ensures forall x, y :: x in s && x !in sorted[..m] && y in sorted[..m] ==> key(x) <= key(y)
  {
    PrefixSubMultiset(sorted, m);
    PrefixDominates(sorted, key, m);
    forall x | x in s
      ensures x in sorted
    {
      assert x in multiset(s);
    }
  }

  /** A prefix holds part of the multiset of the whole, and all of it when it is the whole. */
  lemma PrefixSubMultiset<T>(s: seq<T>, m: nat)
    requires m <= |s|
    ensures multiset(s[..m]) <= multiset(s)
    ensures m == |s| ==> multiset(s[..m]) == multiset(s)
  {
    assert s == s[..m] + s[m..];
  }

  /** In a sorted sequence, an element outside a prefix has a key no larger than any inside it. */
  lemma PrefixDominates<T>(s: seq<T>, key: T -> int, m: nat)
    requires m <= |s| && SortedDesc(s, key)
    ensures forall x, y :: x in s && x !in s[..m] && y in s[..m] ==> key(x) <= key(y)
  {
    forall x, y | x in s && x !in s[..m] && y in s[..m]
      ensures key(x) <= key(y)
    {
      var j :| 0 <= j < |s| && s[j] == x;
      var k :| 0 <= k < m && s[..m][k] == y;
      assert forall i :: 0 <= i < m ==> s[..m][i] == s[i];
      assert j >= m;
      assert s[k] == y;
    }
  }

  /** Three elements with increasing keys sort into reverse order. */
  lemma SortThree<T>(a: T, b: T, c: T, key: T -> int)
    requires key(a) < key(b) < key(c)
    ensures SortDesc([a, b, c], key) == [c, b, a]
  {
    SortTwo(b, c, key);
    assert [a, b, c][1..] == [b, c];
    assert Insert(a, [b], key) == [b, a] by { assert [b][1..] == []; }
    assert Insert(a, [c, b], key) == [c] + Insert(a, [b], key) by { assert [c, b][1..] == [b]; }
  }

  lemma SortTwo<T>(b: T, c: T, key: T -> int)
    requires key(b) < key(c)
    ensures SortDesc([b, c], key) == [c, b]
  {
    assert [b, c][1..] == [c] && [c][1..] == [];
  }

  // ---------------------------------------------------------------- lookup by key

  /** `s.findIndex(x => key(x) === k)`: the first index with that key, or -1. */
  function FirstIndex<T, K(==)>(s: seq<T>, key: T -> K, k: K): (i: int)
    ensures -1 <= i < |s|
    ensures i >= 0 ==> key(s[i]) == k && forall j :: 0 <= j < i ==> key(s[j]) != k
    ensures i < 0 ==> forall j :: 0 <= j < |s| ==> key(s[j]) != k
  {
    if s == [] then -1
    else if key(s[0]) == k then 0
    else
      var i := FirstIndex(s[1..], key, k);
      if i < 0 then -1 else i + 1
  }

  /** Appending an element moves no first index; it can only supply a missing one. */
  lemma FirstIndexSnoc<T, K>(s: seq<T>, x: T, key: T -> K, k: K)
    ensures FirstIndex(s + [x], key, k) ==
              if FirstIndex(s, key, k) >= 0 then FirstIndex(s, key, k)
              else if key(x) == k then |s| else -1
  {
    var i, i' := FirstIndex(s, key, k), FirstIndex(s + [x], key, k);
    assert forall j :: 0 <= j < |s| ==> (s + [x])[j] == s[j];
    if i >= 0 {
      assert key((s + [x])[i]) == k;
    } else if key(x) == k {
      assert key((s + [x])[|s|]) == k;
    }
  }

  /** `s.find(x => key(x) === k)`: the first element with that key, if any. */
  function Find<T, K(==)>(s: seq<T>, key: T -> K, k: K): (r: Option<T>)
    ensures r.None? <==> forall j :: 0 <= j < |s| ==> key(s[j]) != k
    ensures r.Some? ==> exists j :: 0 <= j < |s| && s[j] == r.value && key(s[j]) == k
                                   && forall i :: 0 <= i < j ==> key(s[i]) != k
  {
    var i := FirstIndex(s, key, k);
    if i < 0 then None else Some(s[i])
  }

  /**
   * The save operation: overwrite the element at the first index with `x`'s key,
   * or push `x` when no element has it.
   */
  function Upsert<T, K(==)>(s: seq<T>, x: T, key: T -> K): (r: seq<T>)
    ensures x in r
    ensures |r| == if exists j :: 0 <= j < |s| && key(s[j]) == key(x) then |s| else |s| + 1
  {
    var i := FirstIndex(s, key, key(x));
    if i >= 0 then
      assert s[i := x][i] == x;
      s[i := x]
    else
      assert (s + [x])[|s|] == x;
      s + [x]
  }

  /** Saving a key already present replaces its first holder and nothing else. */
  lemma UpsertReplaces<T, K>(s: seq<T>, x: T, key: T -> K)
    requires exists j :: 0 <= j < |s| && key(s[j]) == key(x)
    ensures var i := FirstIndex(s, key, key(x));
      && |Upsert(s, x, key)| == |s|
      && Upsert(s, x, key)[i] == x
      && forall j :: 0 <= j < |s| && j != i ==> Upsert(s, x, key)[j] == s[j]
  {
  }

  /** Saving a new key appends at the end and leaves the rest untouched. */
  lemma UpsertAppends<T, K>(s: seq<T>, x: T, key: T -> K)
    requires forall j :: 0 <= j < |s| ==> key(s[j]) != key(x)
    ensures Upsert(s, x, key) == s + [x]
    ensures |Upsert(s, x, key)| == |s| + 1
  {
  }

  /** After saving `x`, looking up `x`'s key yields `x`. */
  lemma UpsertThenFind<T, K>(s: seq<T>, x: T, key: T -> K)
    ensures Find(Upsert(s, x, key), key, key(x)) == Some(x)
  {
    var i := FirstIndex(s, key, key(x));
    var r := Upsert(s, x, key);
    var i' := FirstIndex(r, key, key(x));
    if i >= 0 {
      assert key(r[i]) == key(x);
      assert forall j :: 0 <= j < i ==> key(r[j]) == key(s[j]);
    } else {
      assert key(r[|s|]) == key(x);
      assert forall j :: 0 <= j < |s| ==> key(r[j]) == key(s[j]);
    }
  }

  /** Saving `x` leaves the lookups of every other key as they were. */
  lemma UpsertKeepsOthers<T, K>(s: seq<T>, x: T, key: T -> K, k: K)
    requires k != key(x)
    ensures Find(Upsert(s, x, key), key, k) == Find(s, key, k)
  {
    var i := FirstIndex(s, key, key(x));
    var r := Upsert(s, x, key);
    var a, b := FirstIndex(r, key, k), FirstIndex(s, key, k);
    assert forall j :: 0 <= j < |s| ==> (key(r[j]) == k <==> key(s[j]) == k);
    if b >= 0 {
      assert key(r[b]) == k;
    }
    if a >= 0 {
      assert a < |s| ==> key(s[a]) == k;
    }
  }

  /** The delete operation: `s.filter(x => key(x) !== k)`. */
  function RemoveKey<T(==,!new), K(==)>(s: seq<T>, key: T -> K, k: K): (r: seq<T>)
    ensures forall x :: x in r <==> x in s && key(x) != k
    ensures IsSubsequence(r, s)
    ensures forall x :: multiset(r)[x] == if key(x) != k then multiset(s)[x] else 0
  {
    FilterIsSubsequence(s, x => key(x) != k);
    FilterMultiset(s, x => key(x) != k);
    Filter(s, x => key(x) != k)
  }

  /** Deleting a key twice is deleting it once. */
  lemma RemoveKeyIdempotent<T(!new), K>(s: seq<T>, key: T -> K, k: K)
    ensures RemoveKey(RemoveKey(s, key, k), key, k) == RemoveKey(s, key, k)
  {
    FilterIdempotent(s, x => key(x) != k);
  }

  // ---------------------------------------------------------------- unique keys

  /** No two elements share a key: the store's ids are unique within a collection. */
  predicate UniqueKeys<T, K(==)>(s: seq<T>, key: T -> K) {
    forall i, j :: 0 <= i < j < |s| ==> key(s[i]) != key(s[j])
  }

  /** Saving keeps the keys unique: an existing key is overwritten in place, a new one appended. */
  lemma UpsertKeepsUnique<T, K>(s: seq<T>, x: T, key: T -> K)
    requires UniqueKeys(s, key)
    ensures UniqueKeys(Upsert(s, x, key), key)
  {
    if FirstIndex(s, key, key(x)) >= 0 {
      UpsertReplaces(s, x, key);
    } else {
      UpsertAppends(s, x, key);
    }
  }

  /** Leaving elements out keeps the keys unique. */
  lemma {:induction false} SubsequenceKeepsUnique<T, K>(r: seq<T>, s: seq<T>, key: T -> K)
    requires IsSubsequence(r, s) && UniqueKeys(s, key)
    ensures UniqueKeys(r, key)
    decreases |s|
  {
    if r != [] {
      assert UniqueKeys(s[1..], key) by {
        forall i, j | 0 <= i < j < |s[1..]|
          ensures key(s[1..][i]) != key(s[1..][j])
        {
          assert s[1..][i] == s[i + 1] && s[1..][j] == s[j + 1];
        }
      }
      if r[0] == s[0] && IsSubsequence(r[1..], s[1..]) {
        SubsequenceKeepsUnique(r[1..], s[1..], key);
        forall j | 0 < j < |r|
          ensures key(r[0]) != key(r[j])
        {
          assert r[j] == r[1..][j - 1];
          SubsequenceMembers(r[1..], s[1..], r[j]);
          var m :| 0 <= m < |s[1..]| && s[1..][m] == r[j];
          assert s[m + 1] == r[j];
        }
        forall i, j | 0 <= i < j < |r|
          ensures key(r[i]) != key(r[j])
        {
          if i > 0 {
            assert r[i] == r[1..][i - 1] && r[j] == r[1..][j - 1];
          }
        }
      } else {
        SubsequenceKeepsUnique(r, s[1..], key);
      }
    }
  }

  /** Deleting keeps the keys unique. */
  lemma RemoveKeyKeepsUnique<T(!new), K>(s: seq<T>, key: T -> K, k: K)
    requires UniqueKeys(s, key)
    ensures UniqueKeys(RemoveKey(s, key, k), key)
  {
    SubsequenceKeepsUnique(RemoveKey(s, key, k), s, key);
  }

  /** With unique keys, the lookup finds an element exactly when it is the one holding the key. */
  lemma FindUnique<T, K>(s: seq<T>, key: T -> K, k: K, x: T)
    requires UniqueKeys(s, key)
    ensures Find(s, key, k) == Some(x) <==> x in s && key(x) == k
  {
    if x in s && key(x) == k {
      var m :| 0 <= m < |s| && s[m] == x;
      var i := FirstIndex(s, key, k);
      assert i >= 0 && key(s[i]) == key(s[m]);
    }
  }
}
