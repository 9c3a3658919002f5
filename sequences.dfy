/** Order-preserving operations on finite sequences: the `filter`, the keyed
    `map` and the `slice` that the organizer applies to its ordered record
    collections, with the facts about them that the collection operations use. */
module Sequences {

  function Min(a: int, b: int): int { if a <= b then a else b }

  /** `r` can be obtained from `s` by deleting elements, keeping the order. */
  ghost predicate IsSubsequence<T>(r: seq<T>, s: seq<T>)
    decreases |s|
  {
    r == [] ||
    (s != [] && ((r[0] == s[0] && IsSubsequence(r[1..], s[1..])) || IsSubsequence(r, s[1..])))
  }

  /** Each element of `after` is the one at the same place in `before`, or has
      the key `k`. */
  predicate UntouchedOrKeyed<T(==), K(==)>(before: seq<T>, after: seq<T>, key: T -> K, k: K) {
    forall i :: 0 <= i < |after| ==> (i < |before| && after[i] == before[i]) || key(after[i]) == k
  }

  /** No value occurs twice. */
  ghost predicate Distinct<K>(s: seq<K>) {
    forall i, j :: 0 <= i < j < |s| ==> s[i] != s[j]
  }

  /** The key of every element, in order (the record ids of a collection). */
  function Keys<T, K>(s: seq<T>, key: T -> K): seq<K> {
    seq(|s|, i requires 0 <= i < |s| => key(s[i]))
  }

  /** `s.filter(keep)`: the elements of `s` that satisfy `keep`, in their order. */
  function Filter<T(!new)>(s: seq<T>, keep: T -> bool): (r: seq<T>)
    ensures |r| <= |s|
    ensures forall x :: x in r <==> x in s && keep(x)
  {
    if s == [] then []
    else
      assert s == [s[0]] + s[1..];
      if keep(s[0]) then [s[0]] + Filter(s[1..], keep) else Filter(s[1..], keep)
  }

  /** `s.slice(0, n)`: the first `n` elements, or all of `s` when it is shorter. */
  function Take<T>(s: seq<T>, n: nat): (r: seq<T>)
    ensures |r| == Min(n, |s|)
    ensures r <= s
  {
    s[..Min(n, |s|)]
  }

  /** `s.map(x => key(x) === k ? f(x) : x)`: every element with key `k` is replaced
      by its image under `f`; all others stay where they are. */
  function UpdateKey<T, K(==)>(s: seq<T>, key: T -> K, k: K, f: T -> T): (r: seq<T>)
    ensures |r| == |s|
    ensures forall i :: 0 <= i < |s| ==> r[i] == if key(s[i]) == k then f(s[i]) else s[i]
  {
    if s == [] then []
    else [if key(s[0]) == k then f(s[0]) else s[0]] + UpdateKey(s[1..], key, k, f)
  }

  /** The predicate `x => key(x) !== k` of a delete-by-key filter. */
  function KeyIsNot<T, K(==)>(key: T -> K, k: K): T -> bool {
    x => key(x) != k
  }

  /** `s.filter(x => key(x) !== k)`: delete every element with key `k`. */
  function RemoveKey<T(!new), K(==)>(s: seq<T>, key: T -> K, k: K): (r: seq<T>)
    ensures forall x :: x in r <==> x in s && key(x) != k
    ensures forall x :: multiset(r)[x] == if key(x) != k then multiset(s)[x] else 0
    ensures IsSubsequence(r, s)
    ensures k !in Keys(r, key)
    ensures Distinct(Keys(s, key)) ==> Distinct(Keys(r, key))
  {
    var keep := KeyIsNot(key, k);
    FilterCounts(s, keep);
    FilterIsSubsequence(s, keep);
    FilterKeepsDistinctKeys(s, keep, key);
    var r := Filter(s, keep);
    assert forall i :: 0 <= i < |r| ==> r[i] in r && Keys(r, key)[i] == key(r[i]);
    r
  }

  lemma {:induction false} FilterIsSubsequence<T(!new)>(s: seq<T>, keep: T -> bool)
    ensures IsSubsequence(Filter(s, keep), s)
  {
    if s != [] {
      FilterIsSubsequence(s[1..], keep);
      var r := Filter(s, keep);
      if keep(s[0]) {
        assert r[0] == s[0] && r[1..] == Filter(s[1..], keep);
      }
    }
  }

  /** `filter` keeps its whole input exactly when every element passes, and
      nothing exactly when none does. */
  lemma {:induction false} FilterLength<T(!new)>(s: seq<T>, keep: T -> bool)
    ensures |Filter(s, keep)| == |s| <==> forall x :: x in s ==> keep(x)
    ensures |Filter(s, keep)| == 0 <==> forall x :: x in s ==> !keep(x)
  {
    if s != [] {
      FilterLength(s[1..], keep);
      assert s == [s[0]] + s[1..];
      assert forall x :: x in s <==> x == s[0] || x in s[1..];
    }
  }

  /** `filter` keeps every copy of a kept element and no copy of a rejected one. */
  lemma {:induction false} FilterCounts<T(!new)>(s: seq<T>, keep: T -> bool)
    ensures forall x :: multiset(Filter(s, keep))[x] == if keep(x) then multiset(s)[x] else 0
  {
    if s != [] {
      FilterCounts(s[1..], keep);
      assert s == [s[0]] + s[1..];
      assert multiset(s) == multiset([s[0]]) + multiset(s[1..]);
    }
  }

  lemma {:induction false} FilterAppend<T(!new)>(s: seq<T>, t: seq<T>, keep: T -> bool)
    ensures Filter(s + t, keep) == Filter(s, keep) + Filter(t, keep)
  {
    if s != [] {
      assert (s + t)[1..] == s[1..] + t;
      FilterAppend(s[1..], t, keep);
    } else {
      assert s + t == t;
    }
  }

  /** Filtering twice by the same predicate is filtering once. */
  lemma {:induction false} FilterIdempotent<T(!new)>(s: seq<T>, keep: T -> bool)
    ensures Filter(Filter(s, keep), keep) == Filter(s, keep)
  {
    if s != [] {
      FilterIdempotent(s[1..], keep);
      if keep(s[0]) {
        var r := [s[0]] + Filter(s[1..], keep);
        assert r[0] == s[0] && r[1..] == Filter(s[1..], keep);
      }
    }
  }

  /** A filter that rejects nothing in `s` returns `s` itself. */
  lemma {:induction false} FilterKeepsAll<T(!new)>(s: seq<T>, keep: T -> bool)
    requires forall x :: x in s ==> keep(x)
    ensures Filter(s, keep) == s
  {
    if s != [] {
      assert s[0] in s;
      assert forall x :: x in s[1..] ==> x in s;
      FilterKeepsAll(s[1..], keep);
      assert s == [s[0]] + s[1..];
    }
  }

  /** A filter that accepts nothing in `s` returns the empty sequence. */
  lemma {:induction false} FilterKeepsNone<T(!new)>(s: seq<T>, keep: T -> bool)
    requires forall x :: x in s ==> !keep(x)
    ensures Filter(s, keep) == []
  {
    if s != [] {
      assert s[0] in s;
      assert forall x :: x in s[1..] ==> x in s;
      FilterKeepsNone(s[1..], keep);
    }
  }

  /** Filters by predicates that agree on `s` agree. */
  lemma {:induction false} FilterCongruent<T(!new)>(s: seq<T>, p: T -> bool, q: T -> bool)
    requires forall x :: x in s ==> p(x) == q(x)
    ensures Filter(s, p) == Filter(s, q)
  {
    if s != [] {
      assert s[0] in s;
      assert forall x :: x in s[1..] ==> x in s;
      FilterCongruent(s[1..], p, q);
    }
  }

  /** Filtering by a predicate and by its negation splits `s` into two parts
      that together hold every element of `s` exactly once. */
  lemma {:induction false} FilterComplement<T(!new)>(s: seq<T>, p: T -> bool, q: T -> bool)
    requires forall x :: q(x) == !p(x)
    ensures |Filter(s, p)| + |Filter(s, q)| == |s|
    ensures multiset(Filter(s, p)) + multiset(Filter(s, q)) == multiset(s)
  {
    if s != [] {
      FilterComplement(s[1..], p, q);
      assert s == [s[0]] + s[1..];
      assert multiset(s) == multiset([s[0]]) + multiset(s[1..]);
    }
  }

  lemma {:induction false} FilterKeepsDistinctKeys<T(!new), K>(s: seq<T>, keep: T -> bool, key: T -> K)
    ensures Distinct(Keys(s, key)) ==> Distinct(Keys(Filter(s, keep), key))
  {
    if s != [] && Distinct(Keys(s, key)) {
      var t := s[1..];
      assert Keys(t, key) == Keys(s, key)[1..];
      FilterKeepsDistinctKeys(t, keep, key);
      if keep(s[0]) {
        var f := Filter(t, keep);
        var r := [s[0]] + f;
        assert Filter(s, keep) == r;
        forall j | 0 <= j < |f|
          ensures key(f[j]) != key(s[0])
        {
          assert f[j] in t;
          var m :| 0 <= m < |t| && t[m] == f[j];
          assert Keys(s, key)[m + 1] == key(f[j]);
          assert Keys(s, key)[0] == key(s[0]);
        }
        forall i, j | 0 <= i < j < |r|
          ensures Keys(r, key)[i] != Keys(r, key)[j]
        {
          if i > 0 {
            assert Keys(r, key)[i] == Keys(f, key)[i - 1];
            assert Keys(r, key)[j] == Keys(f, key)[j - 1];
          }
        }
      }
    }
  }

  /** Appending an element whose key is new keeps the keys distinct. */
  lemma AppendKeepsDistinctKeys<T, K>(s: seq<T>, x: T, key: T -> K)
    requires Distinct(Keys(s, key))
    requires key(x) !in Keys(s, key)
    ensures Distinct(Keys(s + [x], key))
  {
    var r := s + [x];
    forall i, j | 0 <= i < j < |r|
      ensures Keys(r, key)[i] != Keys(r, key)[j]
    {
      assert Keys(r, key)[i] == Keys(s, key)[i];
      if j < |s| {
        assert Keys(r, key)[j] == Keys(s, key)[j];
      }
    }
  }

  /** An update whose `f` keeps the key of each element it touches keeps the
      whole sequence of keys. */
  lemma UpdateKeyKeepsKeys<T, K>(s: seq<T>, key: T -> K, k: K, f: T -> T)
    requires forall x :: key(x) == k ==> key(f(x)) == k
    ensures Keys(UpdateKey(s, key, k, f), key) == Keys(s, key)
  {
  }

  /** An update for a key no element has changes nothing. */
  lemma UpdateAbsentKey<T, K>(s: seq<T>, key: T -> K, k: K, f: T -> T)
    requires k !in Keys(s, key)
    ensures UpdateKey(s, key, k, f) == s
  {
    forall i | 0 <= i < |s|
      ensures key(s[i]) != k
    {
      assert Keys(s, key)[i] == key(s[i]);
    }
  }

  /** Applying an update twice undoes it when `f` is an involution that keeps keys. */
  lemma UpdateKeyTwice<T, K>(s: seq<T>, key: T -> K, k: K, f: T -> T)
    requires forall x :: key(x) == k ==> key(f(x)) == k && f(f(x)) == x
    ensures UpdateKey(UpdateKey(s, key, k, f), key, k, f) == s
  {
  }

  /** Deleting a key no element has changes nothing. */
  lemma RemoveAbsentKey<T(!new), K>(s: seq<T>, key: T -> K, k: K)
    requires k !in Keys(s, key)
    ensures RemoveKey(s, key, k) == s
  {
    forall x | x in s
      ensures KeyIsNot(key, k)(x)
    {
      var i :| 0 <= i < |s| && s[i] == x;
      assert Keys(s, key)[i] == key(x);
    }
    FilterKeepsAll(s, KeyIsNot(key, k));
  }

  /** Deleting the same key twice is deleting it once. */
  lemma RemoveKeyIdempotent<T(!new), K>(s: seq<T>, key: T -> K, k: K)
    ensures RemoveKey(RemoveKey(s, key, k), key, k) == RemoveKey(s, key, k)
  {
    FilterIdempotent(s, KeyIsNot(key, k));
  }
}
