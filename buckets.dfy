/**
 * Grouping a fetched list by a key, the way the components' `reduce` calls do
 * it: `acc[key] = acc[key] || []; acc[key].push(x)` and
 * `acc[key] = (acc[key] || 0) + 1`. The object's keys appear in first-seen
 * order, and each bucket keeps the fetched order.
 */
module Buckets {

  /** `s.filter(p)`: the elements of `s` that satisfy `p`, in order. */
  function Filter<T>(s: seq<T>, p: T -> bool): (r: seq<T>)
    ensures |r| <= |s|
    ensures forall x :: x in r ==> x in s && p(x)
    ensures forall x :: x in s && p(x) ==> x in r
  {
    if s == [] then []
    else Filter(s[..|s| - 1], p) + (if p(s[|s| - 1]) then [s[|s| - 1]] else [])
  }

  /** The elements of `s` whose key is `k`, in order. */
  function Bucket<T, K(==)>(s: seq<T>, key: T -> K, k: K): (r: seq<T>)
    ensures |r| <= |s|
    ensures forall x :: x in r ==> x in s && key(x) == k
    ensures forall x :: x in s && key(x) == k ==> x in r
  {
    Filter(s, x => key(x) == k)
  }

  /** The distinct keys of `s` in the order they are first seen. */
  function Keys<T, K(==)>(s: seq<T>, key: T -> K): (ks: seq<K>)
    ensures forall x :: x in s ==> key(x) in ks
    ensures forall k :: k in ks ==> exists x :: x in s && key(x) == k
  {
    if s == [] then []
    else
      var ks := Keys(s[..|s| - 1], key);
      var x := s[|s| - 1];
      assert forall y :: y in s ==> y in s[..|s| - 1] || y == x;
      if key(x) in ks then ks else ks + [key(x)]
  }

  ghost predicate Distinct<K>(ks: seq<K>) {
    forall i, j :: 0 <= i < j < |ks| ==> ks[i] != ks[j]
  }

  /** The sum of the bucket sizes over the keys `ks`. */
  function SumSizes<T, K(==)>(s: seq<T>, key: T -> K, ks: seq<K>): nat {
    if ks == [] then 0
    else SumSizes(s, key, ks[..|ks| - 1]) + |Bucket(s, key, ks[|ks| - 1])|
  }

  /** How often `k` occurs in `ks`. */
  function Occurrences<K(==)>(ks: seq<K>, k: K): nat {
    if ks == [] then 0
    else Occurrences(ks[..|ks| - 1], k) + (if ks[|ks| - 1] == k then 1 else 0)
  }

  lemma {:induction false} KeysDistinct<T, K>(s: seq<T>, key: T -> K)
    ensures Distinct(Keys(s, key))
  {
    if s != [] {
      KeysDistinct(s[..|s| - 1], key);
    }
  }

  lemma {:induction false} OccurrencesDistinct<K>(ks: seq<K>, k: K)
    requires Distinct(ks)
    ensures Occurrences(ks, k) == if k in ks then 1 else 0
  {
    if ks != [] {
      var init := ks[..|ks| - 1];
      assert Distinct(init);
      OccurrencesDistinct(init, k);
      assert ks == init + [ks[|ks| - 1]];
      if ks[|ks| - 1] == k {
        assert k !in init;
      }
    }
  }

  lemma {:induction false} SumSizesSnoc<T, K>(s: seq<T>, x: T, key: T -> K, ks: seq<K>)
    ensures SumSizes(s + [x], key, ks) == SumSizes(s, key, ks) + Occurrences(ks, key(x))
  {
    assert (s + [x])[..|s + [x]| - 1] == s;
    if ks != [] {
      SumSizesSnoc(s, x, key, ks[..|ks| - 1]);
    }
  }

  /** Appending one element extends exactly the bucket of its key. */
  lemma BucketSnoc<T, K>(s: seq<T>, x: T, key: T -> K, k: K)
    ensures Bucket(s + [x], key, k) == Bucket(s, key, k) + (if key(x) == k then [x] else [])
  {
    assert (s + [x])[..|s + [x]| - 1] == s;
  }

  /** Appending one element adds its key at the end unless it was already seen. */
  lemma KeysSnoc<T, K>(s: seq<T>, x: T, key: T -> K)
    ensures Keys(s + [x], key) == if key(x) in Keys(s, key) then Keys(s, key) else Keys(s, key) + [key(x)]
  {
    assert (s + [x])[..|s + [x]| - 1] == s;
  }

  /** A key that no element carries has an empty bucket. */
  lemma {:induction false} BucketEmpty<T, K>(s: seq<T>, key: T -> K, k: K)
    requires forall x :: x in s ==> key(x) != k
    ensures Bucket(s, key, k) == []
  {
    if s != [] {
      var init := s[..|s| - 1];
      assert s == init + [s[|s| - 1]];
      BucketEmpty(init, key, k);
      BucketSnoc(init, s[|s| - 1], key, k);
    }
  }

  /** Every element lands in exactly one bucket: the bucket sizes add up to the length of the list. */
  lemma {:induction false} BucketSizesSum<T, K>(s: seq<T>, key: T -> K)
    ensures SumSizes(s, key, Keys(s, key)) == |s|
  {
    if s != [] {
      var init := s[..|s| - 1];
      var x := s[|s| - 1];
      assert s == init + [x];
      var ks := Keys(init, key);
      BucketSizesSum(init, key);
      KeysDistinct(init, key);
      SumSizesSnoc(init, x, key, ks);
      OccurrencesDistinct(ks, key(x));
      if key(x) in ks {
        assert Keys(s, key) == ks;
      } else {
        BucketEmpty(init, key, key(x));
        assert |Bucket(s, key, key(x))| == 1;
        assert Keys(s, key) == ks + [key(x)];
        assert (ks + [key(x)])[..|ks|] == ks;
        assert SumSizes(s, key, ks + [key(x)]) == SumSizes(s, key, ks) + 1;
      }
    }
  }

  /** `groups` maps exactly the keys occurring in `s`, each to its bucket. */
  ghost predicate GroupsOf<T, K(!new)>(s: seq<T>, key: T -> K, groups: map<K, seq<T>>) {
    (forall k :: k in groups <==> k in Keys(s, key)) &&
    (forall k :: k in groups ==> groups[k] == Bucket(s, key, k))
  }

  /** The grouping `reduce` as a whole: one bucket per key that occurs. */
  function GroupBy<T, K(==,!new)>(s: seq<T>, key: T -> K): (groups: map<K, seq<T>>)
    ensures GroupsOf(s, key, groups)
  {
    map k | k in Keys(s, key) :: Bucket(s, key, k)
  }

  /** There is only one grouping of a list. */
  lemma GroupsOfUnique<T, K(!new)>(s: seq<T>, key: T -> K, groups: map<K, seq<T>>)
    requires GroupsOf(s, key, groups)
    ensures groups == GroupBy(s, key)
  {
  }

  /** A push of element `i` onto the grouping of the first `i` elements groups the first `i + 1`. */
  lemma PushPrefix<T, K(!new)>(s: seq<T>, i: nat, key: T -> K, groups: map<K, seq<T>>)
    requires i < |s| && GroupsOf(s[..i], key, groups)
    ensures GroupsOf(s[..i + 1], key, Push(s[..i], s[i], key, groups))
  {
    assert s[..i + 1] == s[..i] + [s[i]];
  }

  /** One step of the grouping `reduce`: `(acc[key] = acc[key] || []).push(x)`. */
  function Push<T, K(==,!new)>(done: seq<T>, x: T, key: T -> K, groups: map<K, seq<T>>): (next: map<K, seq<T>>)
    requires GroupsOf(done, key, groups)
    ensures GroupsOf(done + [x], key, next)
  {
    KeysSnoc(done, x, key);
    if key(x) in groups then
      BucketsAfterPush(done, x, key, groups, groups[key(x)]);
      groups[key(x) := groups[key(x)] + [x]]
    else
      BucketEmpty(done, key, key(x));
      BucketsAfterPush(done, x, key, groups, []);
      groups[key(x) := [x]]
  }

  lemma BucketsAfterPush<T, K>(done: seq<T>, x: T, key: T -> K, groups: map<K, seq<T>>, bucket: seq<T>)
    requires forall k :: k in groups ==> groups[k] == Bucket(done, key, k)
    requires bucket == Bucket(done, key, key(x))
    ensures var next := groups[key(x) := bucket + [x]];
      forall k :: k in next ==> next[k] == Bucket(done + [x], key, k)
  {
    var next := groups[key(x) := bucket + [x]];
    forall k | k in next
      ensures next[k] == Bucket(done + [x], key, k)
    {
      BucketSnoc(done, x, key, k);
    }
  }

  /** Keys are listed in order of first appearance: the i-th key occurs before any occurrence of a later one. */
  lemma {:induction false} KeysInFirstSeenOrder<T, K>(s: seq<T>, key: T -> K, i: nat, j: nat)
    requires i < j < |Keys(s, key)|
    ensures exists p :: (0 <= p < |s| && key(s[p]) == Keys(s, key)[i] &&
      forall q :: 0 <= q <= p ==> key(s[q]) != Keys(s, key)[j])
  {
    var init := s[..|s| - 1];
    var x := s[|s| - 1];
    assert s == init + [x];
    var ks := Keys(init, key);
    KeysSnoc(init, x, key);
    if j < |ks| {
      assert Keys(s, key)[i] == ks[i] && Keys(s, key)[j] == ks[j];
      KeysInFirstSeenOrder(init, key, i, j);
      var p :| 0 <= p < |init| && key(init[p]) == ks[i] &&
        forall q :: 0 <= q <= p ==> key(init[q]) != ks[j];
      PrefixWitness(s, init, key, p, ks[i], ks[j]);
    } else {
      assert Keys(s, key) == ks + [key(x)];
      assert ks[i] in ks;
      NoElementHasKey(init, key, key(x));
      var p := FirstIndex(init, key, ks[i]);
      PrefixWitness(s, init, key, p, ks[i], key(x));
    }
  }

  /** A key missing from the key list is carried by no element. */
  lemma NoElementHasKey<T, K>(s: seq<T>, key: T -> K, k: K)
    requires k !in Keys(s, key)
    ensures forall q :: 0 <= q < |s| ==> key(s[q]) != k
  {
    forall q | 0 <= q < |s|
      ensures key(s[q]) != k
    {
      assert s[q] in s;
    }
  }

  lemma PrefixWitness<T, K>(s: seq<T>, init: seq<T>, key: T -> K, p: nat, a: K, b: K)
    requires s != [] && init == s[..|s| - 1] && p < |init|
    requires key(init[p]) == a
    requires forall q :: 0 <= q <= p ==> key(init[q]) != b
    ensures key(s[p]) == a && forall q :: 0 <= q <= p ==> key(s[q]) != b
  {
    assert forall q :: 0 <= q <= p ==> s[q] == init[q];
  }

  /** The index of the first element of `s` whose key is `k`. */
  function FirstIndex<T, K(==)>(s: seq<T>, key: T -> K, k: K): (p: nat)
    requires exists x :: x in s && key(x) == k
    ensures p < |s| && key(s[p]) == k
    ensures forall q :: 0 <= q < p ==> key(s[q]) != k
  {
    var init := s[..|s| - 1];
    if k in Keys(init, key) then
      var p := FirstIndex(init, key, k);
      assert s[p] == init[p];
      assert forall q :: 0 <= q < p ==> s[q] == init[q];
      p
    else
      assert forall q :: 0 <= q < |s| - 1 ==> s[q] in init;
      |s| - 1
  }

  /** A bucket starts with the first element carrying its key. */
  lemma {:induction false} BucketHead<T, K>(s: seq<T>, key: T -> K, k: K)
    requires exists x :: x in s && key(x) == k
    ensures Bucket(s, key, k) != [] && Bucket(s, key, k)[0] == s[FirstIndex(s, key, k)]
  {
    var init := s[..|s| - 1];
    var x := s[|s| - 1];
    assert s == init + [x];
    BucketSnoc(init, x, key, k);
    if k in Keys(init, key) {
      BucketHead(init, key, k);
      var p := FirstIndex(init, key, k);
      assert s[p] == init[p];
    } else {
      BucketEmpty(init, key, k);
    }
  }

  /** When every element has the key `k`, there is one key and its bucket is the whole list. */
  lemma {:induction false} SingleKey<T, K>(s: seq<T>, key: T -> K, k: K)
    requires s != []
    requires forall x :: x in s ==> key(x) == k
    ensures Keys(s, key) == [k]
    ensures Bucket(s, key, k) == s
  {
    var init := s[..|s| - 1];
    var x := s[|s| - 1];
    assert s == init + [x];
    KeysSnoc(init, x, key);
    BucketSnoc(init, x, key, k);
    if init != [] {
      SingleKey(init, key, k);
    }
  }

  /** The keys of a prefix are a prefix of the keys. */
  lemma {:induction false} KeysPrefix<T, K>(a: seq<T>, b: seq<T>, key: T -> K)
    ensures |Keys(a, key)| <= |Keys(a + b, key)|
    ensures Keys(a + b, key)[..|Keys(a, key)|] == Keys(a, key)
  {
    if b != [] {
      var init := b[..|b| - 1];
      var x := b[|b| - 1];
      assert a + b == (a + init) + [x];
      KeysPrefix(a, init, key);
      KeysSnoc(a + init, x, key);
    } else {
      assert a + b == a;
    }
  }

  /** The bucket of a concatenation is the concatenation of the buckets. */
  lemma {:induction false} BucketAppend<T, K>(a: seq<T>, b: seq<T>, key: T -> K, k: K)
    ensures Bucket(a + b, key, k) == Bucket(a, key, k) + Bucket(b, key, k)
  {
    if b == [] {
      assert a + b == a;
    } else {
      var init := b[..|b| - 1];
      var x := b[|b| - 1];
      assert a + b == (a + init) + [x];
      assert b == init + [x];
      BucketAppend(a, init, key, k);
      BucketSnoc(a + init, x, key, k);
      BucketSnoc(init, x, key, k);
    }
  }

  lemma TakeOneMore<T>(s: seq<T>, i: nat)
    requires i < |s|
    ensures s[..i + 1] == s[..i] + [s[i]]
  {
  }

  /** Appending one element extends the filtered list by it exactly when it passes. */
  lemma FilterSnoc<T>(s: seq<T>, x: T, p: T -> bool)
    ensures Filter(s + [x], p) == Filter(s, p) + (if p(x) then [x] else [])
  {
    assert (s + [x])[..|s + [x]| - 1] == s;
  }

  /** Every element passes `p` or fails it: the two filtered lists add up to the whole. */
  lemma {:induction false} FilterComplement<T>(s: seq<T>, p: T -> bool, q: T -> bool)
    requires forall x :: q(x) == !p(x)
    ensures |Filter(s, p)| + |Filter(s, q)| == |s|
  {
    if s != [] {
      var init := s[..|s| - 1];
      assert s == init + [s[|s| - 1]];
      FilterComplement(init, p, q);
      FilterSnoc(init, s[|s| - 1], p);
      FilterSnoc(init, s[|s| - 1], q);
    }
  }

  /** Filtering distributes over concatenation. */
  lemma {:induction false} FilterAppend<T>(a: seq<T>, b: seq<T>, p: T -> bool)
    ensures Filter(a + b, p) == Filter(a, p) + Filter(b, p)
  {
    if b == [] {
      assert a + b == a;
    } else {
      var init := b[..|b| - 1];
      var x := b[|b| - 1];
      var kept := if p(x) then [x] else [];
      assert a + b == (a + init) + [x];
      assert b == init + [x];
      FilterAppend(a, init, p);
      FilterSnoc(a + init, x, p);
      FilterSnoc(init, x, p);
      assert Filter(a + b, p) == (Filter(a, p) + Filter(init, p)) + kept;
      assert Filter(b, p) == Filter(init, p) + kept;
    }
  }
}
