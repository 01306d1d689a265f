/** Insertion-ordered grouping of a sequence by a key, as a JavaScript record
    filled in one pass and read back with `Object.entries`: the specification
    of the grouping and the properties it has for every key function. */
module Grouping {
  import opened Sequences

  /** One entry of the record: a key and the items filed under it. */
  datatype Group<K, T> = Group(key: K, items: seq<T>)

  /** The distinct keys of `s`, in order of first appearance. */
  function Keys<T, K(==)>(s: seq<T>, key: T -> K): (r: seq<K>)
    ensures |r| <= |s|
    ensures forall i :: 0 <= i < |s| ==> key(s[i]) in r
  {
    if s == [] then []
    else
      var keys := Keys(s[..|s| - 1], key);
      var k := key(s[|s| - 1]);
      if k in keys then keys else keys + [k]
  }

  /** The items of `s` whose key is `k`, in their order in `s`. */
  function Bucket<T, K(==)>(s: seq<T>, key: T -> K, k: K): (r: seq<T>)
    ensures |r| <= |s|
    ensures forall i :: 0 <= i < |r| ==> key(r[i]) == k
    ensures forall i :: 0 <= i < |s| && key(s[i]) == k ==> s[i] in r
  {
    Filter(s, x => key(x) == k)
  }

  /** One group per key, in order of first appearance, each holding that key's
      items in their original order. */
  function Grouped<T, K(==)>(s: seq<T>, key: T -> K): (g: seq<Group<K, T>>)
    ensures |g| <= |s|
    ensures Homogeneous(g, key)
  {
    var keys := Keys(s, key);
    seq(|keys|, i requires 0 <= i < |keys| => Group(keys[i], Bucket(s, key, keys[i])))
  }

  /** The groups' items laid end to end. */
  function Concat<K, T>(groups: seq<Group<K, T>>): (r: seq<T>)
    ensures forall i, x :: 0 <= i < |groups| && x in groups[i].items ==> x in r
  {
    if groups == [] then [] else groups[0].items + Concat(groups[1..])
  }

  /** `groupedAssets`: a record from key to items is filled in one pass, a
      bucket being created the first time its key is met and the item then
      pushed onto it; the record is read out in key-insertion order (the order
      `Object.entries` uses for keys that are not array indices, which the
      gallery's "Month Year" strings never are). */
  method GroupBy<T, K(==)>(items: seq<T>, key: T -> K) returns (groups: seq<Group<K, T>>)
    ensures groups == Grouped(items, key)
  {
    var buckets: map<K, seq<T>> := map[];
    var order: seq<K> := [];
    for i := 0 to |items|
      invariant order == Keys(items[..i], key)
      invariant forall k :: k in buckets <==> k in order
      invariant forall k :: k in buckets ==> buckets[k] == Bucket(items[..i], key, k)
    {
      var item := items[i];
      var k := key(item);
      assert items[..i + 1] == items[..i] + [item];
      KeysSnoc(items[..i], item, key);
      if k !in buckets {
        UnlistedKeyEmptyBucket(items[..i], key, k);
        buckets := buckets[k := []];
        order := order + [k];
      }
      BucketSnoc(items[..i], item, key, k);
      buckets := buckets[k := buckets[k] + [item]];
      forall k' | k' in buckets && k' != k
        ensures buckets[k'] == Bucket(items[..i + 1], key, k')
      {
        BucketSnoc(items[..i], item, key, k');
      }
    }
    assert items[..|items|] == items;
    groups := seq(|order|, j requires 0 <= j < |order| => Group(order[j], buckets[order[j]]));
  }

  lemma KeysSnoc<T, K>(s: seq<T>, x: T, key: T -> K)
    ensures Keys(s + [x], key) == if key(x) in Keys(s, key) then Keys(s, key) else Keys(s, key) + [key(x)]
  {
    assert (s + [x])[..|s|] == s;
  }

  lemma BucketSnoc<T, K>(s: seq<T>, x: T, key: T -> K, k: K)
    ensures Bucket(s + [x], key, k) == Bucket(s, key, k) + (if key(x) == k then [x] else [])
  {
    assert (s + [x])[..|s|] == s;
  }

  /** A key is listed iff some item carries it. */
  lemma {:induction false} KeysMembership<T, K>(s: seq<T>, key: T -> K, k: K)
    ensures k in Keys(s, key) <==> exists q :: 0 <= q < |s| && key(s[q]) == k
  {
    if s != [] {
      var n := |s| - 1;
      var p := s[..n];
      KeysMembership(p, key, k);
      if exists q :: 0 <= q < n && key(p[q]) == k {
        var q :| 0 <= q < n && key(p[q]) == k;
        assert key(s[q]) == k;
      }
      if exists q :: 0 <= q < |s| && key(s[q]) == k {
        var q :| 0 <= q < |s| && key(s[q]) == k;
        if q < n {
          assert key(p[q]) == k;
        }
      }
    }
  }

  /** A key no item carries has an empty bucket. */
  lemma UnlistedKeyEmptyBucket<T, K>(s: seq<T>, key: T -> K, k: K)
    requires k !in Keys(s, key)
    ensures Bucket(s, key, k) == []
  {
    var b := Bucket(s, key, k);
    if b != [] {
      assert b[0] in s && key(b[0]) == k;
      KeysMembership(s, key, k);
    }
  }

  /** No key is listed twice. */
  lemma {:induction false} KeysDistinct<T, K>(s: seq<T>, key: T -> K)
    ensures forall i, j :: 0 <= i < j < |Keys(s, key)| ==> Keys(s, key)[i] != Keys(s, key)[j]
  {
    if s != [] {
      KeysDistinct(s[..|s| - 1], key);
    }
  }

  /** Every group's items carry the group's key. */
  ghost predicate Homogeneous<K, T>(groups: seq<Group<K, T>>, key: T -> K)
  {
    forall i, x :: 0 <= i < |groups| && x in groups[i].items ==> key(x) == groups[i].key
  }

  ghost predicate DistinctKeys<K, T>(groups: seq<Group<K, T>>)
  {
    forall i, j :: 0 <= i < j < |groups| ==> groups[i].key != groups[j].key
  }

  /** The grouping partitions its input: keys are distinct, no group is empty,
      a group holds only items of its own key, and every item lands in the
      group of its key and in no other. */
  lemma GroupedPartitions<T, K>(s: seq<T>, key: T -> K)
    ensures DistinctKeys(Grouped(s, key)) && Homogeneous(Grouped(s, key), key)
    ensures forall i :: 0 <= i < |Grouped(s, key)| ==> Grouped(s, key)[i].items != []
    ensures forall i, x :: 0 <= i < |Grouped(s, key)| && x in Grouped(s, key)[i].items ==> x in s
    ensures forall x :: x in s ==>
      exists i :: 0 <= i < |Grouped(s, key)| && Grouped(s, key)[i].key == key(x) && x in Grouped(s, key)[i].items
    ensures forall i, j, x ::
      (0 <= i < |Grouped(s, key)| && 0 <= j < |Grouped(s, key)| &&
       x in Grouped(s, key)[i].items && x in Grouped(s, key)[j].items) ==> i == j
  {
    var g := Grouped(s, key);
    var keys := Keys(s, key);
    KeysDistinct(s, key);
    forall i | 0 <= i < |g|
      ensures g[i].items != []
    {
      KeysMembership(s, key, keys[i]);
      var q :| 0 <= q < |s| && key(s[q]) == keys[i];
      assert s[q] in Bucket(s, key, keys[i]);
    }
    forall x | x in s
      ensures exists i :: 0 <= i < |g| && g[i].key == key(x) && x in g[i].items
    {
      var q :| 0 <= q < |s| && s[q] == x;
      KeysMembership(s, key, key(x));
      var i :| 0 <= i < |keys| && keys[i] == key(x);
      assert x in g[i].items;
    }
  }

  /** Within each group, items keep the order they had in the input. */
  lemma GroupsKeepOrder<T, K>(s: seq<T>, key: T -> K)
    ensures forall i :: 0 <= i < |Grouped(s, key)| ==> IsSubsequence(Grouped(s, key)[i].items, s)
  {
    forall i | 0 <= i < |Grouped(s, key)|
      ensures IsSubsequence(Grouped(s, key)[i].items, s)
    {
      var k := Keys(s, key)[i];
      FilterIsSubsequence(s, x => key(x) == k);
    }
  }

  /** Groups come in order of first appearance: the keys met in any prefix
      of the input are a prefix of the listed keys, so a key is listed before
      every key that first turns up after it, whatever their own order. */
  lemma {:induction false} GroupsByFirstAppearance<T, K>(s: seq<T>, key: T -> K)
    ensures forall q :: 0 <= q <= |s| ==> Keys(s[..q], key) <= Keys(s, key)
  {
    if s != [] {
      var n := |s| - 1;
      GroupsByFirstAppearance(s[..n], key);
      forall q | 0 <= q <= |s|
        ensures Keys(s[..q], key) <= Keys(s, key)
      {
        if q <= n {
          assert s[..n][..q] == s[..q];
        } else {
          assert s[..q] == s;
        }
      }
    }
  }

  /** Appending an item with a new key opens a new last group. */
  lemma GroupedSnocNew<T, K>(s: seq<T>, x: T, key: T -> K)
    requires key(x) !in Keys(s, key)
    ensures Grouped(s + [x], key) == Grouped(s, key) + [Group(key(x), [x])]
  {
    var keys := Keys(s, key);
    KeysSnoc(s, x, key);
    UnlistedKeyEmptyBucket(s, key, key(x));
    var g, g' := Grouped(s, key), Grouped(s + [x], key);
    forall i | 0 <= i < |g'|
      ensures g'[i] == (g + [Group(key(x), [x])])[i]
    {
      BucketSnoc(s, x, key, Keys(s + [x], key)[i]);
    }
  }

  /** Appending an item whose key is already listed, at position `i`, extends
      group `i` and leaves the others alone. */
  lemma GroupedSnocExisting<T, K>(s: seq<T>, x: T, key: T -> K, i: nat)
    requires i < |Keys(s, key)| && Keys(s, key)[i] == key(x)
    ensures Grouped(s + [x], key) == Grouped(s, key)[i := Group(key(x), Grouped(s, key)[i].items + [x])]
  {
    var keys := Keys(s, key);
    KeysSnoc(s, x, key);
    KeysDistinct(s, key);
    var g, g' := Grouped(s, key), Grouped(s + [x], key);
    forall j | 0 <= j < |g'|
      ensures g'[j] == g[i := Group(key(x), g[i].items + [x])][j]
    {
      BucketSnoc(s, x, key, keys[j]);
    }
  }

  lemma {:induction false} ConcatAppend<K, T>(g1: seq<Group<K, T>>, g2: seq<Group<K, T>>)
    ensures Concat(g1 + g2) == Concat(g1) + Concat(g2)
  {
    if g1 != [] {
      ConcatAppend(g1[1..], g2);
      assert (g1 + g2)[1..] == g1[1..] + g2;
      calc {
        Concat(g1 + g2);
        (g1 + g2)[0].items + Concat((g1 + g2)[1..]);
        g1[0].items + (Concat(g1[1..]) + Concat(g2));
        (g1[0].items + Concat(g1[1..])) + Concat(g2);
        Concat(g1) + Concat(g2);
      }
    } else {
      assert g1 + g2 == g2;
    }
  }

  /** Concatenating the groups gives a permutation of the input. */
  lemma {:induction false} GroupedPermutation<T, K>(s: seq<T>, key: T -> K)
    ensures multiset(Concat(Grouped(s, key))) == multiset(s)
  {
    if s != [] {
      var n := |s| - 1;
      assert s == s[..n] + [s[n]];
      GroupedPermutation(s[..n], key);
      PermutationStep(s[..n], s[n], key);
    }
  }

  /** One more item adds exactly that item to the concatenated groups. */
  lemma PermutationStep<T, K>(p: seq<T>, x: T, key: T -> K)
    ensures multiset(Concat(Grouped(p + [x], key))) == multiset(Concat(Grouped(p, key))) + multiset{x}
  {
    var g := Grouped(p, key);
    var keys := Keys(p, key);
    if key(x) !in keys {
      GroupedSnocNew(p, x, key);
      ConcatAppend(g, [Group(key(x), [x])]);
      assert Concat([Group(key(x), [x])]) == [x];
    } else {
      var i :| 0 <= i < |keys| && keys[i] == key(x);
      GroupedSnocExisting(p, x, key, i);
      ConcatExtend(g, i, x);
    }
  }

  /** Appending an item to one group adds exactly that item to the concatenation. */
  lemma ConcatExtend<K, T>(g: seq<Group<K, T>>, i: nat, x: T)
    requires i < |g|
    ensures multiset(Concat(g[i := Group(g[i].key, g[i].items + [x])])) == multiset(Concat(g)) + multiset{x}
  {
    var gi := Group(g[i].key, g[i].items + [x]);
    assert g == g[..i] + [g[i]] + g[i + 1..];
    assert g[i := gi] == g[..i] + [gi] + g[i + 1..];
    ConcatAppend(g[..i] + [g[i]], g[i + 1..]);
    ConcatAppend(g[..i], [g[i]]);
    ConcatAppend(g[..i] + [gi], g[i + 1..]);
    ConcatAppend(g[..i], [gi]);
    assert Concat([g[i]]) == g[i].items;
    assert Concat([gi]) == g[i].items + [x];
  }

  /** Items with the same key stand next to each other. */
  ghost predicate Contiguous<T, K>(s: seq<T>, key: T -> K)
  {
    forall i, j, k :: 0 <= i <= j <= k < |s| && key(s[i]) == key(s[k]) ==> key(s[j]) == key(s[i])
  }

  /** In a contiguous sequence the last key listed is that of the last item. */
  lemma {:induction false} LastKey<T, K>(s: seq<T>, key: T -> K)
    requires s != [] && Contiguous(s, key)
    ensures Keys(s, key) != [] && Keys(s, key)[|Keys(s, key)| - 1] == key(s[|s| - 1])
  {
    var n := |s| - 1;
    var p := s[..n];
    if key(s[n]) in Keys(p, key) {
      KeysMembership(p, key, key(s[n]));
      var q :| 0 <= q < n && key(p[q]) == key(s[n]);
      assert p[q] == s[q] && p[n - 1] == s[n - 1];
      ContiguousNeighbour(s, key, q);
      assert s == p + [s[n]];
      ContiguousPrefix(p, s[n], key);
      LastKey(p, key);
    }
  }

  /** In a contiguous sequence, if an earlier item shares the last item's key,
      so does the item just before the last. */
  lemma ContiguousNeighbour<T, K>(s: seq<T>, key: T -> K, q: nat)
    requires Contiguous(s, key)
    requires q < |s| - 1 && key(s[q]) == key(s[|s| - 1])
    ensures key(s[|s| - 2]) == key(s[|s| - 1])
  {
    assert q <= |s| - 2 <= |s| - 1;
  }

  /** On contiguous input the concatenated groups give the input back. */
  lemma {:induction false} ContiguousConcatIdentity<T, K>(s: seq<T>, key: T -> K)
    requires Contiguous(s, key)
    ensures Concat(Grouped(s, key)) == s
  {
    if s != [] {
      var n := |s| - 1;
      var p, x := s[..n], s[n];
      assert s == p + [x];
      ContiguousPrefix(p, x, key);
      ContiguousConcatIdentity(p, key);
      ContiguousStep(p, x, key);
    }
  }

  /** On contiguous input, one more item is appended to the last group or
      opens a new last group: either way it lands at the end of the concatenation. */
  lemma ContiguousStep<T, K>(p: seq<T>, x: T, key: T -> K)
    requires Contiguous(p + [x], key)
    ensures Concat(Grouped(p + [x], key)) == Concat(Grouped(p, key)) + [x]
  {
    var g := Grouped(p, key);
    var keys := Keys(p, key);
    if key(x) !in keys {
      GroupedSnocNew(p, x, key);
      ConcatAppend(g, [Group(key(x), [x])]);
      assert Concat([Group(key(x), [x])]) == [x];
    } else {
      ContiguousRepeatIsLast(p, x, key);
      GroupedSnocExisting(p, x, key, |keys| - 1);
      ConcatExtendLast(g, x);
    }
  }

  /** Appending an item to the last group appends it to the concatenation. */
  lemma ConcatExtendLast<K, T>(g: seq<Group<K, T>>, x: T)
    requires g != []
    ensures var i := |g| - 1;
      Concat(g[i := Group(g[i].key, g[i].items + [x])]) == Concat(g) + [x]
  {
    var i := |g| - 1;
    var gi := Group(g[i].key, g[i].items + [x]);
    assert g == g[..i] + [g[i]];
    assert g[i := gi] == g[..i] + [gi];
    ConcatAppend(g[..i], [g[i]]);
    ConcatAppend(g[..i], [gi]);
    assert Concat([g[i]]) == g[i].items;
    assert Concat([gi]) == g[i].items + [x];
  }

  lemma ContiguousPrefix<T, K>(p: seq<T>, x: T, key: T -> K)
    requires Contiguous(p + [x], key)
    ensures Contiguous(p, key)
  {
    var s := p + [x];
    forall i, j, k | 0 <= i <= j <= k < |p| && key(p[i]) == key(p[k])
      ensures key(p[j]) == key(p[i])
    {
      assert p[i] == s[i] && p[j] == s[j] && p[k] == s[k];
    }
  }

  /** In a contiguous sequence, an item whose key was seen before carries the
      last key listed so far. */
  lemma ContiguousRepeatIsLast<T, K>(p: seq<T>, x: T, key: T -> K)
    requires Contiguous(p + [x], key) && key(x) in Keys(p, key)
    ensures Keys(p, key) != [] && Keys(p, key)[|Keys(p, key)| - 1] == key(x)
  {
    var s := p + [x];
    var n := |p|;
    KeysMembership(p, key, key(x));
    var q :| 0 <= q < n && key(p[q]) == key(x);
    assert key(s[q]) == key(s[n]) && s[n - 1] == p[n - 1];
    ContiguousPrefix(p, x, key);
    LastKey(p, key);
  }

  /** Prepending items of one key to a contiguous sequence in which that key
      does not occur keeps it contiguous. */
  lemma ContiguousPrepend<T, K>(a: seq<T>, b: seq<T>, key: T -> K, k: K)
    requires forall x :: x in a ==> key(x) == k
    requires forall x :: x in b ==> key(x) != k
    requires Contiguous(b, key)
    ensures Contiguous(a + b, key)
  {
    var z := a + b;
    forall i, j, m | 0 <= i <= j <= m < |z| && key(z[i]) == key(z[m])
      ensures key(z[j]) == key(z[i])
    {
      if i >= |a| {
        assert z[i] == b[i - |a|] && z[j] == b[j - |a|] && z[m] == b[m - |a|];
      } else if m < |a| {
        assert z[i] in a && z[j] in a;
      } else {
        assert false;
      }
    }
  }

  /** Concatenated groups with distinct keys are contiguous. */
  lemma {:induction false} ConcatContiguous<K, T>(groups: seq<Group<K, T>>, key: T -> K)
    requires DistinctKeys(groups) && Homogeneous(groups, key)
    ensures Contiguous(Concat(groups), key)
    ensures forall x :: x in Concat(groups) ==> exists i :: 0 <= i < |groups| && key(x) == groups[i].key
  {
    if groups != [] {
      var rest := groups[1..];
      assert Homogeneous(rest, key) by {
        forall i, x | 0 <= i < |rest| && x in rest[i].items
          ensures key(x) == rest[i].key
        {
          assert rest[i] == groups[i + 1];
        }
      }
      ConcatContiguous(rest, key);
      var k := groups[0].key;
      forall x | x in Concat(rest)
        ensures key(x) != k
        ensures exists i :: 0 <= i < |groups| && key(x) == groups[i].key
      {
        var i :| 0 <= i < |rest| && key(x) == rest[i].key;
        assert rest[i] == groups[i + 1];
      }
      ContiguousPrepend(groups[0].items, Concat(rest), key, k);
      forall x | x in groups[0].items
        ensures exists i :: 0 <= i < |groups| && key(x) == groups[i].key
      {
        assert key(x) == groups[0].key;
      }
    }
  }

  /** The concatenated groups equal the input exactly iff same-key items were
      already contiguous in it. */
  lemma GroupedConcatIdentityIff<T, K>(s: seq<T>, key: T -> K)
    ensures Concat(Grouped(s, key)) == s <==> Contiguous(s, key)
  {
    if Contiguous(s, key) {
      ContiguousConcatIdentity(s, key);
    }
    if Concat(Grouped(s, key)) == s {
      GroupedPartitions(s, key);
      ConcatContiguous(Grouped(s, key), key);
    }
  }

  /** There are no groups iff there are no items. */
  lemma GroupedEmptyIff<T, K>(s: seq<T>, key: T -> K)
    ensures |Grouped(s, key)| == 0 <==> s == []
  {
    if s != [] {
      KeysMembership(s, key, key(s[0]));
    }
  }
}
