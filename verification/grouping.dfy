/**
 * Insertion-ordered grouping, as Kotlin's `groupBy` and Java's `LinkedHashMap` of lists build
 * it: a group per distinct key, groups in first-occurrence order, each group keeping the
 * relative order of its elements. Groups are an association list so that their order is
 * visible.
 */
module Grouping {
  import opened Wrappers

  type Groups<K, V> = seq<(K, seq<V>)>

  /** The keys of the groups, in group order. */
  function Keys<K, V>(g: Groups<K, V>): (r: seq<K>)
    ensures |r| == |g| && forall i :: 0 <= i < |g| ==> r[i] == g[i].0
  {
    if g == [] then [] else [g[0].0] + Keys(g[1..])
  }

  /** All grouped elements, group after group. */
  function Flatten<K, V>(g: Groups<K, V>): seq<V> {
    if g == [] then [] else g[0].1 + Flatten(g[1..])
  }

  /** The elements of the first group with key `k`; empty when there is none. */
  function GroupOf<K(==), V>(g: Groups<K, V>, k: K): seq<V> {
    if g == [] then [] else if g[0].0 == k then g[0].1 else GroupOf(g[1..], k)
  }

  ghost predicate NoDuplicates<K>(s: seq<K>) {
    forall i, j :: 0 <= i < j < |s| ==> s[i] != s[j]
  }

  /** The first components of `pairs`, in order (Kotlin's `map { it.first }`). */
  function Firsts<A, B>(pairs: seq<(A, B)>): (r: seq<A>)
    ensures |r| == |pairs| && forall i :: 0 <= i < |pairs| ==> r[i] == pairs[i].0
  {
    seq(|pairs|, i requires 0 <= i < |pairs| => pairs[i].0)
  }

  /** The elements of `xs` whose key is `k`, in their original order (reference definition). */
  function Filter<T, K(==)>(xs: seq<T>, key: T -> K, k: K): seq<T> {
    if xs == [] then []
    else (if key(xs[0]) == k then [xs[0]] else []) + Filter(xs[1..], key, k)
  }

  /** The distinct keys of `xs` in first-occurrence order (reference definition). */
  function DistinctKeys<T, K(==)>(xs: seq<T>, key: T -> K): seq<K>
    decreases |xs|
  {
    if xs == [] then []
    else
      var d := DistinctKeys(xs[..|xs| - 1], key);
      if key(xs[|xs| - 1]) in d then d else d + [key(xs[|xs| - 1])]
  }

  /** `computeIfAbsent(k).add(x)`: append `x` to group `k`, opening the group at the end when absent. */
  function AddToGroup<K(==), V>(g: Groups<K, V>, k: K, x: V): Groups<K, V> {
    if g == [] then [(k, [x])]
    else if g[0].0 == k then [(k, g[0].1 + [x])] + g[1..]
    else [g[0]] + AddToGroup(g[1..], k, x)
  }

  /** Groups `xs` by `key`, element after element. */
  function GroupBy<T, K(==)>(xs: seq<T>, key: T -> K): Groups<K, T>
    decreases |xs|
  {
    if xs == [] then []
    else AddToGroup(GroupBy(xs[..|xs| - 1], key), key(xs[|xs| - 1]), xs[|xs| - 1])
  }

  lemma {:induction false} FilterSnoc<T, K>(xs: seq<T>, x: T, key: T -> K, k: K)
    ensures Filter(xs + [x], key, k) == Filter(xs, key, k) + (if key(x) == k then [x] else [])
  {
    if xs == [] {
      assert xs + [x] == [x];
    } else {
      var head := if key(xs[0]) == k then [xs[0]] else [];
      var tail := if key(x) == k then [x] else [];
      assert (xs + [x])[0] == xs[0];
      assert (xs + [x])[1..] == xs[1..] + [x];
      assert Filter(xs + [x], key, k) == head + Filter(xs[1..] + [x], key, k);
      FilterSnoc(xs[1..], x, key, k);
      assert head + (Filter(xs[1..], key, k) + tail) == (head + Filter(xs[1..], key, k)) + tail;
    }
  }

  lemma {:induction false} FlattenCons<K, V>(k: K, vs: seq<V>, g: Groups<K, V>)
    ensures Flatten([(k, vs)] + g) == vs + Flatten(g)
  {
    assert ([(k, vs)] + g)[1..] == g;
  }

  lemma {:induction false} KeysCons<K, V>(k: K, vs: seq<V>, g: Groups<K, V>)
    ensures Keys([(k, vs)] + g) == [k] + Keys(g)
  {
    assert ([(k, vs)] + g)[1..] == g;
  }

  /** What one insertion does to the keys. */
  lemma {:induction false} AddToGroupKeys<K, V>(g: Groups<K, V>, k: K, x: V)
    ensures Keys(AddToGroup(g, k, x)) == if k in Keys(g) then Keys(g) else Keys(g) + [k]
  {
    if g == [] {
      assert AddToGroup(g, k, x) == [(k, [x])];
    } else if g[0].0 == k {
      KeysCons(k, g[0].1 + [x], g[1..]);
      KeysCons(g[0].0, g[0].1, g[1..]);
      assert [g[0]] + g[1..] == g;
    } else {
      AddToGroupKeys(g[1..], k, x);
      KeysCons(g[0].0, g[0].1, AddToGroup(g[1..], k, x));
      KeysCons(g[0].0, g[0].1, g[1..]);
      assert [g[0]] + g[1..] == g;
    }
  }

  /** What one insertion does to each group. */
  lemma {:induction false} AddToGroupGroups<K, V>(g: Groups<K, V>, k: K, x: V)
    ensures forall k' :: GroupOf(AddToGroup(g, k, x), k') == if k' == k then GroupOf(g, k) + [x] else GroupOf(g, k')
  {
    if g != [] && g[0].0 != k {
      var rest := AddToGroup(g[1..], k, x);
      AddToGroupGroups(g[1..], k, x);
      assert AddToGroup(g, k, x)[1..] == rest;
    }
  }

  /** One insertion adds exactly that element to the grouped elements. */
  lemma {:induction false} AddToGroupElements<K, V>(g: Groups<K, V>, k: K, x: V)
    ensures multiset(Flatten(AddToGroup(g, k, x))) == multiset(Flatten(g)) + multiset{x}
  {
    if g == [] {
      assert AddToGroup(g, k, x) == [(k, [x])];
      assert Flatten(AddToGroup(g, k, x)) == [x] + Flatten(AddToGroup(g, k, x)[1..]);
    } else if g[0].0 == k {
      FlattenCons(k, g[0].1 + [x], g[1..]);
    } else {
      AddToGroupElements(g[1..], k, x);
      FlattenCons(g[0].0, g[0].1, AddToGroup(g[1..], k, x));
    }
  }

  /** One insertion never leaves an empty group behind. */
  lemma {:induction false} AddToGroupNonEmpty<K, V>(g: Groups<K, V>, k: K, x: V)
    requires forall i :: 0 <= i < |g| ==> |g[i].1| > 0
    ensures forall i :: 0 <= i < |AddToGroup(g, k, x)| ==> |AddToGroup(g, k, x)[i].1| > 0
  {
    if g != [] && g[0].0 != k {
      var rest := AddToGroup(g[1..], k, x);
      assert forall j :: 0 <= j < |g[1..]| ==> g[1..][j] == g[j + 1];
      AddToGroupNonEmpty(g[1..], k, x);
      var r := AddToGroup(g, k, x);
      assert r == [g[0]] + rest;
      forall i | 0 <= i < |r| ensures |r[i].1| > 0 {
        if i > 0 { assert r[i] == rest[i - 1]; }
      }
    }
  }

  lemma {:induction false} NoDuplicatesSnoc<K>(s: seq<K>, k: K)
    requires NoDuplicates(s) && k !in s
    ensures NoDuplicates(s + [k])
  {
  }

  /**
   * Grouping is a partition of the input: the keys are the distinct keys in first-occurrence
   * order, each group holds exactly the elements with its key in their original order,
   * no group is empty, and together the groups hold every element exactly once.
   */
  lemma {:induction false} GroupByCorrect<T, K>(xs: seq<T>, key: T -> K)
    ensures Keys(GroupBy(xs, key)) == DistinctKeys(xs, key)
    ensures NoDuplicates(Keys(GroupBy(xs, key)))
    ensures forall k :: GroupOf(GroupBy(xs, key), k) == Filter(xs, key, k)
    ensures forall i :: 0 <= i < |GroupBy(xs, key)| ==> |GroupBy(xs, key)[i].1| > 0
    ensures multiset(Flatten(GroupBy(xs, key))) == multiset(xs)
    decreases |xs|
  {
    if xs != [] {
      var init, x := xs[..|xs| - 1], xs[|xs| - 1];
      assert xs == init + [x];
      GroupByCorrect(init, key);
      var g := GroupBy(init, key);
      AddToGroupKeys(g, key(x), x);
      AddToGroupGroups(g, key(x), x);
      AddToGroupElements(g, key(x), x);
      AddToGroupNonEmpty(g, key(x), x);
      forall k ensures GroupOf(GroupBy(xs, key), k) == Filter(xs, key, k) {
        FilterSnoc(init, x, key, k);
      }
      if key(x) !in Keys(g) {
        NoDuplicatesSnoc(Keys(g), key(x));
      }
    }
  }

  /** With distinct keys, a group found by position is the group found by its key. */
  lemma {:induction false} GroupAtIndex<K, V>(g: Groups<K, V>, i: nat)
    requires NoDuplicates(Keys(g)) && i < |g|
    ensures g[i].1 == GroupOf(g, g[i].0)
  {
    if i > 0 {
      assert Keys(g[1..]) == Keys(g)[1..];
      GroupAtIndex(g[1..], i - 1);
      assert Keys(g)[0] != Keys(g)[i];
    }
  }

  /** Every element sits in the group of its key, and only keys of some element open a group. */
  lemma {:induction false} FilterMembership<T, K>(xs: seq<T>, key: T -> K, k: K)
    ensures forall x :: x in Filter(xs, key, k) <==> x in xs && key(x) == k
  {
    if xs != [] {
      FilterMembership(xs[1..], key, k);
      assert xs == [xs[0]] + xs[1..];
    }
  }

  /** A key is among the distinct keys exactly when some element has it. */
  lemma {:induction false} DistinctKeysMembership<T, K>(xs: seq<T>, key: T -> K, k: K)
    ensures k in DistinctKeys(xs, key) <==> Filter(xs, key, k) != []
    decreases |xs|
  {
    if xs != [] {
      var init, x := xs[..|xs| - 1], xs[|xs| - 1];
      assert xs == init + [x];
      DistinctKeysMembership(init, key, k);
      FilterSnoc(init, x, key, k);
    }
  }

  /** Filtering distributes over concatenation. */
  lemma {:induction false} FilterAppend<T, K>(a: seq<T>, b: seq<T>, key: T -> K, k: K)
    ensures Filter(a + b, key, k) == Filter(a, key, k) + Filter(b, key, k)
  {
    if a == [] {
      assert a + b == b;
    } else {
      var head := if key(a[0]) == k then [a[0]] else [];
      assert (a + b)[0] == a[0];
      assert (a + b)[1..] == a[1..] + b;
      assert Filter(a + b, key, k) == head + Filter(a[1..] + b, key, k);
      assert Filter(a, key, k) == head + Filter(a[1..], key, k);
      FilterAppend(a[1..], b, key, k);
      assert head + (Filter(a[1..], key, k) + Filter(b, key, k))
          == (head + Filter(a[1..], key, k)) + Filter(b, key, k);
    }
  }

  /** Filtering keeps a sequence whole when every key matches, and empties it when none does. */
  lemma {:induction false} FilterUniform<T, K>(xs: seq<T>, key: T -> K, k: K)
    ensures (forall i :: 0 <= i < |xs| ==> key(xs[i]) == k) ==> Filter(xs, key, k) == xs
    ensures (forall i :: 0 <= i < |xs| ==> key(xs[i]) != k) ==> Filter(xs, key, k) == []
  {
    if xs != [] {
      FilterUniform(xs[1..], key, k);
      assert forall i :: 0 <= i < |xs| - 1 ==> xs[1..][i] == xs[i + 1];
    }
  }

  /** Looking one key up in a grouping: its group is its filter, and it has a group exactly when some element has it. */
  lemma {:induction false} GroupByLookup<T, K>(xs: seq<T>, key: T -> K, k: K)
    ensures GroupOf(GroupBy(xs, key), k) == Filter(xs, key, k)
    ensures k in Keys(GroupBy(xs, key)) <==> Filter(xs, key, k) != []
  {
    GroupByCorrect(xs, key);
    DistinctKeysMembership(xs, key, k);
  }

  /** Some element before position `n` has key `k`. */
  ghost predicate OccursBefore<T, K>(xs: seq<T>, key: T -> K, n: nat, k: K) {
    exists m :: 0 <= m < n && m < |xs| && key(xs[m]) == k
  }

  /** The distinct keys are exactly the keys of the elements. */
  lemma {:induction false} DistinctKeysOfElements<T, K>(xs: seq<T>, key: T -> K)
    ensures forall n :: 0 <= n < |xs| ==> key(xs[n]) in DistinctKeys(xs, key)
    ensures forall k :: k in DistinctKeys(xs, key) ==> OccursBefore(xs, key, |xs|, k)
  {
    forall n | 0 <= n < |xs| ensures key(xs[n]) in DistinctKeys(xs, key) {
      FilterMembership(xs, key, key(xs[n]));
      DistinctKeysMembership(xs, key, key(xs[n]));
    }
    forall k | k in DistinctKeys(xs, key) ensures OccursBefore(xs, key, |xs|, k) {
      DistinctKeyOccurs(xs, key, k);
    }
  }

  lemma {:induction false} DistinctKeyOccurs<T, K>(xs: seq<T>, key: T -> K, k: K)
    requires k in DistinctKeys(xs, key)
    ensures OccursBefore(xs, key, |xs|, k)
  {
    DistinctKeysMembership(xs, key, k);
    FilterNonEmptyOccurs(xs, key, k);
  }

  lemma {:induction false} FilterNonEmptyOccurs<T, K>(xs: seq<T>, key: T -> K, k: K)
    requires Filter(xs, key, k) != []
    ensures OccursBefore(xs, key, |xs|, k)
  {
    if key(xs[0]) != k {
      FilterNonEmptyOccurs(xs[1..], key, k);
      var m :| 0 <= m < |xs| - 1 && key(xs[1..][m]) == k;
      assert key(xs[m + 1]) == k;
    }
  }

  /**
   * The distinct keys come in first-occurrence order: an element whose key is listed later is
   * preceded by an element with each key listed earlier.
   */
  lemma {:induction false} DistinctKeysFirstOccurrence<T, K>(xs: seq<T>, key: T -> K)
    ensures forall a, b, n :: 0 <= a < b < |DistinctKeys(xs, key)| && 0 <= n < |xs| && key(xs[n]) == DistinctKeys(xs, key)[b] ==>
      OccursBefore(xs, key, n, DistinctKeys(xs, key)[a])
    decreases |xs|
  {
    if xs != [] {
      var init, x := xs[..|xs| - 1], xs[|xs| - 1];
      assert xs == init + [x];
      DistinctKeysFirstOccurrence(init, key);
      DistinctKeysOfElements(init, key);
      var d0, d := DistinctKeys(init, key), DistinctKeys(xs, key);
      assert d0 <= d;
      forall a, b, n | 0 <= a < b < |d| && 0 <= n < |xs| && key(xs[n]) == d[b]
        ensures OccursBefore(xs, key, n, d[a])
      {
        assert d[a] == d0[a] && d0[a] in d0;
        var m :| 0 <= m < |init| && key(init[m]) == d0[a];
        if n < |init| {
          assert xs[n] == init[n];
          if b < |d0| {
            assert OccursBefore(init, key, n, d0[a]);
            var m' :| 0 <= m' < n && m' < |init| && key(init[m']) == d0[a];
            assert xs[m'] == init[m'];
          } else {
            assert false;
          }
        } else {
          assert xs[m] == init[m];
        }
      }
    }
  }

  /** `map[k]` on an insertion-ordered map held as an association list: the value of the first entry with key `k`. */
  function Lookup<K(==), V>(entries: seq<(K, V)>, k: K): (r: Option<V>)
    ensures r.Some? ==> (k, r.value) in entries
    ensures r.None? <==> forall i :: 0 <= i < |entries| ==> entries[i].0 != k
  {
    if entries == [] then None
    else if entries[0].0 == k then Some(entries[0].1)
    else Lookup(entries[1..], k)
  }
}
