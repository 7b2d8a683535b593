/** Grouping a list by a key, as the application does four times with a
    `reduce` (or `forEach`) that pushes each item into an accumulator object
    keyed by one of its fields, then reads the object back with
    `Object.entries` / `Object.values`, whose order is the order in which the
    keys were first inserted. */
module Grouping {

  /** The distinct keys of `xs`, in order of first occurrence. */
  function Keys<T, K(==)>(xs: seq<T>, key: T -> K): (ks: seq<K>)
    decreases |xs|
  {
    if xs == [] then []
    else
      var ks := Keys(xs[..|xs| - 1], key);
      if key(xs[|xs| - 1]) in ks then ks else ks + [key(xs[|xs| - 1])]
  }

  /** The items of `xs` whose key is `k`, in their original order. */
  function Group<T, K(==)>(xs: seq<T>, key: T -> K, k: K): (g: seq<T>)
    decreases |xs|
  {
    if xs == [] then []
    else Group(xs[..|xs| - 1], key, k) + (if key(xs[|xs| - 1]) == k then [xs[|xs| - 1]] else [])
  }

  /** No key is listed twice. */
  lemma {:induction false} KeysDistinct<T, K>(xs: seq<T>, key: T -> K)
    ensures forall i, j :: 0 <= i < j < |Keys(xs, key)| ==> Keys(xs, key)[i] != Keys(xs, key)[j]
    decreases |xs|
  {
    if xs != [] {
      KeysDistinct(xs[..|xs| - 1], key);
    }
  }

  /** A key is listed exactly when some item carries it. */
  lemma {:induction false} KeysExact<T, K>(xs: seq<T>, key: T -> K, k: K)
    ensures k in Keys(xs, key) <==> exists i :: 0 <= i < |xs| && key(xs[i]) == k
    decreases |xs|
  {
    if xs != [] {
      var init := xs[..|xs| - 1];
      KeysExact(init, key, k);
      if exists i :: 0 <= i < |init| && key(init[i]) == k {
        var i :| 0 <= i < |init| && key(init[i]) == k;
        assert key(xs[i]) == k;
      }
      if exists i :: 0 <= i < |xs| && key(xs[i]) == k {
        var i :| 0 <= i < |xs| && key(xs[i]) == k;
        if i < |init| {
          assert key(init[i]) == k;
        }
      }
    }
  }

  /** Every item of a group carries the group's key. */
  lemma {:induction false} GroupKey<T, K>(xs: seq<T>, key: T -> K, k: K)
    ensures forall j :: 0 <= j < |Group(xs, key, k)| ==> key(Group(xs, key, k)[j]) == k
    decreases |xs|
  {
    if xs != [] {
      GroupKey(xs[..|xs| - 1], key, k);
    }
  }

  /** A group is non-empty exactly when its key is listed. */
  lemma {:induction false} GroupNonEmptyIffKey<T, K>(xs: seq<T>, key: T -> K, k: K)
    ensures |Group(xs, key, k)| > 0 <==> k in Keys(xs, key)
    decreases |xs|
  {
    if xs != [] {
      GroupNonEmptyIffKey(xs[..|xs| - 1], key, k);
    }
  }

  /** An item lies in a group exactly when it is an item of `xs` carrying the
      group's key: each item is filed under its own key and under no other. */
  lemma {:induction false} GroupMembership<T, K>(xs: seq<T>, key: T -> K, k: K, x: T)
    ensures x in Group(xs, key, k) <==> x in xs && key(x) == k
    decreases |xs|
  {
    if xs != [] {
      var init := xs[..|xs| - 1];
      GroupMembership(init, key, k, x);
      assert xs == init + [xs[|xs| - 1]];
    }
  }

  /** The total size of the groups named by `ks`. */
  function TotalSize<T, K(==)>(xs: seq<T>, key: T -> K, ks: seq<K>): nat
  {
    if ks == [] then 0 else TotalSize(xs, key, ks[..|ks| - 1]) + |Group(xs, key, ks[|ks| - 1])|
  }

  /** Appending an item whose key is `k` grows the total over `ks` by one if
      `k` is named once in `ks`, and not at all if it is absent. */
  lemma {:induction false} TotalSizeSnoc<T, K>(xs: seq<T>, key: T -> K, x: T, ks: seq<K>)
    requires forall i, j :: 0 <= i < j < |ks| ==> ks[i] != ks[j]
    ensures TotalSize(xs + [x], key, ks)
            == TotalSize(xs, key, ks) + (if key(x) in ks then 1 else 0)
    decreases |ks|
  {
    var ys := xs + [x];
    assert ys[..|ys| - 1] == xs;
    if ks != [] {
      var init := ks[..|ks| - 1];
      TotalSizeSnoc(xs, key, x, init);
      assert key(x) in ks <==> key(x) in init || key(x) == ks[|ks| - 1];
      if key(x) == ks[|ks| - 1] {
        assert key(x) !in init;
      }
    }
  }

  /** Grouping loses and duplicates nothing: the groups' sizes add up to the
      number of items. */
  lemma {:induction false} GroupsPartition<T, K>(xs: seq<T>, key: T -> K)
    ensures TotalSize(xs, key, Keys(xs, key)) == |xs|
    decreases |xs|
  {
    if xs != [] {
      var init, x := xs[..|xs| - 1], xs[|xs| - 1];
      assert xs == init + [x];
      GroupsPartition(init, key);
      KeysDistinct(init, key);
      TotalSizeSnoc(init, key, x, Keys(init, key));
      var ks := Keys(init, key);
      if key(x) !in ks {
        GroupNonEmptyIffKey(init, key, key(x));
        assert Group(init, key, key(x)) == [];
        assert Keys(xs, key) == ks + [key(x)];
        assert (ks + [key(x)])[..|ks|] == ks;
      }
    }
  }

  /** The accumulating loop: one pass over `xs` that creates a key's entry
      the first time the key is met and pushes each item into its key's entry. */
  method GroupBy<T, K(==)>(xs: seq<T>, key: T -> K) returns (order: seq<K>, groups: map<K, seq<T>>)
    ensures order == Keys(xs, key)
    ensures forall k :: k in groups <==> k in order
    ensures forall k :: k in groups ==> groups[k] == Group(xs, key, k)
  {
    order, groups := [], map[];
    var i := 0;
    while i < |xs|
      invariant 0 <= i <= |xs|
      invariant order == Keys(xs[..i], key)
      invariant forall k :: k in groups <==> k in order
      invariant forall k :: k in groups ==> groups[k] == Group(xs[..i], key, k)
    {
      assert xs[..i + 1][..i] == xs[..i];
      var k := key(xs[i]);
      if k !in groups {
        GroupNonEmptyIffKey(xs[..i], key, k);
        groups := groups[k := []];
        order := order + [k];
      }
      groups := groups[k := groups[k] + [xs[i]]];
      i := i + 1;
    }
    assert xs[..i] == xs;
  }
}
