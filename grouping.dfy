/** LINQ `GroupBy(key)` followed by `ToDictionary(g => g.Key, g => g.ToList())`.
    `GroupBy` scans its source once; a group is opened when its key is first
    seen and every element is appended to the group of its key. */
module Grouping {

  datatype Group<K, T> = Group(key: K, items: seq<T>)

  /** The elements of `xs` whose key is `k`, in source order (the reference
      definition of one group). */
  function WithKey<T, K(==)>(xs: seq<T>, key: T -> K, k: K): (r: seq<T>)
    ensures |r| <= |xs|
    ensures forall i :: 0 <= i < |r| ==> r[i] in xs && key(r[i]) == k
  {
    if xs == [] then []
    else WithKey(xs[..|xs| - 1], key, k) + (if key(xs[|xs| - 1]) == k then [xs[|xs| - 1]] else [])
  }

  /** The distinct keys of `xs` in order of first appearance. */
  function KeysInOrder<T, K(==)>(xs: seq<T>, key: T -> K): seq<K> {
    if xs == [] then []
    else
      var ks := KeysInOrder(xs[..|xs| - 1], key);
      if key(xs[|xs| - 1]) in ks then ks else ks + [key(xs[|xs| - 1])]
  }

  predicate DistinctKeys<K(==), T>(gs: seq<Group<K, T>>) {
    forall i, j :: 0 <= i < j < |gs| ==> gs[i].key != gs[j].key
  }

  /** The index of the first group with key `k`, or `|gs|` when there is none. */
  function FirstKeyIndex<K(==), T>(gs: seq<Group<K, T>>, k: K): (i: nat)
    ensures i <= |gs|
    ensures i < |gs| ==> gs[i].key == k
    ensures forall j :: 0 <= j < i ==> gs[j].key != k
  {
    if gs == [] then 0 else if gs[0].key == k then 0 else 1 + FirstKeyIndex(gs[1..], k)
  }

  /** One step of the scan: append `x` to the group of `k`, or open that group. */
  function AddToGroup<K(==), T>(gs: seq<Group<K, T>>, k: K, x: T): (r: seq<Group<K, T>>)
    ensures var i := FirstKeyIndex(gs, k);
            r == if i < |gs| then gs[i := Group(k, gs[i].items + [x])] else gs + [Group(k, [x])]
  {
    if gs == [] then [Group(k, [x])]
    else if gs[0].key == k then [Group(k, gs[0].items + [x])] + gs[1..]
    else
      var r := [gs[0]] + AddToGroup(gs[1..], k, x);
      assert FirstKeyIndex(gs, k) == 1 + FirstKeyIndex(gs[1..], k);
      r
  }

  /** `xs.GroupBy(key)`, as the scan builds it. */
  function GroupBy<T, K(==)>(xs: seq<T>, key: T -> K): seq<Group<K, T>> {
    if xs == [] then []
    else AddToGroup(GroupBy(xs[..|xs| - 1], key), key(xs[|xs| - 1]), xs[|xs| - 1])
  }

  lemma {:induction false} KeysInOrderMembers<T, K>(xs: seq<T>, key: T -> K, k: K)
    ensures k in KeysInOrder(xs, key) <==> exists i :: 0 <= i < |xs| && key(xs[i]) == k
  {
    if xs != [] {
      var front := xs[..|xs| - 1];
      KeysInOrderMembers(front, key, k);
      if k in KeysInOrder(xs, key) && k !in KeysInOrder(front, key) {
        assert key(xs[|xs| - 1]) == k;
      }
      if exists i :: 0 <= i < |front| && key(front[i]) == k {
        var i :| 0 <= i < |front| && key(front[i]) == k;
        assert xs[i] == front[i];
      }
    }
  }

  lemma {:induction false} WithKeyEmpty<T, K>(xs: seq<T>, key: T -> K, k: K)
    requires forall i :: 0 <= i < |xs| ==> key(xs[i]) != k
    ensures WithKey(xs, key, k) == []
  {
    if xs != [] {
      WithKeyEmpty(xs[..|xs| - 1], key, k);
    }
  }

  /** `gs` lists, for each key of `xs` in order of first appearance, the reference group of that key. */
  ghost predicate GroupsMatch<T, K>(gs: seq<Group<K, T>>, xs: seq<T>, key: T -> K) {
    var ks := KeysInOrder(xs, key);
    |gs| == |ks| &&
    forall i :: 0 <= i < |gs| ==> gs[i].key == ks[i] && gs[i].items == WithKey(xs, key, ks[i])
  }

  predicate Distinct<K(==)>(ks: seq<K>) {
    forall i, j :: 0 <= i < j < |ks| ==> ks[i] != ks[j]
  }

  lemma {:induction false} KeysInOrderDistinct<T, K>(xs: seq<T>, key: T -> K)
    ensures Distinct(KeysInOrder(xs, key))
  {
    if xs != [] {
      var front := xs[..|xs| - 1];
      var ks0 := KeysInOrder(front, key);
      KeysInOrderDistinct(front, key);
      var k := key(xs[|xs| - 1]);
      if k !in ks0 {
        var ks := ks0 + [k];
        forall i, j | 0 <= i < j < |ks| ensures ks[i] != ks[j] {
          assert ks[i] == ks0[i] && ks0[i] in ks0;
          if j < |ks0| {
            assert ks[j] == ks0[j];
          }
        }
      }
    }
  }

  lemma ExtendedGroupAt<T, K>(gs: seq<Group<K, T>>, xs: seq<T>, key: T -> K, i0: nat, i: nat)
    requires xs != [] && GroupsMatch(gs, xs[..|xs| - 1], key) && Distinct(KeysInOrder(xs[..|xs| - 1], key))
    requires i0 < |gs| && KeysInOrder(xs[..|xs| - 1], key)[i0] == key(xs[|xs| - 1]) && i < |gs|
    ensures var g := gs[i0 := Group(key(xs[|xs| - 1]), gs[i0].items + [xs[|xs| - 1]])][i];
            g.key == KeysInOrder(xs[..|xs| - 1], key)[i] && g.items == WithKey(xs, key, KeysInOrder(xs[..|xs| - 1], key)[i])
  {
    var ks0 := KeysInOrder(xs[..|xs| - 1], key);
    if i != i0 {
      assert ks0[i] != ks0[i0];
    }
  }

  /** Appending an element whose key already has a group extends that group only. */
  lemma AddToExistingGroup<T, K>(gs: seq<Group<K, T>>, xs: seq<T>, key: T -> K)
    requires xs != [] && GroupsMatch(gs, xs[..|xs| - 1], key)
    requires key(xs[|xs| - 1]) in KeysInOrder(xs[..|xs| - 1], key)
    ensures GroupsMatch(AddToGroup(gs, key(xs[|xs| - 1]), xs[|xs| - 1]), xs, key)
  {
    var front, x := xs[..|xs| - 1], xs[|xs| - 1];
    var k := key(x);
    var ks0 := KeysInOrder(front, key);
    KeysInOrderDistinct(front, key);
    var i0 := FirstKeyIndex(gs, k);
    assert i0 < |gs| && ks0[i0] == k by {
      var i1 :| 0 <= i1 < |ks0| && ks0[i1] == k;
      assert gs[i1].key == k;
      assert i0 <= i1 && gs[i0].key == k;
    }
    var gs1 := gs[i0 := Group(k, gs[i0].items + [x])];
    assert AddToGroup(gs, k, x) == gs1;
    forall i | 0 <= i < |gs1| ensures gs1[i].key == ks0[i] && gs1[i].items == WithKey(xs, key, ks0[i]) {
      ExtendedGroupAt(gs, xs, key, i0, i);
    }
    assert KeysInOrder(xs, key) == ks0;
  }

  /** Appending an element with a new key opens a group for it at the end. */
  lemma OpenNewGroup<T, K>(gs: seq<Group<K, T>>, xs: seq<T>, key: T -> K)
    requires xs != [] && GroupsMatch(gs, xs[..|xs| - 1], key)
    requires key(xs[|xs| - 1]) !in KeysInOrder(xs[..|xs| - 1], key)
    ensures GroupsMatch(AddToGroup(gs, key(xs[|xs| - 1]), xs[|xs| - 1]), xs, key)
  {
    var front, x := xs[..|xs| - 1], xs[|xs| - 1];
    var k := key(x);
    var ks0 := KeysInOrder(front, key);
    var gs1 := AddToGroup(gs, k, x);
    assert FirstKeyIndex(gs, k) == |gs|;
    assert WithKey(front, key, k) == [] by {
      KeysInOrderMembers(front, key, k);
      WithKeyEmpty(front, key, k);
    }
    var ks := ks0 + [k];
    assert KeysInOrder(xs, key) == ks;
    forall i | 0 <= i < |gs1| ensures gs1[i].key == ks[i] && gs1[i].items == WithKey(xs, key, ks[i]) {
      if i < |gs| {
        assert ks[i] == ks0[i] && ks0[i] != k;
      }
    }
  }

  /** One step of the scan keeps the groups equal to the reference groups. */
  lemma GroupByStep<T, K>(xs: seq<T>, key: T -> K)
    requires xs != [] && GroupsMatch(GroupBy(xs[..|xs| - 1], key), xs[..|xs| - 1], key)
    ensures GroupsMatch(GroupBy(xs, key), xs, key)
  {
    if key(xs[|xs| - 1]) in KeysInOrder(xs[..|xs| - 1], key) {
      AddToExistingGroup(GroupBy(xs[..|xs| - 1], key), xs, key);
    } else {
      OpenNewGroup(GroupBy(xs[..|xs| - 1], key), xs, key);
    }
  }

  /** Each group of `GroupBy` is the reference group of its key, and the groups
      come in order of first appearance of their keys. */
  lemma {:induction false} GroupByMatchesReference<T, K>(xs: seq<T>, key: T -> K)
    ensures GroupsMatch(GroupBy(xs, key), xs, key)
  {
    if xs != [] {
      GroupByMatchesReference(xs[..|xs| - 1], key);
      GroupByStep(xs, key);
    }
  }

  /** No two groups share a key. */
  lemma GroupByDistinctKeys<T, K>(xs: seq<T>, key: T -> K)
    ensures DistinctKeys(GroupBy(xs, key))
  {
    GroupByMatchesReference(xs, key);
    KeysInOrderDistinct(xs, key);
    var gs := GroupBy(xs, key);
    var ks := KeysInOrder(xs, key);
    assert forall i :: 0 <= i < |gs| ==> gs[i].key == ks[i];
  }

  /** Every element lands in the group of its own key; no group is empty. */
  lemma GroupByPlacesEveryElement<T, K>(xs: seq<T>, key: T -> K)
    ensures forall i :: 0 <= i < |GroupBy(xs, key)| ==> GroupBy(xs, key)[i].items != []
    ensures (set i | 0 <= i < |GroupBy(xs, key)| :: GroupBy(xs, key)[i].key) == (set j | 0 <= j < |xs| :: key(xs[j]))
  {
    GroupByMatchesReference(xs, key);
    var gs := GroupBy(xs, key);
    var ks := KeysInOrder(xs, key);
    forall i | 0 <= i < |gs| ensures gs[i].items != [] {
      KeysInOrderMembers(xs, key, ks[i]);
      var j :| 0 <= j < |xs| && key(xs[j]) == ks[i];
      WithKeyContains(xs, key, j);
    }
    var groupKeys := set i | 0 <= i < |gs| :: gs[i].key;
    var sourceKeys := set j | 0 <= j < |xs| :: key(xs[j]);
    forall j | 0 <= j < |xs| ensures key(xs[j]) in groupKeys {
      KeysInOrderMembers(xs, key, key(xs[j]));
      var i :| 0 <= i < |ks| && ks[i] == key(xs[j]);
      assert gs[i].key == key(xs[j]);
    }
    forall i | 0 <= i < |gs| ensures gs[i].key in sourceKeys {
      KeysInOrderMembers(xs, key, ks[i]);
    }
    assert groupKeys <= sourceKeys;
    assert sourceKeys <= groupKeys;
  }

  lemma {:induction false} WithKeyContains<T, K>(xs: seq<T>, key: T -> K, j: nat)
    requires j < |xs|
    ensures xs[j] in WithKey(xs, key, key(xs[j]))
  {
    var front := xs[..|xs| - 1];
    if j < |xs| - 1 {
      assert front[j] == xs[j];
      WithKeyContains(front, key, j);
    }
  }

  function TotalSize<K, T>(gs: seq<Group<K, T>>): nat {
    if gs == [] then 0 else |gs[0].items| + TotalSize(gs[1..])
  }

  lemma {:induction false} AddToGroupSize<K, T>(gs: seq<Group<K, T>>, k: K, x: T)
    ensures TotalSize(AddToGroup(gs, k, x)) == TotalSize(gs) + 1
  {
    if gs != [] && gs[0].key != k {
      AddToGroupSize(gs[1..], k, x);
      assert AddToGroup(gs, k, x) == [gs[0]] + AddToGroup(gs[1..], k, x);
      assert AddToGroup(gs, k, x)[1..] == AddToGroup(gs[1..], k, x);
    } else if gs != [] {
      assert AddToGroup(gs, k, x) == [Group(k, gs[0].items + [x])] + gs[1..];
      assert AddToGroup(gs, k, x)[1..] == gs[1..];
    }
  }

  /** The group sizes add up to the number of elements. */
  lemma {:induction false} GroupBySizes<T, K>(xs: seq<T>, key: T -> K)
    ensures TotalSize(GroupBy(xs, key)) == |xs|
  {
    if xs != [] {
      GroupBySizes(xs[..|xs| - 1], key);
      AddToGroupSize(GroupBy(xs[..|xs| - 1], key), key(xs[|xs| - 1]), xs[|xs| - 1]);
    }
  }

  /** `ToDictionary(g => g.Key, g => g.ToList())`; distinct keys mean it never
      throws for a duplicate key. */
  function ToDictionary<K, T>(gs: seq<Group<K, T>>): (m: map<K, seq<T>>)
    requires DistinctKeys(gs)
    ensures m.Keys == set i | 0 <= i < |gs| :: gs[i].key
    ensures forall i :: 0 <= i < |gs| ==> m[gs[i].key] == gs[i].items
  {
    if gs == [] then map[]
    else
      var rest := ToDictionary(gs[1..]);
      assert forall i :: 1 <= i < |gs| ==> gs[i] == gs[1..][i - 1];
      rest[gs[0].key := gs[0].items]
  }

  /** The dictionary maps exactly the keys of the source, each to the
      source-ordered elements with that key. */
  lemma GroupedDictionary<T, K>(xs: seq<T>, key: T -> K)
    ensures DistinctKeys(GroupBy(xs, key))
    ensures var m := ToDictionary(GroupBy(xs, key));
            m.Keys == (set j | 0 <= j < |xs| :: key(xs[j])) &&
            (forall k :: k in m ==> m[k] == WithKey(xs, key, k) && m[k] != [])
  {
    GroupByMatchesReference(xs, key);
    GroupByDistinctKeys(xs, key);
    GroupByPlacesEveryElement(xs, key);
    var gs := GroupBy(xs, key);
    var m := ToDictionary(gs);
    forall k | k in m ensures m[k] == WithKey(xs, key, k) && m[k] != [] {
      var i :| 0 <= i < |gs| && gs[i].key == k;
    }
  }

  /** Grouping keeps source order: the group of `xs + ys` lists the
      elements from `xs` before those from `ys`. */
  lemma {:induction false} WithKeyConcat<T, K>(xs: seq<T>, ys: seq<T>, key: T -> K, k: K)
    ensures WithKey(xs + ys, key, k) == WithKey(xs, key, k) + WithKey(ys, key, k)
  {
    if ys == [] {
      assert xs + ys == xs;
    } else {
      var front := ys[..|ys| - 1];
      WithKeyConcat(xs, front, key, k);
      assert (xs + ys)[..|xs + ys| - 1] == xs + front;
    }
  }

  /** Every element is in the dictionary entry of its own key, and an entry
      holds only source elements with that key. */
  lemma DictionaryMembership<T, K>(xs: seq<T>, key: T -> K)
    ensures DistinctKeys(GroupBy(xs, key))
    ensures var m := ToDictionary(GroupBy(xs, key));
            (forall j :: 0 <= j < |xs| ==> key(xs[j]) in m && xs[j] in m[key(xs[j])]) &&
            (forall k, i :: k in m && 0 <= i < |m[k]| ==> m[k][i] in xs && key(m[k][i]) == k)
  {
    GroupedDictionary(xs, key);
    var m := ToDictionary(GroupBy(xs, key));
    forall j | 0 <= j < |xs| ensures key(xs[j]) in m && xs[j] in m[key(xs[j])] {
      assert key(xs[j]) in (set j' | 0 <= j' < |xs| :: key(xs[j']));
      WithKeyContains(xs, key, j);
    }
  }
}
