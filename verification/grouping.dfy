/**
  Grouping in first-appearance order: the `reduce((acc, x) => { acc[key(x)] ... }, {})`
  idiom followed by `Object.values` / `Object.entries`, whose order is the order in
  which keys were first inserted.
 */
module Grouping {
  import Seqs

  datatype Group<K, V> = Group(key: K, items: seq<V>)

  /** The members of `vs` whose key is `k`, in their original order. */
  function Select<K(==), V>(vs: seq<V>, key: V -> K, k: K): seq<V>
  {
    if |vs| == 0 then []
    else Select(vs[..|vs| - 1], key, k) + (if key(vs[|vs| - 1]) == k then [vs[|vs| - 1]] else [])
  }

  /** The items filed under `k`, or none when no group has that key. */
  function ItemsOf<K(==), V>(gs: seq<Group<K, V>>, k: K): seq<V>
  {
    if |gs| == 0 then []
    else if gs[0].key == k then gs[0].items
    else ItemsOf(gs[1..], k)
  }

  /** Files `v` under `k`: appended to that group, or a new group at the end. */
  function Place<K(==), V>(gs: seq<Group<K, V>>, k: K, v: V): seq<Group<K, V>>
  {
    if |gs| == 0 then [Group(k, [v])]
    else if gs[0].key == k then [Group(k, gs[0].items + [v])] + gs[1..]
    else [gs[0]] + Place(gs[1..], k, v)
  }

  /** Left fold of `Place` over `vs`. */
  function GroupBy<K(==), V>(vs: seq<V>, key: V -> K): seq<Group<K, V>>
  {
    if |vs| == 0 then []
    else Place(GroupBy(vs[..|vs| - 1], key), key(vs[|vs| - 1]), vs[|vs| - 1])
  }

  /** The keys of the groups. */
  ghost function Keys<K, V>(gs: seq<Group<K, V>>): set<K> {
    if |gs| == 0 then {} else {gs[0].key} + Keys(gs[1..])
  }

  /** No key names two groups. */
  ghost predicate DistinctKeys<K, V>(gs: seq<Group<K, V>>) {
    |gs| == 0 || (gs[0].key !in Keys(gs[1..]) && DistinctKeys(gs[1..]))
  }

  /** The keys occurring in `vs`. */
  ghost function KeysIn<K, V>(vs: seq<V>, key: V -> K): set<K> {
    if |vs| == 0 then {} else KeysIn(vs[..|vs| - 1], key) + {key(vs[|vs| - 1])}
  }

  /** Total number of items over all groups. */
  function Total<K, V>(gs: seq<Group<K, V>>): nat {
    if |gs| == 0 then 0 else |gs[0].items| + Total(gs[1..])
  }

  lemma {:induction false} PlaceItems<K, V>(gs: seq<Group<K, V>>, k: K, v: V, k': K)
    ensures ItemsOf(Place(gs, k, v), k') == ItemsOf(gs, k') + (if k' == k then [v] else [])
  {
    if |gs| > 0 && gs[0].key != k {
      PlaceItems(gs[1..], k, v, k');
    }
  }

  lemma {:induction false} PlaceShape<K, V>(gs: seq<Group<K, V>>, k: K, v: V)
    requires DistinctKeys(gs)
    ensures DistinctKeys(Place(gs, k, v))
    ensures Keys(Place(gs, k, v)) == Keys(gs) + {k}
    ensures Total(Place(gs, k, v)) == Total(gs) + 1
  {
    var p := Place(gs, k, v);
    if |gs| > 0 {
      if gs[0].key == k {
        assert p[1..] == gs[1..];
      } else {
        PlaceShape(gs[1..], k, v);
        assert p[1..] == Place(gs[1..], k, v);
      }
    }
  }

  /**
    Grouping is faithful: group keys are distinct and are exactly the keys
    that occur; each group holds, in order, the members with its key; and no
    member is lost or duplicated.
   */
  lemma {:induction false} GroupByFacts<K, V>(vs: seq<V>, key: V -> K)
    ensures DistinctKeys(GroupBy(vs, key))
    ensures Keys(GroupBy(vs, key)) == KeysIn(vs, key)
    ensures Total(GroupBy(vs, key)) == |vs|
    ensures forall k :: ItemsOf(GroupBy(vs, key), k) == Select(vs, key, k)
  {
    if |vs| > 0 {
      var init := vs[..|vs| - 1];
      var last := vs[|vs| - 1];
      GroupByFacts(init, key);
      PlaceShape(GroupBy(init, key), key(last), last);
      forall k ensures ItemsOf(GroupBy(vs, key), k) == Select(vs, key, k) {
        PlaceItems(GroupBy(init, key), key(last), last, k);
      }
    }
  }

  /** With distinct keys, a group's items are the ones `ItemsOf` finds for its key. */
  lemma {:induction false} ItemsOfMember<K, V>(gs: seq<Group<K, V>>, i: nat)
    requires DistinctKeys(gs) && i < |gs|
    ensures ItemsOf(gs, gs[i].key) == gs[i].items
  {
    if i > 0 {
      KeyOfMember(gs[1..], i - 1);
      ItemsOfMember(gs[1..], i - 1);
    }
  }

  lemma {:induction false} KeyOfMember<K, V>(gs: seq<Group<K, V>>, i: nat)
    requires i < |gs|
    ensures gs[i].key in Keys(gs)
  {
    if i > 0 {
      KeyOfMember(gs[1..], i - 1);
    }
  }

  /** A key that occurs has a non-empty group. */
  lemma {:induction false} SelectNonEmpty<K, V>(vs: seq<V>, key: V -> K, i: nat)
    requires i < |vs|
    ensures |Select(vs, key, key(vs[i]))| > 0
  {
    if i < |vs| - 1 {
      SelectNonEmpty(vs[..|vs| - 1], key, i);
    }
  }

  /** Every key that occurs names some member. */
  lemma {:induction false} KeysInWitness<K, V>(vs: seq<V>, key: V -> K, k: K)
    requires k in KeysIn(vs, key)
    ensures exists j :: 0 <= j < |vs| && key(vs[j]) == k
  {
    var init := vs[..|vs| - 1];
    if key(vs[|vs| - 1]) != k {
      KeysInWitness(init, key, k);
      var j :| 0 <= j < |init| && key(init[j]) == k;
      assert vs[j] == init[j];
    }
  }

  /** Distinct keys, stated by position. */
  lemma {:induction false} DistinctKeysIndex<K, V>(gs: seq<Group<K, V>>)
    requires DistinctKeys(gs)
    ensures forall i, j :: 0 <= i < j < |gs| ==> gs[i].key != gs[j].key
  {
    if |gs| > 0 {
      DistinctKeysIndex(gs[1..]);
      forall j | 0 < j < |gs| ensures gs[0].key != gs[j].key {
        KeyOfMember(gs[1..], j - 1);
      }
    }
  }

  /**
    A group of `GroupBy(vs, key)` holds the non-empty selection of its key,
    a key that some member carries; and no two groups share a key.
   */
  lemma GroupMember<K, V>(vs: seq<V>, key: V -> K, i: nat)
    requires i < |GroupBy(vs, key)|
    ensures GroupBy(vs, key)[i].items == Select(vs, key, GroupBy(vs, key)[i].key)
    ensures |GroupBy(vs, key)[i].items| > 0
    ensures exists j :: 0 <= j < |vs| && key(vs[j]) == GroupBy(vs, key)[i].key
    ensures forall j :: 0 <= j < |GroupBy(vs, key)| && j != i ==> GroupBy(vs, key)[j].key != GroupBy(vs, key)[i].key
  {
    var gs := GroupBy(vs, key);
    GroupByFacts(vs, key);
    ItemsOfMember(gs, i);
    assert ItemsOf(gs, gs[i].key) == Select(vs, key, gs[i].key);
    KeyOfMember(gs, i);
    KeysInWitness(vs, key, gs[i].key);
    var j :| 0 <= j < |vs| && key(vs[j]) == gs[i].key;
    SelectNonEmpty(vs, key, j);
    DistinctKeysIndex(gs);
  }

  /** `Select` is the order-preserving filter by key. */
  lemma {:induction false} SelectIsFilter<K, V>(vs: seq<V>, key: V -> K, k: K, p: V -> bool)
    requires forall v :: p(v) == (key(v) == k)
    ensures Select(vs, key, k) == Seqs.Filter(vs, p)
  {
    if |vs| > 0 {
      var init := vs[..|vs| - 1];
      SelectIsFilter(init, key, k, p);
      assert vs == init + [vs[|vs| - 1]];
      Seqs.FilterAppend(init, [vs[|vs| - 1]], p);
    }
  }

  /** Members that all share one key form a single group. */
  lemma {:induction false} GroupBySingleKey<K, V>(vs: seq<V>, key: V -> K, k: K)
    requires |vs| > 0 && forall i :: 0 <= i < |vs| ==> key(vs[i]) == k
    ensures GroupBy(vs, key) == [Group(k, vs)]
  {
    var init := vs[..|vs| - 1];
    if |init| > 0 {
      GroupBySingleKey(init, key, k);
      assert init + [vs[|vs| - 1]] == vs;
    } else {
      assert GroupBy(init, key) == [];
      assert vs == [vs[0]];
    }
  }

  /** A key that occurs is carried by some group. */
  lemma {:induction false} KeyIndex<K, V>(gs: seq<Group<K, V>>, k: K)
    requires k in Keys(gs)
    ensures exists i :: 0 <= i < |gs| && gs[i].key == k
  {
    if gs[0].key != k {
      KeyIndex(gs[1..], k);
      var i :| 0 <= i < |gs[1..]| && gs[1..][i].key == k;
      assert gs[i + 1].key == k;
    }
  }

  lemma {:induction false} KeysInMember<K, V>(vs: seq<V>, key: V -> K, j: nat)
    requires j < |vs|
    ensures key(vs[j]) in KeysIn(vs, key)
  {
    if j < |vs| - 1 {
      KeysInMember(vs[..|vs| - 1], key, j);
    }
  }

  /** Every key carried by a member names a group of `GroupBy(vs, key)`. */
  lemma GroupOfMember<K, V>(vs: seq<V>, key: V -> K, j: nat)
    requires j < |vs|
    ensures exists i :: 0 <= i < |GroupBy(vs, key)| && GroupBy(vs, key)[i].key == key(vs[j])
  {
    GroupByFacts(vs, key);
    KeysInMember(vs, key, j);
    KeyIndex(GroupBy(vs, key), key(vs[j]));
  }
}
