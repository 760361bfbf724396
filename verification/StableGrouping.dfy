/**
 Stable grouping by a key, the common core of the editor groups
 (customHomeBlockGroups.ts) and of the rendered sections
 (customHomeComposition.ts): buckets in first-occurrence order, items in input
 order inside a bucket.
 */
module StableGrouping {

  datatype Bucket<+T, +K> = Bucket(key: K, items: seq<T>)

  /** Distinct keys in the order of their first occurrence. */
  function FirstKeys<T, K(==)>(xs: seq<T>, key: T -> K): seq<K> {
    if xs == [] then [] else
      var before, k := FirstKeys(xs[..|xs| - 1], key), key(xs[|xs| - 1]);
      if k in before then before else before + [k]
  }

  /** The items with one key, in input order. */
  function Members<T, K(==)>(xs: seq<T>, key: T -> K, k: K): seq<T> {
    if xs == [] then [] else
      Members(xs[..|xs| - 1], key, k) + (if key(xs[|xs| - 1]) == k then [xs[|xs| - 1]] else [])
  }

  /** Every item is a member of the group of its key. */
  lemma {:induction false} MembersHoldAll<T, K>(xs: seq<T>, key: T -> K, i: nat)
    requires i < |xs|
    ensures xs[i] in Members(xs, key, key(xs[i]))
  {
    var n := |xs| - 1;
    if i < n {
      MembersHoldAll(xs[..n], key, i);
    }
  }

  function GroupBy<T, K(==)>(xs: seq<T>, key: T -> K): (gs: seq<Bucket<T, K>>)
    ensures |gs| == |FirstKeys(xs, key)|
  {
    var ks := FirstKeys(xs, key);
    seq(|ks|, i requires 0 <= i < |ks| => Bucket(ks[i], Members(xs, key, ks[i])))
  }

  function Flatten<T, K>(gs: seq<Bucket<T, K>>): seq<T> {
    if gs == [] then [] else Flatten(gs[..|gs| - 1]) + gs[|gs| - 1].items
  }

  /** All items of a run have one key. */
  ghost predicate Uniform<T, K>(run: seq<T>, key: T -> K, k: K) {
    forall i | 0 <= i < |run| :: key(run[i]) == k
  }

  /** Buckets are non-empty, hold only items with their key, and have distinct keys. */
  ghost predicate WellGrouped<T, K>(gs: seq<Bucket<T, K>>, key: T -> K) {
    && (forall i | 0 <= i < |gs| :: gs[i].items != [] && Uniform(gs[i].items, key, gs[i].key))
    && (forall i, j | 0 <= i < j < |gs| :: gs[i].key != gs[j].key)
  }

  // --- What grouping is ----------------------------------------------------

  ghost predicate Occurs<T, K>(xs: seq<T>, key: T -> K, k: K) {
    exists i | 0 <= i < |xs| :: key(xs[i]) == k
  }

  lemma OccursLast<T, K>(xs: seq<T>, key: T -> K, k: K)
    requires xs != []
    ensures Occurs(xs, key, k) <==> Occurs(xs[..|xs| - 1], key, k) || key(xs[|xs| - 1]) == k
  {
    var init := xs[..|xs| - 1];
    if Occurs(init, key, k) {
      var i :| 0 <= i < |init| && key(init[i]) == k;
      assert key(xs[i]) == k;
    }
    if Occurs(xs, key, k) {
      var i :| 0 <= i < |xs| && key(xs[i]) == k;
      assert i < |init| ==> key(init[i]) == k;
    }
  }

  lemma {:induction false} KeysOccur<T, K>(xs: seq<T>, key: T -> K, k: K)
    ensures k in FirstKeys(xs, key) <==> Occurs(xs, key, k)
  {
    if xs != [] {
      KeysOccur(xs[..|xs| - 1], key, k);
      OccursLast(xs, key, k);
    }
  }

  lemma {:induction false} KeysDistinct<T, K>(xs: seq<T>, key: T -> K)
    ensures forall i, j | 0 <= i < j < |FirstKeys(xs, key)| :: FirstKeys(xs, key)[i] != FirstKeys(xs, key)[j]
  {
    if xs != [] {
      KeysDistinct(xs[..|xs| - 1], key);
    }
  }

  lemma {:induction false} MembersHaveKey<T, K>(xs: seq<T>, key: T -> K, k: K)
    ensures Uniform(Members(xs, key, k), key, k)
    ensures Members(xs, key, k) == [] <==> !Occurs(xs, key, k)
  {
    if xs != [] {
      MembersHaveKey(xs[..|xs| - 1], key, k);
      OccursLast(xs, key, k);
    }
  }

  lemma GroupsAreWellGrouped<T, K>(xs: seq<T>, key: T -> K)
    ensures WellGrouped(GroupBy(xs, key), key)
  {
    KeysDistinct(xs, key);
    var ks, gs := FirstKeys(xs, key), GroupBy(xs, key);
    forall i | 0 <= i < |gs| ensures gs[i].items != [] && Uniform(gs[i].items, key, gs[i].key) {
      MembersHaveKey(xs, key, ks[i]);
      KeysOccur(xs, key, ks[i]);
    }
  }

  /** Adding one item at the end extends its bucket, or opens a new last one. */
  function Insert<T, K(==)>(gs: seq<Bucket<T, K>>, k: K, x: T): seq<Bucket<T, K>> {
    if gs == [] then [Bucket(k, [x])]
    else if gs[0].key == k then [Bucket(k, gs[0].items + [x])] + gs[1..]
    else [gs[0]] + Insert(gs[1..], k, x)
  }

  lemma InsertStep<T, K>(gs: seq<Bucket<T, K>>, k: K, x: T)
    ensures Insert(gs, k, x) ==
              if gs == [] then [Bucket(k, [x])]
              else if gs[0].key == k then [Bucket(k, gs[0].items + [x])] + gs[1..]
              else [gs[0]] + Insert(gs[1..], k, x)
  {
  }

  lemma {:induction false} InsertAt<T, K>(gs: seq<Bucket<T, K>>, k: K, x: T)
    requires forall i, j | 0 <= i < j < |gs| :: gs[i].key != gs[j].key
    ensures var r := Insert(gs, k, x);
            && |gs| <= |r| <= |gs| + 1
            && (forall i | 0 <= i < |gs| :: r[i].key == gs[i].key
                 && r[i].items == if gs[i].key == k then gs[i].items + [x] else gs[i].items)
            && (|r| == |gs| + 1 <==> forall i | 0 <= i < |gs| :: gs[i].key != k)
            && (|r| == |gs| + 1 ==> r[|gs|] == Bucket(k, [x]))
  {
    InsertStep(gs, k, x);
    hide Insert;
    if gs != [] && gs[0].key != k {
      InsertAt(gs[1..], k, x);
      assert forall i | 0 < i < |gs| :: gs[i] == gs[1..][i - 1];
    }
  }

  lemma KeysSnoc<T, K>(xs: seq<T>, key: T -> K, x: T)
    ensures FirstKeys(xs + [x], key)
         == if key(x) in FirstKeys(xs, key) then FirstKeys(xs, key) else FirstKeys(xs, key) + [key(x)]
  {
    assert (xs + [x])[..|xs|] == xs;
  }

  lemma MembersSnoc<T, K>(xs: seq<T>, key: T -> K, x: T, k: K)
    ensures Members(xs + [x], key, k) == Members(xs, key, k) + if key(x) == k then [x] else []
  {
    assert (xs + [x])[..|xs|] == xs;
  }

  lemma GroupBySnoc<T, K>(xs: seq<T>, key: T -> K, x: T)
    ensures GroupBy(xs + [x], key) == Insert(GroupBy(xs, key), key(x), x)
  {
    hide FirstKeys, Members, Insert, Occurs, Uniform;
    var ks, gs, all := FirstKeys(xs, key), GroupBy(xs, key), GroupBy(xs + [x], key);
    var r := Insert(gs, key(x), x);
    KeysDistinct(xs, key);
    InsertAt(gs, key(x), x);
    KeysSnoc(xs, key, x);
    assert key(x) in ks <==> |r| == |gs| by {
      assert forall i | 0 <= i < |gs| :: gs[i].key == ks[i];
    }
    forall i | 0 <= i < |all| ensures all[i] == r[i] {
      MembersSnoc(xs, key, x, FirstKeys(xs + [x], key)[i]);
      if i == |gs| {
        KeysOccur(xs, key, key(x));
        MembersHaveKey(xs, key, key(x));
      }
    }
  }

  // --- Flattening ----------------------------------------------------------

  lemma {:induction false} FlattenCons<T, K>(b: Bucket<T, K>, gs: seq<Bucket<T, K>>)
    ensures Flatten([b] + gs) == b.items + Flatten(gs)
  {
    if gs == [] {
      assert [b] + gs == [b] && [b][..0] == [];
    } else {
      var n := |gs| - 1;
      FlattenCons(b, gs[..n]);
      assert ([b] + gs)[..|gs|] == [b] + gs[..n];
    }
  }

  lemma {:induction false} FlattenInsert<T, K>(gs: seq<Bucket<T, K>>, k: K, x: T)
    ensures multiset(Flatten(Insert(gs, k, x))) == multiset(Flatten(gs)) + multiset{x}
  {
    if gs == [] {
      FlattenCons(Bucket(k, [x]), []);
      assert [Bucket(k, [x])] + [] == [Bucket(k, [x])];
    } else {
      FlattenCons(gs[0], gs[1..]);
      assert [gs[0]] + gs[1..] == gs;
      if gs[0].key == k {
        FlattenCons(Bucket(k, gs[0].items + [x]), gs[1..]);
      } else {
        FlattenInsert(gs[1..], k, x);
        FlattenCons(gs[0], Insert(gs[1..], k, x));
      }
    }
  }

  /** Every item lands in exactly one bucket, as often as it occurs. */
  lemma {:induction false} GroupingIsPermutation<T, K>(xs: seq<T>, key: T -> K)
    ensures multiset(Flatten(GroupBy(xs, key))) == multiset(xs)
  {
    if xs != [] {
      var init, x := xs[..|xs| - 1], xs[|xs| - 1];
      assert xs == init + [x];
      GroupingIsPermutation(init, key);
      GroupBySnoc(init, key, x);
      FlattenInsert(GroupBy(init, key), key(x), x);
    }
  }

  lemma {:induction false} MembersConcat<T, K>(xs: seq<T>, ys: seq<T>, key: T -> K, k: K)
    ensures Members(xs + ys, key, k) == Members(xs, key, k) + Members(ys, key, k)
  {
    if ys == [] {
      assert xs + ys == xs;
    } else {
      var n := |ys| - 1;
      MembersConcat(xs, ys[..n], key, k);
      assert (xs + ys)[..|xs + ys| - 1] == xs + ys[..n];
    }
  }

  /** A run of items of one key adds that key once, after the keys already present. */
  lemma {:induction false} UniformRunKeys<T, K>(xs: seq<T>, run: seq<T>, key: T -> K, k: K)
    requires run != [] && Uniform(run, key, k) && k !in FirstKeys(xs, key)
    ensures FirstKeys(xs + run, key) == FirstKeys(xs, key) + [k]
  {
    var n := |run| - 1;
    assert (xs + run)[..|xs + run| - 1] == xs + run[..n];
    if n == 0 {
      assert xs + run[..n] == xs;
    } else {
      UniformRunKeys(xs, run[..n], key, k);
    }
  }

  lemma {:induction false} UniformRunMembers<T, K>(run: seq<T>, key: T -> K, k: K, other: K)
    requires Uniform(run, key, k)
    ensures Members(run, key, other) == if other == k then run else []
  {
    if run != [] {
      var n := |run| - 1;
      UniformRunMembers(run[..n], key, k, other);
      assert run == run[..n] + [run[n]];
    }
  }

  /** One more bucket at the end is one more group at the end. */
  lemma GroupBySnocRun<T, K>(xs: seq<T>, last: Bucket<T, K>, key: T -> K)
    requires last.items != [] && Uniform(last.items, key, last.key) && last.key !in FirstKeys(xs, key)
    ensures GroupBy(xs + last.items, key) == GroupBy(xs, key) + [last]
  {
    hide FirstKeys, Members, Occurs;
    var ks, all := FirstKeys(xs, key), GroupBy(xs + last.items, key);
    UniformRunKeys(xs, last.items, key, last.key);
    KeysOccur(xs, key, last.key);
    MembersHaveKey(xs, key, last.key);
    forall i | 0 <= i < |all| ensures all[i] == (GroupBy(xs, key) + [last])[i] {
      var k := (ks + [last.key])[i];
      MembersConcat(xs, last.items, key, k);
      UniformRunMembers(last.items, key, last.key, k);
    }
  }

  /** The main fact: flattening well-grouped buckets and grouping again gives the same buckets. */
  lemma {:induction false} GroupByFlatten<T, K>(gs: seq<Bucket<T, K>>, key: T -> K)
    requires WellGrouped(gs, key)
    ensures GroupBy(Flatten(gs), key) == gs
  {
    if gs != [] {
      var n := |gs| - 1;
      var flat := Flatten(gs[..n]);
      GroupByFlatten(gs[..n], key);
      var ks := FirstKeys(flat, key);
      assert forall i | 0 <= i < n :: ks[i] == GroupBy(flat, key)[i].key == gs[i].key;
      GroupBySnocRun(flat, gs[n], key);
      assert gs == gs[..n] + [gs[n]];
    }
  }

  /** Regrouping grouped items changes nothing. */
  lemma GroupingIsIdempotent<T, K>(xs: seq<T>, key: T -> K)
    ensures GroupBy(Flatten(GroupBy(xs, key)), key) == GroupBy(xs, key)
  {
    GroupsAreWellGrouped(xs, key);
    GroupByFlatten(GroupBy(xs, key), key);
  }

  /** Items with one key are neighbours. */
  ghost predicate Contiguous<T, K>(xs: seq<T>, key: T -> K) {
    forall i, j, k | 0 <= i < j < k < |xs| && key(xs[i]) == key(xs[k]) :: key(xs[j]) == key(xs[i])
  }

  lemma {:induction false} FlattenContiguous<T, K>(gs: seq<Bucket<T, K>>, key: T -> K)
    requires WellGrouped(gs, key)
    ensures Contiguous(Flatten(gs), key)
    ensures forall p | 0 <= p < |Flatten(gs)| :: exists i :: 0 <= i < |gs| && gs[i].key == key(Flatten(gs)[p])
  {
    if gs != [] {
      var n := |gs| - 1;
      FlattenContiguous(gs[..n], key);
      var flat, last, all := Flatten(gs[..n]), gs[n].items, Flatten(gs);
      assert forall p | 0 <= p < |flat| :: all[p] == flat[p] && key(all[p]) != gs[n].key;
      assert forall p | |flat| <= p < |all| :: all[p] == last[p - |flat|] && key(all[p]) == gs[n].key;
    }
  }

  lemma {:induction false} MembersFrom<T, K>(xs: seq<T>, key: T -> K, k: K)
    ensures forall x | x in Members(xs, key, k) :: x in xs
  {
    if xs != [] {
      MembersFrom(xs[..|xs| - 1], key, k);
    }
  }

  lemma {:induction false} FlattenConcat<T, K>(gs: seq<Bucket<T, K>>, hs: seq<Bucket<T, K>>)
    ensures Flatten(gs + hs) == Flatten(gs) + Flatten(hs)
  {
    if hs == [] {
      assert gs + hs == gs;
    } else {
      var n := |hs| - 1;
      FlattenConcat(gs, hs[..n]);
      assert (gs + hs)[..|gs + hs| - 1] == gs + hs[..n];
    }
  }

  // --- The loop of both callers --------------------------------------------

  /** A JavaScript Map, as its insertion order and its table, holds these buckets. */
  ghost predicate MapHolds<T, K>(order: seq<K>, table: map<K, seq<T>>, gs: seq<Bucket<T, K>>) {
    && |order| == |gs|
    && (forall k | k in table :: k in order)
    && (forall i | 0 <= i < |gs| :: order[i] == gs[i].key && order[i] in table && table[order[i]] == gs[i].items)
    && (forall i, j | 0 <= i < j < |gs| :: order[i] != order[j])
  }

  /** Pushing to an existing group is an insertion. */
  lemma MapPush<T, K>(order: seq<K>, table: map<K, seq<T>>, gs: seq<Bucket<T, K>>, k: K, x: T)
    requires MapHolds(order, table, gs) && k in table
    ensures MapHolds(order, table[k := table[k] + [x]], Insert(gs, k, x))
  {
    hide Insert;
    InsertAt(gs, k, x);
    var i :| 0 <= i < |order| && order[i] == k;
    assert gs[i].key == k;
  }

  /** Setting a new group is an insertion. */
  lemma MapOpen<T, K>(order: seq<K>, table: map<K, seq<T>>, gs: seq<Bucket<T, K>>, k: K, x: T)
    requires MapHolds(order, table, gs) && k !in table
    ensures MapHolds(order + [k], table[k := [x]], Insert(gs, k, x))
  {
    InsertAt(gs, k, x);
    assert k !in order;
    assert forall i | 0 <= i < |gs| :: gs[i].key != k;
  }

  lemma NothingHeld<T, K>(key: T -> K)
    ensures MapHolds([], map[], GroupBy<T, K>([], key))
  {
  }

  /** One round of the loop: the item at `n` goes to its group. */
  lemma HeldNext<T, K>(xs: seq<T>, n: nat, key: T -> K, order: seq<K>, table: map<K, seq<T>>)
    requires n < |xs| && MapHolds(order, table, GroupBy(xs[..n], key))
    ensures var k := key(xs[n]);
            if k in table then MapHolds(order, table[k := table[k] + [xs[n]]], GroupBy(xs[..n + 1], key))
            else MapHolds(order + [k], table[k := [xs[n]]], GroupBy(xs[..n + 1], key))
  {
    hide GroupBy, MapHolds;
    GroupBySnoc(xs[..n], key, xs[n]);
    assert xs[..n + 1] == xs[..n] + [xs[n]];
    if key(xs[n]) in table {
      MapPush(order, table, GroupBy(xs[..n], key), key(xs[n]), xs[n]);
    } else {
      MapOpen(order, table, GroupBy(xs[..n], key), key(xs[n]), xs[n]);
    }
  }

  /** After the loop, the map holds the groups of all items, none of them empty. */
  lemma AllHeld<T, K>(xs: seq<T>, key: T -> K, order: seq<K>, table: map<K, seq<T>>)
    requires MapHolds(order, table, GroupBy(xs[..|xs|], key))
    ensures |order| == |GroupBy(xs, key)|
    ensures forall i | 0 <= i < |order| ::
              && order[i] in table && table[order[i]] != []
              && GroupBy(xs, key)[i] == Bucket(order[i], table[order[i]])
  {
    assert xs[..|xs|] == xs;
    GroupsAreWellGrouped(xs, key);
    hide GroupBy;
  }
}
