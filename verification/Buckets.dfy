/** The two ways the pipeline builds groups in place: a list searched by key, and a map sorted by first member. */
module Buckets {
  import opened Prelude
  import opened Grouping

  // ---- A list of buckets ------------------------------------------------

  lemma OneMoreItem(items: seq<Item>, l: Level, x: Item, y: Item)
    ensures GroupOf(items + [x], l, y) == GroupOf(items, l, y) + if KeyAt(l, x) == KeyAt(l, y) then [x] else []
  {
    KeepAppend(items, [x], KeyIs(l, KeyAt(l, y)));
    assert [x][1..] == [];
  }

  lemma JoinedGroup(groups: seq<seq<Item>>, items: seq<Item>, l: Level, x: Item, j: nat, i: nat)
    requires Partitions(groups, items, l) && j < |groups| && groups[j] != [] && KeyAt(l, groups[j][0]) == KeyAt(l, x)
    requires i < |groups|
    ensures var g := groups[j := groups[j] + [x]][i];
      g != [] && g[0] in items && g == GroupOf(items + [x], l, g[0])
  {
    assert groups[i] in groups;
    OneMoreItem(items, l, x, groups[i][0]);
    if i != j { DifferentKeys(groups, items, l, i, j); }
  }

  lemma JoinCovers(groups: seq<seq<Item>>, items: seq<Item>, l: Level, x: Item, j: nat, y: Item)
    requires Partitions(groups, items, l) && j < |groups| && groups[j] != [] && KeyAt(l, groups[j][0]) == KeyAt(l, x)
    requires y in items + [x]
    ensures GroupOf(items + [x], l, y) in groups[j := groups[j] + [x]]
  {
    var after := groups[j := groups[j] + [x]];
    assert groups[j] in groups;
    OneMoreItem(items, l, x, y);
    var z := if y in items then y else groups[j][0];
    assert GroupOf(items, l, z) in groups;
    var i :| 0 <= i < |groups| && groups[i] == GroupOf(items, l, z);
    KeepMembers(items, KeyIs(l, KeyAt(l, z)));
    assert groups[i][0] in groups[i];
    if i != j { DifferentKeys(groups, items, l, i, j); }
    assert after[i] == GroupOf(items + [x], l, y);
  }

  lemma Joins(groups: seq<seq<Item>>, items: seq<Item>, l: Level, x: Item, j: nat)
    requires Partitions(groups, items, l) && j < |groups| && groups[j] != [] && KeyAt(l, groups[j][0]) == KeyAt(l, x)
    ensures Partitions(groups[j := groups[j] + [x]], items + [x], l)
  {
    var after := groups[j := groups[j] + [x]];
    forall g | g in after ensures g != [] && g[0] in items && g == GroupOf(items + [x], l, g[0]) {
      var i :| 0 <= i < |after| && after[i] == g;
      JoinedGroup(groups, items, l, x, j, i);
    }
    forall y | y in items + [x] ensures GroupOf(items + [x], l, y) in after { JoinCovers(groups, items, l, x, j, y); }
    hide GroupOf;
  }

  lemma DifferentKeys(groups: seq<seq<Item>>, items: seq<Item>, l: Level, i: nat, j: nat)
    requires Partitions(groups, items, l) && i < |groups| && j < |groups| && i != j
    ensures groups[i] != [] && groups[j] != [] && KeyAt(l, groups[i][0]) != KeyAt(l, groups[j][0])
  {
    assert groups[i] in groups && groups[j] in groups;
  }

  predicate NoneHasKey(groups: seq<seq<Item>>, l: Level, x: Item) {
    forall i :: 0 <= i < |groups| && groups[i] != [] ==> KeyAt(l, groups[i][0]) != KeyAt(l, x)
  }

  lemma OpenedGroups(groups: seq<seq<Item>>, items: seq<Item>, l: Level, x: Item, i: nat)
    requires Partitions(groups, items, l) && NoneHasKey(groups, l, x) && i <= |groups|
    ensures var g := (groups + [[x]])[i]; g != [] && g[0] in items + [x] && g == GroupOf(items + [x], l, g[0])
  {
    NewKey(groups, items, l, x);
    if i < |groups| {
      assert groups[i] in groups;
      OneMoreItem(items, l, x, groups[i][0]);
    } else {
      OneMoreItem(items, l, x, x);
    }
    hide Keep, FirstsAscend;
  }

  lemma OpenedCovers(groups: seq<seq<Item>>, items: seq<Item>, l: Level, x: Item, y: Item)
    requires Partitions(groups, items, l) && NoneHasKey(groups, l, x) && y in items + [x]
    ensures GroupOf(items + [x], l, y) in groups + [[x]]
  {
    var after := groups + [[x]];
    NewKey(groups, items, l, x);
    OneMoreItem(items, l, x, y);
    hide Keep, FirstsAscend;
    assert after[|groups|] == [x] && [] + [x] == [x];
    if y in items {
      assert GroupOf(items, l, y) in groups;
      var i :| 0 <= i < |groups| && groups[i] == GroupOf(items, l, y);
      assert after[i] == GroupOf(items, l, y) + [];
    }
  }

  lemma Opens(groups: seq<seq<Item>>, items: seq<Item>, l: Level, x: Item)
    requires Partitions(groups, items, l) && Ordered(items + [x]) && NoneHasKey(groups, l, x)
    ensures Partitions(groups + [[x]], items + [x], l)
  {
    var after := groups + [[x]];
    LastAscends(groups, items, l, x);
    forall i | 0 <= i <= |groups|
      ensures after[i] != [] && after[i][0] in items + [x] && after[i] == GroupOf(items + [x], l, after[i][0])
    {
      OpenedGroups(groups, items, l, x, i);
    }
    forall y | y in items + [x] ensures GroupOf(items + [x], l, y) in after { OpenedCovers(groups, items, l, x, y); }
    hide Keep, Ordered, FirstsAscend, GroupOf;
  }

  lemma LastAscends(groups: seq<seq<Item>>, items: seq<Item>, l: Level, x: Item)
    requires Partitions(groups, items, l) && Ordered(items + [x])
    ensures FirstsAscend(groups + [[x]])
  {
    forall i | 0 <= i < |groups| ensures groups[i] != [] ==> groups[i][0].ordinal < x.ordinal {
      assert groups[i] in groups;
      if groups[i] != [] {
        var m :| 0 <= m < |items| && items[m] == groups[i][0];
        assert (items + [x])[m] == items[m] && (items + [x])[|items|] == x;
      }
    }
  }

  /** A key no group has is no item's key. */
  lemma NewKey(groups: seq<seq<Item>>, items: seq<Item>, l: Level, x: Item)
    requires Partitions(groups, items, l) && NoneHasKey(groups, l, x)
    ensures GroupOf(items, l, x) == [] && forall y :: y in items ==> KeyAt(l, y) != KeyAt(l, x)
  {
    var g := GroupOf(items, l, x);
    assert g != [] ==> g[0] in g;
    forall y | y in items ensures KeyAt(l, y) != KeyAt(l, x) {
      assert GroupOf(items, l, y) in groups;
      var i :| 0 <= i < |groups| && groups[i] == GroupOf(items, l, y);
      KeepMembers(items, KeyIs(l, KeyAt(l, y)));
      assert groups[i][0] in groups[i];
    }
    KeepMembers(items, KeyIs(l, KeyAt(l, x)));
  }

  /** The bucket with the item's key, or the end of the list. */
  method FindBucket(buckets: seq<seq<Item>>, x: Item) returns (j: nat)
    requires forall k :: 0 <= k < |buckets| ==> buckets[k] != []
    ensures j <= |buckets|
    ensures if j < |buckets| then KeyAt(ByBucket, buckets[j][0]) ==
      KeyAt(ByBucket, x) else NoneHasKey(buckets, ByBucket, x)
  {
    j := 0;
    while j < |buckets| && KeyAt(ByBucket, buckets[j][0]) != KeyAt(ByBucket, x)
      invariant 0 <= j <= |buckets|
      invariant forall k :: 0 <= k < j ==> KeyAt(ByBucket, buckets[k][0]) != KeyAt(ByBucket, x)
    {
      j := j + 1;
    }
  }

  lemma NoEmptyGroups(groups: seq<seq<Item>>, items: seq<Item>, l: Level)
    requires Partitions(groups, items, l)
    ensures forall k :: 0 <= k < |groups| ==> groups[k] != []
  {
    assert forall k :: 0 <= k < |groups| ==> groups[k] in groups;
  }

  lemma PrefixOrdered(items: seq<Item>, i: nat)
    requires Ordered(items) && i < |items|
    ensures items[..i + 1] == items[..i] + [items[i]] && Ordered(items[..i] + [items[i]])
  {
    assert Ordered(items[..i + 1]);
  }

  /** Size buckets at their first input's position, found by linear search. */
  method MakeBuckets(items: seq<Item>) returns (buckets: seq<seq<Item>>)
    requires Ordered(items)
    ensures buckets == GroupBy(items, ByBucket)
  {
    buckets := [];
    assert Partitions(buckets, items[..0], ByBucket);
    hide Partitions, Ordered, GroupBy, NoneHasKey;
    var i := 0;
    while i < |items|
      invariant 0 <= i <= |items| && Partitions(buckets, items[..i], ByBucket)
    {
      var x := items[i];
      PrefixOrdered(items, i);
      NoEmptyGroups(buckets, items[..i], ByBucket);
      var j := FindBucket(buckets, x);
      if j < |buckets| {
        Joins(buckets, items[..i], ByBucket, x, j);
        buckets := buckets[j := buckets[j] + [x]];
      } else {
        Opens(buckets, items[..i], ByBucket, x);
        buckets := buckets + [[x]];
      }
      i := i + 1;
    }
    assert items[..i] == items;
    GroupingIsUnique(buckets, items, ByBucket);
  }

  // ---- A map from digests, put in stable order --------------------------

  /** The map holds the groups of the items seen so far, by digest. */
  ghost predicate Collects(m: map<nat, seq<Item>>, items: seq<Item>, l: Level) {
    && (forall d :: d in m ==> m[d] == Keep(items, KeyIs(l, Digest(d))) && m[d] != [])
    && (forall x :: x in items ==> KeyAt(l, x).Digest? && KeyAt(l, x).digest in m)
  }

  /** `entry(digest).or_default().push(item)`. */
  function Push(m: map<nat, seq<Item>>, d: nat, x: Item): map<nat, seq<Item>> {
    m[d := (if d in m then m[d] else []) + [x]]
  }

  lemma PushCollects(m: map<nat, seq<Item>>, items: seq<Item>, l: Level, d: nat, x: Item)
    requires Collects(m, items, l) && KeyAt(l, x) == Digest(d)
    ensures Collects(Push(m, d, x), items + [x], l)
  {
    var after := Push(m, d, x);
    forall e | e in after ensures after[e] == Keep(items + [x], KeyIs(l, Digest(e))) {
      KeepAppend(items, [x], KeyIs(l, Digest(e)));
      assert [x][1..] == [];
      if e == d && d !in m {
        var g := Keep(items, KeyIs(l, Digest(d)));
        assert g != [] ==> g[0] in g;
        KeepMembers(items, KeyIs(l, Digest(d)));
        assert g == [];
      }
    }
  }

  lemma {:induction false} EarliestExists(m: map<nat, seq<Item>>)
    requires m != map[] && forall d :: d in m ==> m[d] != []
    ensures exists d :: Earliest(m, d)
    decreases |m|
  {
    var d :| d in m;
    var rest := m - {d};
    if rest == map[] {
      assert forall e :: e in m ==> e == d by { assert forall e :: e in m && e != d ==> e in rest; }
      assert Earliest(m, d);
    } else {
      EarliestExists(rest);
      var e :| Earliest(rest, e);
      assert forall f :: f in m ==> f == d || (f in rest && rest[f] == m[f]);
      assert Earliest(m, if m[d][0].ordinal <= m[e][0].ordinal then d else e);
    }
  }

  predicate Earliest(m: map<nat, seq<Item>>, d: nat) {
    d in m && m[d] != [] && forall e :: e in m && m[e] != [] ==> m[d][0].ordinal <= m[e][0].ordinal
  }

  /** The map still holds whole groups. */
  ghost predicate Remain(left: map<nat, seq<Item>>, items: seq<Item>, l: Level) {
    forall d :: d in left ==> left[d] != [] && left[d] == Keep(items, KeyIs(l, Digest(d)))
  }

  /** Every group put out is one of the partition, and every item's group is out or still in the map. */
  ghost predicate Covers(groups: seq<seq<Item>>, left: map<nat, seq<Item>>, items: seq<Item>, l: Level) {
    && (forall g :: g in groups ==> g != [] && g[0] in items && g == GroupOf(items, l, g[0]))
    && (forall x :: x in items ==>
          KeyAt(l, x).Digest? && (KeyAt(l, x).digest in left || GroupOf(items, l, x) in groups))
  }

  /** The groups put out ascend, and come before those in the map. */
  ghost predicate Ascends(groups: seq<seq<Item>>, left: map<nat, seq<Item>>) {
    && FirstsAscend(groups)
    && (forall i, d :: 0 <= i < |groups| && d in left && groups[i] != [] && left[d] != [] ==>
          groups[i][0].ordinal < left[d][0].ordinal)
  }

  /** The groups already put out, and those still in the map, make the partition. */
  ghost predicate PutOut(groups: seq<seq<Item>>, left: map<nat, seq<Item>>, items: seq<Item>, l: Level) {
    Remain(left, items, l) && Covers(groups, left, items, l) && Ascends(groups, left)
  }

  /** Different digests have different first items, so the earliest is strictly earlier. */
  lemma StrictlyEarlier(left: map<nat, seq<Item>>, items: seq<Item>, l: Level, d: nat, e: nat)
    requires Earliest(left, d) && Ordered(items) && e in left && e != d && left[e] != []
    requires left[d] == Keep(items, KeyIs(l, Digest(d))) && left[e] == Keep(items, KeyIs(l, Digest(e)))
    ensures left[d][0].ordinal < left[e][0].ordinal
  {
    KeepMembers(items, KeyIs(l, Digest(d)));
    KeepMembers(items, KeyIs(l, Digest(e)));
    assert left[d][0] in left[d] && left[e][0] in left[e];
    hide Keep, Earliest;
    var i :| 0 <= i < |items| && items[i] == left[d][0];
    var j :| 0 <= j < |items| && items[j] == left[e][0];
    assert i != j;
  }

  lemma NextCovers(groups: seq<seq<Item>>, left: map<nat, seq<Item>>, items: seq<Item>, l: Level, d: nat)
    requires Remain(left, items, l) && Covers(groups, left, items, l) && d in left
    ensures Covers(groups + [left[d]], left - {d}, items, l)
  {
    var after := groups + [left[d]];
    KeepMembers(items, KeyIs(l, Digest(d)));
    assert left[d][0] in left[d];
    hide Keep;
    forall x | x in items ensures KeyAt(l, x).digest in left - {d} || GroupOf(items, l, x) in after {
      if KeyAt(l, x).digest == d { assert after[|groups|] == GroupOf(items, l, x); }
      else if KeyAt(l, x).digest !in left {
        var i :| 0 <= i < |groups| && groups[i] == GroupOf(items, l, x);
        assert after[i] == groups[i];
      }
    }
  }

  lemma NextAscends(groups: seq<seq<Item>>, left: map<nat, seq<Item>>, items: seq<Item>, l: Level, d: nat)
    requires Remain(left, items, l) && Ascends(groups, left) && Earliest(left, d) && Ordered(items)
    ensures Ascends(groups + [left[d]], left - {d})
  {
    forall e | e in left - {d} ensures left[d][0].ordinal < left[e][0].ordinal {
      StrictlyEarlier(left, items, l, d, e);
    }
    hide Keep, Earliest, Ordered, Remain;
  }

  lemma PutNext(groups: seq<seq<Item>>, left: map<nat, seq<Item>>, items: seq<Item>, l: Level, d: nat)
    requires PutOut(groups, left, items, l) && Earliest(left, d) && Ordered(items)
    ensures PutOut(groups + [left[d]], left - {d}, items, l)
  {
    hide Keep, Ordered, Covers, Ascends;
    NextCovers(groups, left, items, l, d);
    NextAscends(groups, left, items, l, d);
  }

  /** `stable_groups`: the groups of a digest map in the order of their first members. */
  method StableGroups(m: map<nat, seq<Item>>, ghost items: seq<Item>, ghost l: Level) returns (groups: seq<seq<Item>>)
    requires Ordered(items) && Collects(m, items, l)
    ensures groups == GroupBy(items, l)
  {
    groups := [];
    var left := m;
    assert PutOut(groups, left, items, l);
    while left != map[]
      invariant PutOut(groups, left, items, l)
      decreases |left|
    {
      EarliestExists(left);
      var d :| d in left && Earliest(left, d);
      PutNext(groups, left, items, l, d);
      groups := groups + [left[d]];
      left := left - {d};
    }
    assert Partitions(groups, items, l);
    GroupingIsUnique(groups, items, l);
  }
}
