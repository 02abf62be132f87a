/** Duplicate candidates, and grouping them by a key in order of first appearance. */
module Grouping {
  import opened Prelude

  /**
   * How a file behaves in one phase: it stays as indexed, cannot be opened, is
   * found changed when validated again, or was cut off at a byte, which a read
   * that comes to it meets and a validation finds in the size.
   */
  datatype Health = Steady | Unopenable | Changed | Breaks(at: nat)

  /**
   * An input with its position, the bytes every read of it yields, and its two
   * digests.  The digests are any values at all, as long as equal bytes have
   * equal digests.
   */
  datatype Item = Item(
    ordinal: nat, device: nat, inode: nat, path: string, contents: seq<Byte>, keeperOnly: bool,
    valid: bool, revalidates: bool, sampling: Health, hashing: Health, comparing: Health, finalizing: Health,
    sample: nat, full: nat)

  /** What the pipeline groups by, and `ByCopy`, which the naive answer groups by. */
  datatype Level = ByBucket | BySample | ByFull | ByBytes | ByCopy

  datatype Key = Bucket(device: nat,
                        size: nat) | Digest(digest: nat) | Bytes(bytes: seq<Byte>) | Copy(device: nat, bytes: seq<Byte>)

  function KeyAt(l: Level, x: Item): Key {
    match l
    case ByBucket => Bucket(x.device, |x.contents|)
    case BySample => Digest(x.sample)
    case ByFull => Digest(x.full)
    case ByBytes => Bytes(x.contents)
    case ByCopy => Copy(x.device, x.contents)
  }

  datatype Test = KeyIs(l: Level, k: Key) | KeyIsNot(l: Level, k: Key)
                | Revalidates | Samples | Hashes | In(items: set<Item>) | Both(a: Test, b: Test)

  predicate Holds(t: Test, x: Item)
    decreases t
  {
    match t
    case KeyIs(l, k) => KeyAt(l, x) == k
    case KeyIsNot(l, k) => KeyAt(l, x) != k
    case Revalidates => x.revalidates
    case Samples => x.sampling == Steady
    case Hashes => x.hashing == Steady
    case In(items) => x in items
    case Both(a, b) => Holds(a, x) && Holds(b, x)
  }

  /** The items that pass, in their order. */
  function Keep(items: seq<Item>, t: Test): seq<Item> {
    if items == [] then []
    else (if Holds(t, items[0]) then [items[0]] else []) + Keep(items[1..], t)
  }

  lemma {:induction false} KeepMembers(items: seq<Item>, t: Test)
    ensures forall x :: x in Keep(items, t) <==> x in items && Holds(t, x)
    ensures |Keep(items, t)| <= |items|
  {
    if items != [] { KeepMembers(items[1..], t); }
  }

  lemma {:induction false} KeepTwice(items: seq<Item>, t: Test, u: Test)
    ensures Keep(Keep(items, t), u) == Keep(items, Both(t, u))
  {
    if items != [] {
      KeepTwice(items[1..], t, u);
      var x, rest := items[0], Keep(items[1..], t);
      if Holds(t, x) {
        assert Keep(items, t) == [x] + rest && ([x] + rest)[1..] == rest;
      } else {
        assert Keep(items, t) == rest;
      }
      assert Holds(Both(t, u), x) == (Holds(t, x) && Holds(u, x));
    }
  }

  lemma {:induction false} KeepAgrees(items: seq<Item>, t: Test, u: Test)
    requires forall x :: x in items ==> (Holds(t, x) <==> Holds(u, x))
    ensures Keep(items, t) == Keep(items, u)
  {
    if items != [] { KeepAgrees(items[1..], t, u); }
  }

  lemma KeepFirst(x: Item, rest: seq<Item>, t: Test)
    ensures Keep([x] + rest, t) == (if Holds(t, x) then [x] else []) + Keep(rest, t)
  {
    hide Holds;
    assert ([x] + rest)[1..] == rest;
  }

  lemma {:induction false} KeepAppend(a: seq<Item>, b: seq<Item>, t: Test)
    ensures Keep(a + b, t) == Keep(a, t) + Keep(b, t)
  {
    if a == [] {
      assert a + b == b;
    } else {
      KeepFirst(a[0], a[1..], t);
      KeepFirst(a[0], a[1..] + b, t);
      assert [a[0]] + a[1..] == a && [a[0]] + (a[1..] + b) == a + b;
      KeepAppend(a[1..], b, t);
      hide Holds, Keep;
    }
  }

  /** Items in the order of their positions. */
  predicate Ordered(items: seq<Item>) {
    forall i, j :: 0 <= i < j < |items| ==> items[i].ordinal < items[j].ordinal
  }

  lemma OrderedAfter(x: Item, later: seq<Item>, rest: seq<Item>)
    requires Ordered([x] + later) && Ordered(rest) && forall y :: y in rest ==> y in later
    ensures Ordered([x] + rest)
  {
    forall j | 0 <= j < |rest| ensures x.ordinal < rest[j].ordinal {
      assert rest[j] in later;
      var m :| 0 <= m < |later| && later[m] == rest[j];
      assert ([x] + later)[0] == x && ([x] + later)[m + 1] == rest[j];
    }
  }

  lemma {:induction false} KeepOrdered(items: seq<Item>, t: Test)
    requires Ordered(items)
    ensures Ordered(Keep(items, t))
  {
    if items != [] {
      assert Ordered(items[1..]) && items == [items[0]] + items[1..];
      KeepOrdered(items[1..], t);
      KeepMembers(items[1..], t);
      hide Ordered, Holds;
      OrderedAfter(items[0], items[1..], Keep(items[1..], t));
    }
  }

  // ---- Grouping ---------------------------------------------------------

  /** One group per key, ordered by first member; the order of the items is kept. */
  function GroupBy(items: seq<Item>, l: Level): seq<seq<Item>>
    decreases |items|
  {
    if items == [] then []
    else
      var k := KeyAt(l, items[0]);
      KeepMembers(items[1..], KeyIsNot(l, k));
      [[items[0]] + Keep(items[1..], KeyIs(l, k))] + GroupBy(Keep(items[1..], KeyIsNot(l, k)), l)
  }

  /** The group of an item. */
  function GroupOf(items: seq<Item>, l: Level, x: Item): seq<Item> { Keep(items, KeyIs(l, KeyAt(l, x))) }

  lemma OtherGroups(items: seq<Item>, l: Level, k: Key, x: Item)
    requires KeyAt(l, x) != k
    ensures GroupOf(Keep(items, KeyIsNot(l, k)), l, x) == GroupOf(items, l, x)
  {
    KeepTwice(items, KeyIsNot(l, k), KeyIs(l, KeyAt(l, x)));
    KeepAgrees(items, Both(KeyIsNot(l, k), KeyIs(l, KeyAt(l, x))), KeyIs(l, KeyAt(l, x)));
  }

  /** The groups are exactly the groups of the items. */
  lemma {:induction false} GroupMembers(items: seq<Item>, l: Level)
    ensures forall x :: x in items ==> GroupOf(items, l, x) in GroupBy(items, l)
    ensures forall g :: g in GroupBy(items, l) ==> g != [] && g[0] in items && g == GroupOf(items, l, g[0])
    decreases |items|
  {
    if items != [] {
      var first, k := items[0], KeyAt(l, items[0]);
      var others := Keep(items[1..], KeyIsNot(l, k));
      KeepMembers(items[1..], KeyIsNot(l, k));
      GroupMembers(others, l);
      var head := [first] + Keep(items[1..], KeyIs(l, k));
      assert head == GroupOf(items, l, first);
      forall x | x in items && KeyAt(l, x) != k
        ensures GroupOf(others, l, x) == GroupOf(items, l, x)
      {
        OtherGroups(items[1..], l, k, x);
      }
      forall x | x in items ensures GroupOf(items, l, x) in GroupBy(items, l) {
        if KeyAt(l, x) != k { assert x in others; }
      }
    }
  }

  /** What makes a sequence of groups the right one. */
  ghost predicate Partitions(groups: seq<seq<Item>>, items: seq<Item>, l: Level) {
    && (forall g :: g in groups ==> g != [] && g[0] in items && g == GroupOf(items, l, g[0]))
    && (forall x :: x in items ==> GroupOf(items, l, x) in groups)
    && FirstsAscend(groups)
  }

  /** Each group starts after the one before. */
  predicate FirstsAscend(groups: seq<seq<Item>>) {
    forall i, j :: 0 <= i < j < |groups| && groups[i] != [] && groups[j] != [] ==>
      groups[i][0].ordinal < groups[j][0].ordinal
  }

  lemma {:induction false} GroupsAscend(items: seq<Item>, l: Level)
    requires Ordered(items)
    ensures FirstsAscend(GroupBy(items, l))
    decreases |items|
  {
    if items != [] {
      var k := KeyAt(l, items[0]);
      var others := Keep(items[1..], KeyIsNot(l, k));
      KeepMembers(items[1..], KeyIsNot(l, k));
      KeepOrdered(items[1..], KeyIsNot(l, k));
      GroupsAscend(others, l);
      GroupMembers(others, l);
      var head, rest := [items[0]] + Keep(items[1..], KeyIs(l, k)), GroupBy(others, l);
      assert GroupBy(items, l) == [head] + rest;
      hide GroupBy, Keep;
      forall j | 0 <= j < |rest| ensures rest[j] != [] && items[0].ordinal < rest[j][0].ordinal {
        assert rest[j] in rest && rest[j][0] in others;
      }
    }
  }

  /** Groups are ordered by their first members. */
  lemma GroupsOrdered(items: seq<Item>, l: Level)
    requires Ordered(items)
    ensures Partitions(GroupBy(items, l), items, l)
  {
    GroupMembers(items, l);
    GroupsAscend(items, l);
    hide GroupBy, Keep, Ordered;
  }

  lemma InOther(a: seq<seq<Item>>, b: seq<seq<Item>>, items: seq<Item>, l: Level, i: nat)
    requires Partitions(a, items, l) && Partitions(b, items, l) && i < |b|
    ensures b[i] in a && b[i] != [] && b[i] !in b[..i]
  {
    assert b[i] in b;
    assert forall j :: 0 <= j < i ==> b[j] in b;
  }

  /** The first group not yet seen comes first. */
  lemma Later(a: seq<seq<Item>>, g: seq<Item>, items: seq<Item>, l: Level, i: nat)
    requires Partitions(a, items, l) && i < |a| && g in a && g !in a[..i] && g != []
    ensures a[i] != [] && (a[i] == g || a[i][0].ordinal < g[0].ordinal)
  {
    assert a[i] in a;
    assert a == a[..i] + a[i..];
    var n :| 0 <= n < |a[i..]| && a[i..][n] == g;
    assert a[i + n] == g;
  }

  lemma {:induction false} OnePartition(a: seq<seq<Item>>, b: seq<seq<Item>>, items: seq<Item>, l: Level, i: nat)
    requires Partitions(a, items, l) && Partitions(b, items, l)
    requires i <= |a| && i <= |b| && a[..i] == b[..i]
    ensures a == b
    decreases |a| - i
  {
    assert i == |a| ==> a[..i] == a;
    assert i == |b| ==> b[..i] == b;
    if i < |a| { InOther(b, a, items, l, i); }
    if i < |b| { InOther(a, b, items, l, i); }
    if i < |a| && i < |b| {
      Later(a, b[i], items, l, i);
      Later(b, a[i], items, l, i);
      assert a[..i + 1] == a[..i] + [a[i]] && b[..i + 1] == b[..i] + [b[i]];
      OnePartition(a, b, items, l, i + 1);
    }
  }

  /** Any sequence of groups that partitions is `GroupBy`. */
  lemma GroupingIsUnique(groups: seq<seq<Item>>, items: seq<Item>, l: Level)
    requires Ordered(items)
    ensures Partitions(groups, items, l) <==> groups == GroupBy(items, l)
  {
    GroupsOrdered(items, l);
    if Partitions(groups, items, l) { OnePartition(groups, GroupBy(items, l), items, l, 0); }
  }
}
