/** Hard-link closure evidence: which multi-link files have all their names inside the measured tree. */
module LinkClosure {
  import opened Prelude
  import opened Metadata

  const MAX_LINK_IDENTITIES := 131_072

  datatype Group = Group(original: EntryMeta, observed: nat)

  predicate MultiLink(m: EntryMeta) { m.IsFile() && m.links > 1 }

  function Copies(metas: seq<EntryMeta>, m: EntryMeta): nat {
    if metas == [] then 0
    else Copies(metas[..|metas| - 1], m) + if metas[|metas| - 1] == m then 1 else 0
  }

  /** Every multi-link file was seen under exactly as many names as it has links. */
  predicate Closed(metas: seq<EntryMeta>) {
    && (forall m :: m in metas && m.IsFile() ==> m.links > 0)
    && (forall m :: m in metas && MultiLink(m) ==> Copies(metas, m) == m.links)
  }

  /** One measurement of an unchanging tree: an object has one metadata value. */
  predicate Consistent(metas: seq<EntryMeta>) {
    forall m, n :: m in metas && n in metas && m.Object() == n.Object() ==> m == n
  }

  /** The multi-link files of a measurement. */
  ghost function Objects(metas: seq<EntryMeta>): set<Key> {
    set m | m in metas && MultiLink(m) :: m.Object()
  }

  /** One group: a multi-link file seen, and how often. */
  predicate Follows(k: Key, g: Group, seen: seq<EntryMeta>) {
    && MultiLink(g.original) && g.original.Object() == k && g.original in seen
    && g.observed == Copies(seen, g.original) <= g.original.links
  }

  /** One observation: the link count of a file is known, and a multi-link file has its group. */
  predicate Noted(groups: map<Key, Group>, m: EntryMeta) {
    && (m.IsFile() ==> m.links > 0)
    && (MultiLink(m) ==> m.Object() in groups && groups[m.Object()].original == m)
  }

  /** What the groups know after the observations `seen`. */
  ghost predicate Tracks(groups: map<Key, Group>, seen: seq<EntryMeta>) {
    && (forall k :: k in groups ==> Follows(k, groups[k], seen))
    && (forall m :: m in seen ==> Noted(groups, m))
    && groups.Keys == Objects(seen)
    && |groups| <= MAX_LINK_IDENTITIES
  }

  /** Why an observation is refused. */
  predicate Refuses(groups: map<Key, Group>, meta: EntryMeta) {
    var k := meta.Object();
    if k in groups then groups[k].original != meta || groups[k].observed >= meta.links
    else meta.IsFile() && (meta.links == 0 || (meta.links > 1 && |groups| >= MAX_LINK_IDENTITIES))
  }

  lemma CopiesStep(seen: seq<EntryMeta>, meta: EntryMeta)
    ensures forall m :: Copies(seen + [meta], m) == Copies(seen, m) + if meta == m then 1 else 0
    ensures forall m :: m in seen + [meta] <==> m in seen || m == meta
    ensures Objects(seen + [meta]) == Objects(seen) + if MultiLink(meta) then {meta.Object()} else {}
  {
    assert (seen + [meta])[..|seen|] == seen;
  }

  lemma {:induction false} NoCopies(seen: seq<EntryMeta>, m: EntryMeta)
    ensures m in seen <==> Copies(seen, m) > 0
  {
    if seen != [] {
      NoCopies(seen[..|seen| - 1], m);
      assert seen == seen[..|seen| - 1] + [seen[|seen| - 1]];
    }
  }

  lemma {:induction false} CopiesPrefix(metas: seq<EntryMeta>, i: nat, m: EntryMeta)
    requires i <= |metas|
    ensures Copies(metas[..i], m) <= Copies(metas, m)
  {
    if i < |metas| {
      assert metas[..|metas| - 1][..i] == metas[..i];
      CopiesPrefix(metas[..|metas| - 1], i, m);
    } else { assert metas[..i] == metas; }
  }

  lemma TracksAgain(groups: map<Key, Group>, seen: seq<EntryMeta>, meta: EntryMeta)
    requires Tracks(groups, seen) && !Refuses(groups, meta) && meta.Object() in groups
    ensures var k := meta.Object(); Tracks(groups[k := groups[k].(observed := groups[k].observed + 1)], seen + [meta])
  {
    CopiesStep(seen, meta);
    hide Copies, Objects;
  }

  lemma FollowsOn(k: Key, g: Group, seen: seq<EntryMeta>, meta: EntryMeta)
    requires Follows(k, g, seen) && g.original != meta
    ensures Follows(k, g, seen + [meta])
  {
    CopiesStep(seen, meta);
  }

  lemma FollowsFirst(seen: seq<EntryMeta>, meta: EntryMeta)
    requires MultiLink(meta) && meta !in seen
    ensures Follows(meta.Object(), Group(meta, 1), seen + [meta])
  {
    CopiesStep(seen, meta);
    NoCopies(seen, meta);
  }

  lemma ObjectsStep(seen: seq<EntryMeta>, meta: EntryMeta)
    ensures Objects(seen + [meta]) == Objects(seen) + if MultiLink(meta) then {meta.Object()} else {}
  {
    CopiesStep(seen, meta);
  }

  /** The groups after the first observation of a file's identity. */
  function Grown(groups: map<Key, Group>, meta: EntryMeta): map<Key, Group> {
    if MultiLink(meta) then groups[meta.Object() := Group(meta, 1)] else groups
  }

  lemma GroupsFollow(groups: map<Key, Group>, seen: seq<EntryMeta>, meta: EntryMeta)
    requires (forall k :: k in groups ==> Follows(k, groups[k], seen)) && meta !in seen
    ensures forall k :: k in Grown(groups, meta) ==> Follows(k, Grown(groups, meta)[k], seen + [meta])
  {
    forall k | k in groups ensures Follows(k, groups[k], seen + [meta]) { FollowsOn(k, groups[k], seen, meta); }
    if MultiLink(meta) { FollowsFirst(seen, meta); }
    hide Follows;
  }

  lemma SingleFollows(groups: map<Key, Group>, seen: seq<EntryMeta>, meta: EntryMeta)
    requires (forall k :: k in groups ==> Follows(k, groups[k], seen)) && !MultiLink(meta)
    ensures forall k :: k in groups ==> Follows(k, groups[k], seen + [meta])
  {
    forall k | k in groups ensures Follows(k, groups[k], seen + [meta]) { FollowsOn(k, groups[k], seen, meta); }
  }

  lemma AllNoted(groups: map<Key, Group>, seen: seq<EntryMeta>, meta: EntryMeta)
    requires (forall m :: m in seen ==> Noted(groups, m)) && meta.Object() !in groups
    requires (meta.IsFile() ==> meta.links > 0)
    ensures forall m :: m in seen + [meta] ==> Noted(Grown(groups, meta), m)
    ensures MultiLink(meta) ==> meta !in seen
  {
    forall m | m in seen + [meta] ensures Noted(Grown(groups, meta), m) {
      if m != meta { assert m in seen && Noted(groups, m); }
    }
    if meta in seen { assert Noted(groups, meta); }
  }

  lemma TracksNew(groups: map<Key, Group>, seen: seq<EntryMeta>, meta: EntryMeta)
    requires Tracks(groups, seen) && !Refuses(groups, meta) && meta.Object() !in groups
    ensures Tracks(Grown(groups, meta), seen + [meta])
  {
    hide Follows, Noted, Objects;
    ObjectsStep(seen, meta);
    AllNoted(groups, seen, meta);
    if MultiLink(meta) { GroupsFollow(groups, seen, meta); } else { SingleFollows(groups, seen, meta); }
    assert Grown(groups, meta).Keys == groups.Keys + if MultiLink(meta) then {meta.Object()} else {};
    assert |Grown(groups, meta)| <= MAX_LINK_IDENTITIES;
  }

  class RegularLinkClosure {
    var groups: map<Key, Group>
    var failed: bool
    ghost var seen: seq<EntryMeta>

    ghost predicate Valid()
      reads this
    {
      !failed ==> Tracks(groups, seen)
    }

    constructor ()
      ensures Valid() && !failed && seen == []
    {
      groups, failed, seen := map[], false, [];
    }

    method Observe(meta: EntryMeta) returns (ok: bool)
      requires Valid()
      modifies this
      ensures Valid() && seen == old(seen) + [meta]
      ensures ok == !failed == (!old(failed) && !Refuses(old(groups), meta))
    {
      hide Tracks;
      ghost var before := seen;
      seen := seen + [meta];
      if failed { return false; }
      var k := meta.Object();
      if k in groups {
        if groups[k].original != meta || groups[k].observed >= meta.links {
          failed := true;
          return false;
        }
        TracksAgain(groups, before, meta);
        groups := groups[k := groups[k].(observed := groups[k].observed + 1)];
        return true;
      }
      if meta.IsFile() && (meta.links == 0 || (meta.links > 1 && |groups| >= MAX_LINK_IDENTITIES)) {
        failed := true;
        return false;
      }
      TracksNew(groups, before, meta);
      if MultiLink(meta) {
        groups := groups[k := Group(meta, 1)];
      }
      return true;
    }

    /** `into_closed`: the groups, if every one was seen completely. */
    method IntoClosed() returns (closed: Option<map<Key, EntryMeta>>)
      requires Valid()
      ensures closed.Some? == (!failed && forall k :: k in groups ==> groups[k].observed == groups[k].original.links)
      ensures closed.Some? ==> closed.value == map k | k in groups :: groups[k].original
    {
      if failed || exists k :: k in groups && groups[k].observed != groups[k].original.links { return None; }
      return Some(map k | k in groups :: groups[k].original);
    }
  }

  /**
   * A complete measurement fed to the closure.  It succeeds only on a closed
   * measurement, and of an unchanging tree within the limit on every one.
   */
  method MeasureLinks(metas: seq<EntryMeta>) returns (closed: Option<map<Key, EntryMeta>>)
    ensures closed.Some? ==>
      && closed.value.Keys == Objects(metas)
      && (forall m :: m in metas && MultiLink(m) ==> closed.value[m.Object()] == m)
      && Closed(metas)
    ensures Consistent(metas) ==> (closed.Some? <==> Closed(metas) && |Objects(metas)| <= MAX_LINK_IDENTITIES)
  {
    var links := new RegularLinkClosure();
    var i := 0;
    while i < |metas|
      invariant 0 <= i <= |metas| && links.Valid() && links.seen == metas[..i]
      invariant links.failed && Consistent(metas) ==> !(Closed(metas) && |Objects(metas)| <= MAX_LINK_IDENTITIES)
    {
      assert metas[..i + 1] == metas[..i] + [metas[i]];
      if !links.failed && Refuses(links.groups, metas[i]) && Consistent(metas) {
        RefusalIsRight(metas, i, links.groups);
      }
      var _ := links.Observe(metas[i]);
      i := i + 1;
    }
    assert metas[..i] == metas;
    closed := links.IntoClosed();
    if !links.failed {
      assert |links.groups| == |links.groups.Keys|;
      assert forall k :: k in links.groups ==> links.groups[k].original in metas;
    }
  }

  lemma RefusalIsRight(metas: seq<EntryMeta>, i: nat, groups: map<Key, Group>)
    requires i < |metas| && Consistent(metas) && Tracks(groups, metas[..i]) && Refuses(groups, metas[i])
    ensures !(Closed(metas) && |Objects(metas)| <= MAX_LINK_IDENTITIES)
  {
    var m := metas[i];
    assert metas[..i + 1] == metas[..i] + [m];
    CopiesStep(metas[..i], m);
    if m.Object() in groups {
      var original := groups[m.Object()].original;
      assert original in metas && m in metas;
      CopiesPrefix(metas, i + 1, m);
    } else if m.links > 1 {
      assert Objects(metas[..i + 1]) <= Objects(metas);
      SubsetSize(Objects(metas[..i + 1]), Objects(metas));
      assert |groups| == |groups.Keys|;
    }
  }
}
