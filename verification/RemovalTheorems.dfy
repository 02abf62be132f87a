/** The guarded removal, seen as a whole. */
module RemovalTheorems {
  import opened Prelude
  import opened Metadata
  import opened FileSystem
  import opened Removal
  import opened RemovalSafety
  import opened RemovalRuns
  import Quiet = RemovalQuiet
  import Closure = LinkClosure

  // ---- Recovery names ---------------------------------------------------

  predicate PlainName(n: Name) { '/' !in n }

  predicate PlainPath(p: Path) { forall i :: 0 <= i < |p| ==> PlainName(p[i]) }

  lemma {:induction false} JoinedInjective(p: Path, q: Path)
    requires PlainPath(p) && PlainPath(q) && Joined(p) == Joined(q)
    ensures p == q
    decreases |p|
  {
    if p != [] && q != [] {
      var a, b, x, y := p[0], q[0], Joined(p[1..]), Joined(q[1..]);
      var j := Joined(p);
      assert j == "/" + a + x && j == "/" + b + y;
      assert j[1..1 + |a|] == a && j[1 + |a|..] == x;
      assert j[1..1 + |b|] == b && j[1 + |b|..] == y;
      assert x == [] || x[0] == '/';
      assert y == [] || y[0] == '/';
      JoinedInjective(p[1..], q[1..]);
      assert p == [a] + p[1..] && q == [b] + q[1..];
    }
  }

  /** A retained leaf's name leads back to one row only. */
  lemma LeafNameIdentifies(operation: string, p: Path, q: Path)
    requires PlainPath(p) && PlainPath(q)
    ensures LeafName(operation, p) == LeafName(operation, q) <==> p == q
  {
    if LeafName(operation, p) == LeafName(operation, q) {
      var head := "leaf-" + operation + "\0";
      assert LeafName(operation, p)[|head|..] == Joined(p);
      assert LeafName(operation, q)[|head|..] == Joined(q);
      JoinedInjective(p, q);
    }
  }

  // ---- Any run ----------------------------------------------------------

  function Start(fs: Fs, turns: seq<Turn>, listings: seq<seq<Name>>, groups: map<Key, LinkRemoval>): State {
    State(fs, turns, listings, [], [], Removed(0, true, 0), groups, 0)
  }

  /** `LinkRemovals::from_closure`. */
  function FromClosure(closed: map<Key, EntryMeta>): map<Key, LinkRemoval> {
    map k | k in closed :: LinkRemoval(closed[k].identity, closed[k])
  }

  lemma FromClosureSound(closed: map<Key, EntryMeta>)
    requires forall k :: k in closed ==> closed[k].Object() == k && closed[k].IsFile()
    ensures GroupsSound(FromClosure(closed))
  {
  }

  /**
   * Whatever other processes do outside the recovery directory: only reviewed
   * inodes lose a name, every name in the recovery directory has its row at
   * every moment, and a walk that finishes with every group exhausted removed
   * exactly the reviewed number of aliases of each.
   */
  lemma AnyRemovalIsSafe(c: Ctx, fs: Fs, turns: seq<Turn>, listings: seq<seq<Name>>, groups: map<Key, LinkRemoval>,
                         parent: Key, stage: Name)
    requires Guarded(c) && parent != c.recovery && GroupsSound(groups) && RecoveryRows(c, fs)
    ensures var (s, v) := Remove(c, Start(fs, turns, listings, groups), parent, stage, [], true);
      && (forall i :: 0 <= i < |s.log| ==> Sound(c, s.log[i]))
      && s.removed.files == Regulars(s.log)
      && (forall i :: 0 <= i < |s.trace| && s.trace[i].engine ==> SafeStep(c, s.trace[i].before, s.trace[i].after))
      && (forall i :: 0 <= i < |s.trace| ==> RecoveryRows(c, s.trace[i].after))
      && (v.Fine? ==>
            (Exhausted(s.groups) <==> forall k :: k in groups ==> Unlinks(s.log, k) == groups[k].current.links))
  {
    var s0 := Start(fs, turns, listings, groups);
    RemoveWalks(c, s0, parent, stage, [], true);
    var (s, v) := Remove(c, s0, parent, stage, [], true);
    hide Remove, SafeStep, RecoveryRows, Guarded;
    assert forall i :: 0 <= i < |s.trace| ==> s.trace[i].after == Before(s0, s, i + 1);
    if v.Fine? {
      assert Conserves(s0, s, None);
      assert forall k :: k in groups ==> Account(s0, k) == groups[k].current.links && Account(s, k) == Account(s0, k);
    }
  }

  /** The interference covered includes moving, unlinking and creating names anywhere else, and rewriting any inode. */
  lemma InterferenceIsGeneral(guarded: set<Key>, fs: Fs, from: Key, name: Name, to: Key, dest: Name, k: Key, i: Inode)
    ensures CanRename(fs, from, name, to, dest) && from !in guarded && to !in guarded ==>
      Allowed(guarded, fs, Rename(fs, from, name, to, dest))
    ensures CanUnlink(fs, from, name) && from !in guarded ==> Allowed(guarded, fs, Unlink(fs, from, name))
    ensures from in fs.dirs && from !in guarded ==>
      Allowed(guarded, fs, fs.(dirs := fs.dirs[from := fs.dirs[from][name := k]]))
    ensures Allowed(guarded, fs, fs.(inodes := fs.inodes[k := i]))
  {
  }

  // ---- An undisturbed run -----------------------------------------------

  /** All relative paths of a tree, the manifest's rows. */
  function Paths(relative: Path, t: Quiet.Tree): set<Path>
    decreases t
  {
    match t
    case Leaf(_) => {relative}
    case Dir(_, f) => {relative} + ForestPaths(relative, f)
  }

  function ForestPaths(relative: Path, f: Quiet.Forest): set<Path>
    decreases f
  {
    match f
    case Nil => {}
    case Cons(n, h, t) => Paths(relative + [n], h) + ForestPaths(relative, t)
  }

  predicate Under(p: Path, n: Name, q: Path) { |q| > |p| && q[..|p|] == p && q[|p|] == n }

  lemma {:induction false} PathsUnder(relative: Path, n: Name, t: Quiet.Tree)
    ensures forall q :: q in Paths(relative + [n], t) ==> Under(relative, n, q)
    decreases t
  {
    match t
    case Leaf(_) =>
    case Dir(_, f) => ForestPathsUnder(relative, n, f);
  }

  lemma {:induction false} ForestPathsUnder(relative: Path, n: Name, f: Quiet.Forest)
    ensures forall q :: q in ForestPaths(relative + [n], f) ==> Under(relative, n, q) && |q| > |relative| + 1
    decreases f
  {
    match f
    case Nil =>
    case Cons(m, h, t) =>
      PathsUnder(relative + [n], m, h);
      assert forall q :: Under(relative + [n], m, q) ==> Under(relative, n, q) && |q| > |relative| + 1 by {
        forall q | Under(relative + [n], m, q) ensures Under(relative, n, q) {
          assert q[..|relative|] == q[..|relative + [n]|][..|relative|] == relative;
          assert q[|relative|] == q[..|relative + [n]|][|relative|] == n;
        }
      }
      ForestPathsUnder(relative, n, t);
  }

  lemma {:induction false} PathsCount(c: Ctx, s: State, facts: map<Key, Quiet.Facts>, relative: Path, t: Quiet.Tree,
                                      root: bool)
    requires Quiet.Fits(c, s, facts, relative, t, root)
    ensures |Paths(relative, t)| == Quiet.Size(t)
    ensures forall q :: q in Paths(relative, t) ==> |q| >= |relative|
    decreases t
  {
    match t
    case Leaf(_) =>
    case Dir(k, f) =>
      ForestPathsCount(c, s, facts, relative, k, f);
      assert relative !in ForestPaths(relative, f);
  }

  lemma {:induction false} ForestPathsCount(c: Ctx, s: State, facts: map<Key, Quiet.Facts>, relative: Path, dir: Key,
                                            f: Quiet.Forest)
    requires Quiet.ForestFits(c, s, facts, relative, dir, f)
    ensures |ForestPaths(relative, f)| == Quiet.ForestSize(f)
    ensures forall q :: q in ForestPaths(relative, f) ==>
      |q| > |relative| && q[..|relative|] == relative && q[|relative|] in Quiet.NameSet(f)
    decreases f
  {
    match f
    case Nil =>
    case Cons(n, h, t) =>
      PathsCount(c, s, facts, relative + [n], h, false);
      ForestPathsCount(c, s, facts, relative, dir, t);
      PathsUnder(relative, n, h);
      var a, b := Paths(relative + [n], h), ForestPaths(relative, t);
      assert a !! b;
      assert |a + b| == |a| + |b|;
  }

  /** No file has more names in the tree than links, nor fewer: the tree is closed. */
  predicate ClosedTree(fs: Fs, t: Quiet.Tree) {
    forall k :: k in Quiet.Leaves(t) && k in fs.inodes ==> Quiet.Count(Quiet.Leaves(t), k) == fs.inodes[k].links
  }

  /** The closure's groups for a tree: its multi-link regular inodes as they are. */
  predicate GroupsOf(groups: map<Key, LinkRemoval>, fs: Fs, t: Quiet.Tree) {
    && GroupsSound(groups)
    && (forall k :: k in groups ==>
          k in Quiet.Leaves(t) && k in fs.inodes && groups[k].current == MetaOf(k, fs.inodes[k]))
    && (forall k :: k in Quiet.Leaves(t) && k in fs.inodes && k !in groups ==> fs.inodes[k].links == 1)
  }

  /** Distinct inodes: the sum of their private bytes does not depend on names or order. */
  predicate Distinct(ks: seq<Key>) { forall i, j :: 0 <= i < j < |ks| ==> ks[i] != ks[j] }

  function PrivateOf(facts: map<Key, Quiet.Facts>, k: Key): nat {
    if k in facts && facts[k].regular && facts[k].private.Some? then facts[k].private.value else 0
  }

  function Total(facts: map<Key, Quiet.Facts>, ks: seq<Key>): nat {
    if ks == [] then 0 else PrivateOf(facts, ks[0]) + Total(facts, ks[1..])
  }

  lemma {:induction false} TotalWithout(facts: map<Key, Quiet.Facts>, ds: seq<Key>, i: nat)
    requires i < |ds|
    ensures Total(facts, ds) == PrivateOf(facts, ds[i]) + Total(facts, ds[..i] + ds[i + 1..])
  {
    if i == 0 { assert ds[..0] + ds[1..] == ds[1..]; }
    else {
      TotalWithout(facts, ds[1..], i - 1);
      assert ds[1..][..i - 1] + ds[1..][i..] == (ds[..i] + ds[i + 1..])[1..];
    }
  }

  /** Each inode is counted once, at its last link, whatever the order and the aliases. */
  lemma {:induction false} CountedOnce(facts: map<Key, Quiet.Facts>, ks: seq<Key>, ds: seq<Key>)
    requires Distinct(ds) && forall k :: k in ks <==> k in ds
    ensures Quiet.PrivateSum(facts, ks, []) == Total(facts, ds)
  {
    assert ds != [] ==> ds[0] in ds;
    if ks == [] {
    } else {
      var k := ks[0];
      assert ks == [k] + ks[1..] && ks[1..] + [] == ks[1..];
      if k in ks[1..] { CountedOnce(facts, ks[1..], ds); }
      else {
        assert k in ks;
        var i :| 0 <= i < |ds| && ds[i] == k;
        WithoutOne(ds, i);
        TotalWithout(facts, ds, i);
        hide Distinct, Total, PrivateOf;
        CountedOnce(facts, ks[1..], ds[..i] + ds[i + 1..]);
      }
    }
    hide Distinct;
  }

  lemma WithoutOne(ds: seq<Key>, i: nat)
    requires Distinct(ds) && i < |ds|
    ensures var es := ds[..i] + ds[i + 1..];
      Distinct(es) && forall x :: x in es <==> x in ds && x != ds[i]
  {
    var es := ds[..i] + ds[i + 1..];
    forall x | x in ds && x != ds[i] ensures x in es {
      var j :| 0 <= j < |ds| && ds[j] == x;
      assert x == if j < i then es[j] else es[j - 1];
    }
    forall j | 0 <= j < |es| ensures es[j] in ds && es[j] != ds[i] {
      assert es[j] == if j < i then ds[j] else ds[j + 1];
    }
  }

  /**
   * Left alone, the removal of a closed reviewed tree succeeds and exhausts
   * every group; the stage name, every directory and every name in the tree
   * are gone, nothing else moved; `files` counts the regular names, `private`
   * is the saturated sum over the distinct regular inodes `ds`, and progress
   * advanced once per manifest row.
   */
  lemma UndisturbedRemoval(c: Ctx, fs: Fs, facts: map<Key, Quiet.Facts>, t: Quiet.Tree, groups: map<Key, LinkRemoval>,
                           parent: Key, stage: Name, ds: seq<Key>)
    requires var s0 := Start(fs, [], Quiet.Listings(t), groups);
      && Quiet.Fits(c, s0, facts, [], t, true) && Quiet.Holds(s0, parent, stage, t.key)
      && parent !in Quiet.Dirs(t) && parent != c.recovery && c.recovery !in Quiet.Dirs(t)
      && parent.device == c.recovery.device
      && c.recovery in fs.dirs && fs.dirs[c.recovery] == map[]
    requires ClosedTree(fs, t) && GroupsOf(groups, fs, t) && c.manifest.Keys == Paths([], t)
    requires Distinct(ds) && forall k :: k in Quiet.Leaves(t) <==> k in ds
    ensures var s0 := Start(fs, [], Quiet.Listings(t), groups);
      var (s, v) := Remove(c, s0, parent, stage, [], true);
      && v == Fine && Exhausted(s.groups)
      && Quiet.Cleared(c, s0, s, parent, {stage}, Quiet.Dirs(t), Quiet.Leaves(t))
      && s.removed.files == Quiet.RegularNames(facts, Quiet.Leaves(t))
      && s.removed.private == Min(MAX_U64, Total(facts, ds))
      && s.removed.privateKnown == Quiet.PrivateKnown(facts, Quiet.Leaves(t), [])
      && s.completed == Min(MAX_U64, |c.manifest|)
  {
    var s0 := Start(fs, [], Quiet.Listings(t), groups);
    var ks := Quiet.Leaves(t);
    assert ks + [] == ks && Quiet.Listings(t) + [] == Quiet.Listings(t);
    Quiet.TreeKeys(c, s0, facts, [], t, true);
    assert Quiet.Explained(s0, ks);
    Quiet.TreeQuiet(c, s0, facts, parent, stage, [], t, true, [], []);
    CountedOnce(facts, ks, ds);
    PathsCount(c, s0, facts, [], t, true);
    assert |c.manifest| == |c.manifest.Keys|;
    var (s, v) := Remove(c, s0, parent, stage, [], true);
    hide Remove, Quiet.Fits, GroupsOf;
    AllFollowed(c, s0, s, parent, stage, t, ks);
    hide Exhausted;
  }

  /** A closed tree that is gone took every link of its groups. */
  lemma AllFollowed(c: Ctx, s0: State, s: State, parent: Key, stage: Name, t: Quiet.Tree, ks: seq<Key>)
    requires Quiet.Cleared(c, s0, s, parent, {stage}, Quiet.Dirs(t), ks)
    requires Quiet.Explained(s0, ks) && forall k :: k in s0.groups ==> k in ks
    ensures Exhausted(s.groups)
  {
    forall k | k in s.groups
      ensures s.groups[k].current.links == 0
    {
      assert Quiet.GroupFollows(s0, s, k, Quiet.Count(ks, k));
    }
  }
}
