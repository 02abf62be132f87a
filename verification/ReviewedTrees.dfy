/** What the measurement of an undisturbed tree is: one entry per path, the links of its files, the rows it leaves. */
module ReviewedTrees {
  import opened Prelude
  import opened Metadata
  import opened FileSystem
  import opened RemovalQuiet
  import Spec = Removal
  import Theorems = RemovalTheorems
  import Closure = LinkClosure
  import Run = Execute

  /** A leaf the review accepts: an owned file or symbolic link that can be read; only files have more links. */
  predicate LeafSound(fs: Fs, euid: nat, k: Key) {
    && k in fs.inodes && k !in fs.dirs
    && var m := MetaOf(k, fs.inodes[k]);
    && (m.IsFile() || m.IsSymlink()) && !m.IsDataless() && m.uid == euid && fs.inodes[k].direct != Failed
    && m.links > 0 && (m.links > 1 ==> m.IsFile())
  }

  predicate DirSound(fs: Fs, device: nat, k: Key, f: Forest) {
    && k in fs.inodes && k in fs.dirs && k.device == device && MetaOf(k, fs.inodes[k]).IsDir()
    && fs.dirs[k].Keys == NameSet(f) && k !in ForestDirs(f)
  }

  /** The tree is in the file system as it is described. */
  predicate Sound(fs: Fs, device: nat, euid: nat, t: Tree)
    decreases t
  {
    match t
    case Leaf(k) => LeafSound(fs, euid, k)
    case Dir(k, f) => DirSound(fs, device, k, f) && ForestSound(fs, device, euid, k, f)
  }

  predicate ForestSound(fs: Fs, device: nat, euid: nat, dir: Key, f: Forest)
    decreases f
  {
    match f
    case Nil => true
    case Cons(n, h, t) =>
      && n !in NameSet(t) && Dirs(h) !! ForestDirs(t)
      && dir in fs.dirs && n in fs.dirs[dir] && fs.dirs[dir][n] == h.key
      && Sound(fs, device, euid, h) && ForestSound(fs, device, euid, dir, t)
  }

  function MetaAt(fs: Fs, k: Key): (m: EntryMeta)
    ensures m.Object() == k
  {
    if k in fs.inodes then MetaOf(k, fs.inodes[k]) else EntryMeta(Identity(k.device, k.inode, 0, 0, 0, 0), 0, 0, 0, 0)
  }

  /** One entry per name, parents first. */
  function Measure(fs: Fs, relative: Path, t: Tree): Run.Measured
    decreases t
  {
    [(relative, MetaAt(fs, t.key))] + match t case Leaf(_) => [] case Dir(_, f) => ForestMeasure(fs, relative, f)
  }

  function ForestMeasure(fs: Fs, relative: Path, f: Forest): Run.Measured
    decreases f
  {
    match f
    case Nil => []
    case Cons(n, h, t) => Measure(fs, relative + [n], h) + ForestMeasure(fs, relative, t)
  }

  function Keys(t: Tree): set<Key> {
    match t case Leaf(k) => {k} case Dir(k, f) => {k} + ForestKeySet(f)
  }

  function ForestKeySet(f: Forest): set<Key> {
    match f case Nil => {} case Cons(n, h, t) => Keys(h) + ForestKeySet(t)
  }

  // ---- The same tree in another file system ---------------------------------

  /** Nothing about `ks` differs. */
  predicate Same(fs: Fs, other: Fs, ks: set<Key>) {
    forall k :: k in ks ==>
      && (k in fs.inodes <==> k in other.inodes) && (k in fs.inodes ==> other.inodes[k] == fs.inodes[k])
      && (k in fs.dirs <==> k in other.dirs) && (k in fs.dirs ==> other.dirs[k] == fs.dirs[k])
  }

  lemma {:induction false} TreeSame(fs: Fs, other: Fs, device: nat, euid: nat, relative: Path, t: Tree)
    requires Sound(fs, device, euid, t) && Same(fs, other, Keys(t))
    ensures Sound(other, device, euid, t) && Measure(other, relative, t) == Measure(fs, relative, t)
    decreases t
  {
    assert t.key in Keys(t);
    match t case Leaf(_) => case Dir(k, f) => ForestSame(fs, other, device, euid, relative, k, f);
  }

  lemma {:induction false} ForestSame(fs: Fs, other: Fs, device: nat, euid: nat, relative: Path, dir: Key, f: Forest)
    requires ForestSound(fs, device, euid, dir, f) && Same(fs, other, ForestKeySet(f))
    requires dir in fs.dirs && dir in other.dirs && other.dirs[dir] == fs.dirs[dir]
    ensures ForestSound(other, device, euid, dir, f)
    ensures ForestMeasure(other, relative, f) == ForestMeasure(fs, relative, f)
    decreases f
  {
    match f
    case Nil =>
    case Cons(n, h, t) =>
      assert Same(fs, other, Keys(h)) && Same(fs, other, ForestKeySet(t));
      TreeSame(fs, other, device, euid, relative + [n], h);
      ForestSame(fs, other, device, euid, relative, dir, t);
  }

  /** No directory holds itself. */
  lemma {:induction false} RootOutside(fs: Fs, device: nat, euid: nat, dir: Key, f: Forest, k: Key)
    requires ForestSound(fs, device, euid, dir, f) && k in fs.dirs && k !in ForestDirs(f)
    ensures k !in ForestKeySet(f)
    decreases f
  {
    match f
    case Nil =>
    case Cons(n, h, t) =>
      match h { case Leaf(_) => case Dir(j, g) => RootOutside(fs, device, euid, j, g, k); }
      RootOutside(fs, device, euid, dir, t, k);
  }

  /** The root was restamped, as a rename does it, and nothing else of the tree differs. */
  predicate Restamped(fs: Fs, other: Fs, t: Tree) {
    && Same(fs, other, Keys(t) - {t.key})
    && t.key in fs.inodes && t.key in other.inodes
    && other.inodes[t.key].(changed := fs.inodes[t.key].changed) == fs.inodes[t.key]
    && (t.key in fs.dirs <==> t.key in other.dirs) && (t.key in fs.dirs ==> other.dirs[t.key] == fs.dirs[t.key])
  }

  /** A restamped tree is as sound, and has the same fingerprint. */
  lemma RestampedSame(fs: Fs, other: Fs, device: nat, euid: nat, t: Tree)
    requires Sound(fs, device, euid, t) && Restamped(fs, other, t)
    ensures Sound(other, device, euid, t)
    ensures Run.Contents(Measure(other, [], t)) == Run.Contents(Measure(fs, [], t))
    ensures |Measure(other, [], t)| == |Measure(fs, [], t)|
    ensures forall i :: 0 < i < |Measure(fs, [], t)| ==> Measure(other, [], t)[i] == Measure(fs, [], t)[i]
  {
    var m, n := Measure(fs, [], t), Measure(other, [], t);
    match t {
      case Leaf(_) =>
      case Dir(k, f) =>
        RootOutside(fs, device, euid, k, f, k);
        assert Same(fs, other, ForestKeySet(f)) by { assert ForestKeySet(f) <= Keys(t) - {k}; }
        ForestSame(fs, other, device, euid, [], k, f);
    }
    SameContents(m, n);
  }

  lemma SameContents(m: Run.Measured, n: Run.Measured)
    requires |m| == |n| > 0 && forall i :: 0 < i < |m| ==> m[i] == n[i]
    requires m[0].0 == n[0].0 == [] && Run.Digested([], m[0].1) == Run.Digested([], n[0].1)
    ensures Run.Contents(m) == Run.Contents(n)
  {
    assert seq(|m|, i requires 0 <= i < |m| => (m[i].0, Run.Digested(m[i].0, m[i].1)))
        == seq(|n|, i requires 0 <= i < |n| => (n[i].0, Run.Digested(n[i].0, n[i].1)));
  }

  // ---- Paths and rows ---------------------------------------------------------

  ghost function PathsOf(m: Run.Measured): set<Path> { set e | e in m :: e.0 }

  lemma {:induction false} MeasuredPaths(fs: Fs, relative: Path, t: Tree)
    ensures PathsOf(Measure(fs, relative, t)) == Theorems.Paths(relative, t)
    decreases t
  {
    var head: Run.Measured := [(relative, MetaAt(fs, t.key))];
    assert PathsOf(head) == {relative} by { assert (relative, MetaAt(fs, t.key)) in head; }
    match t
    case Leaf(_) => assert Measure(fs, relative, t) == head;
    case Dir(_, f) =>
      ForestPaths(fs, relative, f);
      AppendPaths(head, ForestMeasure(fs, relative, f));
  }

  lemma {:induction false} ForestPaths(fs: Fs, relative: Path, f: Forest)
    ensures PathsOf(ForestMeasure(fs, relative, f)) == Theorems.ForestPaths(relative, f)
    decreases f
  {
    match f
    case Nil =>
    case Cons(n, h, t) =>
      MeasuredPaths(fs, relative + [n], h);
      ForestPaths(fs, relative, t);
      AppendPaths(Measure(fs, relative + [n], h), ForestMeasure(fs, relative, t));
  }

  lemma AppendPaths(a: Run.Measured, b: Run.Measured)
    ensures PathsOf(a + b) == PathsOf(a) + PathsOf(b)
  {
    forall p | p in PathsOf(a) + PathsOf(b) ensures p in PathsOf(a + b) {
      var e :| (e in a || e in b) && e.0 == p;
      assert e in a + b;
    }
  }

  /** A measurement has no path twice. */
  lemma {:induction false} DistinctMeasure(fs: Fs, device: nat, euid: nat, relative: Path, t: Tree)
    requires Sound(fs, device, euid, t)
    ensures Run.DistinctPaths(Measure(fs, relative, t))
    decreases t
  {
    match t
    case Leaf(_) =>
    case Dir(k, f) =>
      DistinctForest(fs, device, euid, relative, k, f);
      var m, rest := Measure(fs, relative, t), ForestMeasure(fs, relative, f);
      forall j | 0 < j < |m| ensures m[j].0 != relative {
        assert m[j] == rest[j - 1];
        ForestPaths(fs, relative, f);
        assert rest[j - 1] in rest && rest[j - 1].0 in PathsOf(rest);
        DeeperPaths(relative, f);
      }
  }

  lemma {:induction false} DeeperPaths(relative: Path, f: Forest)
    ensures forall p :: p in Theorems.ForestPaths(relative, f) ==>
      |p| > |relative| && p[..|relative|] == relative && p[|relative|] in NameSet(f)
    decreases f
  {
    match f
    case Nil =>
    case Cons(n, h, t) =>
      Theorems.PathsUnder(relative, n, h);
      DeeperPaths(relative, t);
  }

  lemma {:induction false} DistinctForest(fs: Fs, device: nat, euid: nat, relative: Path, dir: Key, f: Forest)
    requires ForestSound(fs, device, euid, dir, f)
    ensures Run.DistinctPaths(ForestMeasure(fs, relative, f))
    decreases f
  {
    match f
    case Nil =>
    case Cons(n, h, t) =>
      DistinctMeasure(fs, device, euid, relative + [n], h);
      DistinctForest(fs, device, euid, relative, dir, t);
      var a, b := Measure(fs, relative + [n], h), ForestMeasure(fs, relative, t);
      forall i, j | 0 <= i < |a| && 0 <= j < |b| ensures a[i].0 != b[j].0 {
        MeasuredPaths(fs, relative + [n], h);
        ForestPaths(fs, relative, t);
        assert a[i] in a && b[j] in b;
        assert a[i].0 in PathsOf(a) && b[j].0 in PathsOf(b);
        Theorems.PathsUnder(relative, n, h);
        DeeperPaths(relative, t);
      }
  }

  lemma {:induction false} RowPaths(m: Run.Measured)
    ensures Run.Rows(m).Keys == PathsOf(m)
  {
    if m != [] {
      var front, last := m[..|m| - 1], m[|m| - 1];
      RowPaths(front);
      AppendPaths(front, [last]);
      assert m == front + [last];
      assert PathsOf([last]) == {last.0} by { assert last in [last]; }
    }
  }

  // ---- Links ----------------------------------------------------------------------

  lemma {:induction false} CopiesAppend(a: seq<EntryMeta>, b: seq<EntryMeta>, m: EntryMeta)
    ensures Closure.Copies(a + b, m) == Closure.Copies(a, m) + Closure.Copies(b, m)
    decreases |b|
  {
    if b == [] { assert a + b == a; }
    else {
      assert (a + b)[..|a + b| - 1] == a + b[..|b| - 1];
      CopiesAppend(a, b[..|b| - 1], m);
    }
  }

  lemma MetasAppend(a: Run.Measured, b: Run.Measured)
    ensures Run.Metas(a + b) == Run.Metas(a) + Run.Metas(b)
  {
  }

  /** A file is measured once for every name it has in the tree. */
  lemma {:induction false} CopiesAreNames(fs: Fs, device: nat, euid: nat, relative: Path, t: Tree, k: Key)
    requires Sound(fs, device, euid, t) && k in fs.inodes && k !in fs.dirs
    ensures Closure.Copies(Run.Metas(Measure(fs, relative, t)), MetaAt(fs, k)) == Count(Leaves(t), k)
    decreases t
  {
    var head: Run.Measured := [(relative, MetaAt(fs, t.key))];
    assert Run.Metas(head) == [MetaAt(fs, t.key)];
    assert Closure.Copies([MetaAt(fs, t.key)], MetaAt(fs, k)) == if t.key == k then 1 else 0 by {
      assert [MetaAt(fs, t.key)][..0] == [];
      assert MetaAt(fs, t.key) == MetaAt(fs, k) ==> t.key == k;
    }
    match t
    case Leaf(_) => assert Measure(fs, relative, t) == head;
    case Dir(d, f) =>
      ForestCopies(fs, device, euid, relative, d, f, k);
      MetasAppend(head, ForestMeasure(fs, relative, f));
      CopiesAppend(Run.Metas(head), Run.Metas(ForestMeasure(fs, relative, f)), MetaAt(fs, k));
  }

  lemma {:induction false} ForestCopies(fs: Fs, device: nat, euid: nat, relative: Path, dir: Key, f: Forest, k: Key)
    requires ForestSound(fs, device, euid, dir, f) && k in fs.inodes && k !in fs.dirs
    ensures Closure.Copies(Run.Metas(ForestMeasure(fs, relative, f)), MetaAt(fs, k)) == Count(ForestLeaves(f), k)
    decreases f
  {
    match f
    case Nil =>
    case Cons(n, h, t) =>
      CopiesAreNames(fs, device, euid, relative + [n], h, k);
      ForestCopies(fs, device, euid, relative, dir, t, k);
      var a, b := Measure(fs, relative + [n], h), ForestMeasure(fs, relative, t);
      MetasAppend(a, b);
      CopiesAppend(Run.Metas(a), Run.Metas(b), MetaAt(fs, k));
      CountAppend(Leaves(h), ForestLeaves(t), k);
  }

  /** What is measured is the metadata of a key of the tree; what is not a directory is a leaf. */
  lemma {:induction false} MeasuredKeys(fs: Fs, device: nat, euid: nat, relative: Path, t: Tree)
    requires Sound(fs, device, euid, t)
    ensures forall m :: m in Run.Metas(Measure(fs, relative, t)) ==> Kept(fs, m, Leaves(t))
    ensures forall k :: k in Leaves(t) ==>
      MetaAt(fs, k) in Run.Metas(Measure(fs, relative, t)) && LeafSound(fs, euid, k)
    decreases t
  {
    var head: Run.Measured := [(relative, MetaAt(fs, t.key))];
    assert Run.Metas(head) == [MetaAt(fs, t.key)];
    match t
    case Leaf(_) => assert Measure(fs, relative, t) == head;
    case Dir(d, f) =>
      ForestMeasured(fs, device, euid, relative, d, f);
      MetasAppend(head, ForestMeasure(fs, relative, f));
  }

  /** An entry is what its key is, and if it is no directory its key is one of `ks`. */
  predicate Kept(fs: Fs, m: EntryMeta, ks: seq<Key>) { m == MetaAt(fs, m.Object()) && (m.IsDir() || m.Object() in ks) }

  lemma {:induction false} ForestMeasured(fs: Fs, device: nat, euid: nat, relative: Path, dir: Key, f: Forest)
    requires ForestSound(fs, device, euid, dir, f)
    ensures forall m :: m in Run.Metas(ForestMeasure(fs, relative, f)) ==> Kept(fs, m, ForestLeaves(f))
    ensures forall k :: k in ForestLeaves(f) ==>
      MetaAt(fs, k) in Run.Metas(ForestMeasure(fs, relative, f)) && LeafSound(fs, euid, k)
    decreases f
  {
    match f
    case Nil =>
    case Cons(n, h, t) =>
      MeasuredKeys(fs, device, euid, relative + [n], h);
      ForestMeasured(fs, device, euid, relative, dir, t);
      MetasAppend(Measure(fs, relative + [n], h), ForestMeasure(fs, relative, t));
  }

  /** The measurement of a closed tree is closed and consistent. */
  lemma ClosedMeasure(fs: Fs, device: nat, euid: nat, t: Tree)
    requires Sound(fs, device, euid, t) && Theorems.ClosedTree(fs, t)
    ensures var metas := Run.Metas(Measure(fs, [], t)); Closure.Closed(metas) && Closure.Consistent(metas)
  {
    var metas := Run.Metas(Measure(fs, [], t));
    MeasuredKeys(fs, device, euid, [], t);
    forall m | m in metas ensures Kept(fs, m, Leaves(t)) {}
    forall m | m in metas && m.IsFile() ensures m.links > 0 && Closure.Copies(metas, m) == m.links {
      assert Kept(fs, m, Leaves(t)) && LeafSound(fs, euid, m.Object());
      CopiesAreNames(fs, device, euid, [], t, m.Object());
    }
    hide Sound, Measure, Closure.Copies;
  }

  // ---- The removal's start ------------------------------------------------------------

  /** The groups the closure of a measurement gives. */
  ghost function GroupsAt(fs: Fs, t: Tree): map<Key, Spec.LinkRemoval> {
    map k | k in Closure.Objects(Run.Metas(Measure(fs, [], t))) ::
      Spec.LinkRemoval(MetaAt(fs, k).identity, MetaAt(fs, k))
  }

  lemma GroupsAreLinked(fs: Fs, device: nat, euid: nat, t: Tree)
    requires Sound(fs, device, euid, t)
    ensures Theorems.GroupsOf(GroupsAt(fs, t), fs, t)
    ensures forall k :: k in Leaves(t) ==> k in fs.inodes && (k in GroupsAt(fs, t) <==> fs.inodes[k].links > 1)
    ensures forall m :: m in Run.Metas(Measure(fs, [], t)) && Closure.MultiLink(m) ==>
      m.Object() in GroupsAt(fs, t) && GroupsAt(fs, t)[m.Object()] == Spec.LinkRemoval(m.identity, m)
  {
    var metas, g := Run.Metas(Measure(fs, [], t)), GroupsAt(fs, t);
    MeasuredKeys(fs, device, euid, [], t);
    hide Sound, Measure;
    forall k | k in g
      ensures k in Leaves(t) && MetaAt(fs, k).IsFile() && LeafSound(fs, euid, k) && fs.inodes[k].links > 1
    {
      var m :| m in metas && Closure.MultiLink(m) && m.Object() == k;
      assert Kept(fs, m, Leaves(t));
    }
    forall k | k in Leaves(t) && fs.inodes[k].links > 1 ensures k in g {
      assert LeafSound(fs, euid, k) && MetaAt(fs, k) in metas && Closure.MultiLink(MetaAt(fs, k));
    }
    forall m | m in metas && Closure.MultiLink(m)
      ensures m.Object() in g && g[m.Object()] == Spec.LinkRemoval(m.identity, m)
    {
      assert Kept(fs, m, Leaves(t));
    }
  }

  ghost function FactsAt(fs: Fs, t: Tree): map<Key, Facts> {
    map k | k in Leaves(t) && k in fs.inodes :: FactsOf(fs.inodes[k], k in GroupsAt(fs, t))
  }

  /** Every entry but the root is exactly what its row says. */
  predicate Exact(manifest: map<Path, Identity>, m: Run.Measured) {
    forall i :: 0 <= i < |m| ==> m[i].0 in manifest && manifest[m[i].0] == m[i].1.identity
  }

  /** A leaf's group, if it has more links, is what it is now. */
  predicate LeafReady(s: Spec.State, facts: map<Key, Facts>, k: Key) {
    && k in s.fs.inodes && k in facts && facts[k] == FactsOf(s.fs.inodes[k], k in s.groups)
    && var m := MetaAt(s.fs, k);
       if k in s.groups then m.IsFile() && s.groups[k] == Spec.LinkRemoval(m.identity, m)
       else s.fs.inodes[k].links == 1
  }

  lemma {:induction false} TreeFits(c: Spec.Ctx, s: Spec.State, facts: map<Key, Facts>, relative: Path, t: Tree)
    requires Sound(s.fs, c.recovery.device, c.euid, t) && Exact(c.manifest, Measure(s.fs, relative, t))
    requires forall k :: k in Leaves(t) ==> LeafReady(s, facts, k)
    ensures Fits(c, s, facts, relative, t, false)
    decreases t
  {
    var m := Measure(s.fs, relative, t);
    assert m[0] == (relative, MetaAt(s.fs, t.key));
    match t
    case Leaf(k) => assert LeafReady(s, facts, k);
    case Dir(k, f) =>
      assert m[1..] == ForestMeasure(s.fs, relative, f);
      assert Exact(c.manifest, m[1..]);
      ForestFitsAll(c, s, facts, relative, k, f);
  }

  lemma {:induction false} ForestFitsAll(c: Spec.Ctx, s: Spec.State, facts: map<Key, Facts>, relative: Path, dir: Key,
                                         f: Forest)
    requires ForestSound(s.fs, c.recovery.device, c.euid, dir, f) && Exact(c.manifest, ForestMeasure(s.fs, relative, f))
    requires forall k :: k in ForestLeaves(f) ==> LeafReady(s, facts, k)
    ensures ForestFits(c, s, facts, relative, dir, f)
    decreases f
  {
    match f
    case Nil =>
    case Cons(n, h, t) =>
      var a, b := Measure(s.fs, relative + [n], h), ForestMeasure(s.fs, relative, t);
      assert (a + b)[..|a|] == a && (a + b)[|a|..] == b;
      assert Exact(c.manifest, a) && Exact(c.manifest, b);
      TreeFits(c, s, facts, relative + [n], h);
      ForestFitsAll(c, s, facts, relative, dir, t);
  }

  /** The root may have been restamped since its row was written. */
  lemma RootFits(c: Spec.Ctx, s: Spec.State, facts: map<Key, Facts>, t: Tree)
    requires Sound(s.fs, c.recovery.device, c.euid, t) && Exact(c.manifest, Measure(s.fs, [], t)[1..])
    requires [] in c.manifest && SameObject(c.manifest[[]], MetaAt(s.fs, t.key).identity)
    requires (forall k :: k in Leaves(t) ==> LeafReady(s, facts, k)) && (t.Leaf? ==> t.key !in s.groups)
    ensures Fits(c, s, facts, [], t, true)
  {
    match t
    case Leaf(k) => assert k in Leaves(t) && LeafReady(s, facts, k);
    case Dir(k, f) =>
      assert Measure(s.fs, [], t)[1..] == ForestMeasure(s.fs, [], f);
      ForestFitsAll(c, s, facts, [], k, f);
  }

  /** The distinct leaf inodes. */
  lemma {:induction false} DistinctKeys(ks: seq<Key>) returns (ds: seq<Key>)
    ensures Theorems.Distinct(ds) && forall k :: k in ks <==> k in ds
  {
    if ks == [] { return []; }
    ds := DistinctKeys(ks[1..]);
    if ks[0] !in ds { ds := [ks[0]] + ds; }
  }
}
