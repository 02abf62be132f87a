/**
 * Every moment of an undisturbed removal: how far it has come, what is in the
 * recovery directory then, and where everything not yet removed still is.
 */
module RemovalMoments {
  import opened Prelude
  import opened Metadata
  import opened FileSystem
  import opened Removal
  import opened RemovalQuiet
  import Safety = RemovalSafety
  import Runs = RemovalRuns
  import Theorems = RemovalTheorems

  /** One entry of the tree: its row, and the name that holds its object. */
  datatype Entry = Entry(path: Path, dir: Key, name: Name, key: Key, leaf: bool)

  /** The entries of a tree in the order they are removed: children before their directory. */
  function Entries(parent: Key, name: Name, relative: Path, t: Tree): (es: seq<Entry>)
    ensures es != [] && es[|es| - 1] == Entry(relative, parent, name, t.key, t.Leaf?)
    decreases t
  {
    match t
    case Leaf(k) => [Entry(relative, parent, name, k, true)]
    case Dir(k, f) => ForestEntries(k, relative, f) + [Entry(relative, parent, name, k, false)]
  }

  function ForestEntries(dir: Key, relative: Path, f: Forest): seq<Entry>
    decreases f
  {
    match f
    case Nil => []
    case Cons(n, h, t) => Entries(dir, n, relative + [n], h) + ForestEntries(dir, relative, t)
  }

  predicate InPlace(fs: Fs, e: Entry) {
    e.dir in fs.dirs && e.name in fs.dirs[e.dir] && fs.dirs[e.dir][e.name] == e.key
  }

  predicate Absent(fs: Fs, e: Entry) { e.dir in fs.dirs ==> e.name !in fs.dirs[e.dir] }

  /** The leaf is in the recovery directory, alone, under its row's name. */
  predicate Captured(c: Ctx, fs: Fs, e: Entry) {
    && e.leaf && Absent(fs, e)
    && c.recovery in fs.dirs && fs.dirs[c.recovery] == map[LeafName(c.operation, e.path) := e.key]
  }

  /** `m` entries are gone; the next one is in place or captured, and all others are in place. */
  predicate At(c: Ctx, fs: Fs, es: seq<Entry>, m: nat) {
    && m <= |es| && c.recovery in fs.dirs
    && (forall i :: 0 <= i < m ==> Absent(fs, es[i]))
    && (forall i :: m < i < |es| ==> InPlace(fs, es[i]))
    && if fs.dirs[c.recovery] == map[] then m < |es| ==> InPlace(fs, es[m]) else m < |es| && Captured(c, fs, es[m])
  }

  ghost predicate Partway(c: Ctx, fs: Fs, es: seq<Entry>) { exists m :: 0 <= m <= |es| && At(c, fs, es, m) }

  /** Every name of `after` is in `before` with the same object. */
  predicate Less(before: map<Name, Key>, after: map<Name, Key>) {
    forall n :: n in after ==> n in before && after[n] == before[n]
  }

  /** What the directory at `d` lost. */
  predicate Lost(before: Fs, after: Fs, d: Key, at: Key, names: set<Name>, dirs: set<Key>)
    requires d in before.dirs && d in after.dirs
  {
    && Less(before.dirs[d], after.dirs[d])
    && (d !in dirs ==> before.dirs[d].Keys - (if d == at then names else {}) <= after.dirs[d].Keys)
  }

  /** Outside the recovery directory no name appears, and only names in `at` (of `names`) and in `dirs` go. */
  predicate Shrunk(c: Ctx, before: Fs, after: Fs, at: Key, names: set<Name>, dirs: set<Key>) {
    && before.dirs.Keys - dirs <= after.dirs.Keys <= before.dirs.Keys
    && forall d :: d in after.dirs && d != c.recovery ==> Lost(before, after, d, at, names, dirs)
  }

  /** At every moment of the run from `s` to `s'`, with everything beside it in place. */
  ghost predicate Moments(c: Ctx, s: State, s': State, es: seq<Entry>, at: Key, names: set<Name>, dirs: set<Key>) {
    && s.trace <= s'.trace && s'.fs == Safety.Before(s, s', |s'.trace|)
    && forall i :: |s.trace| <= i <= |s'.trace| ==>
         var fs := Safety.Before(s, s', i);
         Partway(c, fs, es) && Shrunk(c, s.fs, fs, at, names, dirs)
  }

  // ---- Where entries are ------------------------------------------------------

  /** An entry's name is in `at`, among `names`, or in one of `dirs`. */
  predicate Within(e: Entry, at: Key, names: set<Name>, dirs: set<Key>) {
    (e.dir == at && e.name in names) || e.dir in dirs
  }

  lemma {:induction false} EntriesWithin(parent: Key, name: Name, relative: Path, t: Tree)
    ensures forall e :: e in Entries(parent, name, relative, t) ==> Within(e, parent, {name}, Dirs(t))
    decreases t
  {
    match t case Leaf(_) => case Dir(k, f) => ForestWithin(k, relative, f);
  }

  lemma {:induction false} ForestWithin(dir: Key, relative: Path, f: Forest)
    ensures forall e :: e in ForestEntries(dir, relative, f) ==> Within(e, dir, NameSet(f), ForestDirs(f))
    decreases f
  {
    match f
    case Nil =>
    case Cons(n, h, t) =>
      EntriesWithin(dir, n, relative + [n], h);
      ForestWithin(dir, relative, t);
  }

  lemma {:induction false} AllInPlace(c: Ctx, s: State, facts: map<Key, Facts>, parent: Key, name: Name, relative: Path,
                                      t: Tree, root: bool)
    requires Fits(c, s, facts, relative, t, root) && Holds(s, parent, name, t.key)
    ensures forall e :: e in Entries(parent, name, relative, t) ==> InPlace(s.fs, e)
    decreases t
  {
    match t case Leaf(_) => case Dir(k, f) => ForestInPlace(c, s, facts, relative, k, f);
  }

  lemma {:induction false} ForestInPlace(c: Ctx, s: State, facts: map<Key, Facts>, relative: Path, dir: Key, f: Forest)
    requires ForestFits(c, s, facts, relative, dir, f)
    ensures forall e :: e in ForestEntries(dir, relative, f) ==> InPlace(s.fs, e)
    decreases f
  {
    match f
    case Nil =>
    case Cons(n, h, t) =>
      assert h.key in s.fs.inodes;
      AllInPlace(c, s, facts, dir, n, relative + [n], h, false);
      ForestInPlace(c, s, facts, relative, dir, t);
  }

  predicate HasRow(c: Ctx, e: Entry) { e.path in c.manifest && c.manifest[e.path].Object() == e.key }

  /** An entry's row is its object's. */
  lemma {:induction false} RowsOfEntries(c: Ctx, s: State, facts: map<Key, Facts>, parent: Key, name: Name,
                                         relative: Path, t: Tree, root: bool)
    requires Fits(c, s, facts, relative, t, root) && Runs.GroupsSound(s.groups)
    ensures forall e :: e in Entries(parent, name, relative, t) ==> HasRow(c, e)
    decreases t
  {
    match t case Leaf(_) => case Dir(k, f) => ForestRows(c, s, facts, relative, k, f);
  }

  lemma {:induction false} ForestRows(c: Ctx, s: State, facts: map<Key, Facts>, relative: Path, dir: Key, f: Forest)
    requires ForestFits(c, s, facts, relative, dir, f) && Runs.GroupsSound(s.groups)
    ensures forall e :: e in ForestEntries(dir, relative, f) ==> HasRow(c, e)
    decreases f
  {
    match f
    case Nil =>
    case Cons(n, h, t) =>
      RowsOfEntries(c, s, facts, dir, n, relative + [n], h, false);
      ForestRows(c, s, facts, relative, dir, t);
  }

  // ---- Paths --------------------------------------------------------------------

  /** Following a path from a name. */
  function Resolve(fs: Fs, dir: Key, name: Name, p: Path): Option<Key>
    decreases |p|
  {
    if dir !in fs.dirs || name !in fs.dirs[dir] then None
    else if p == [] then Some(fs.dirs[dir][name])
    else Resolve(fs, fs.dirs[dir][name], p[0], p[1..])
  }

  /** From entry `j` on everything is in place, so the path of entry `j` still leads to its object. */
  lemma {:induction false} PathsResolve(fs: Fs, parent: Key, name: Name, relative: Path, t: Tree, j: nat)
    requires var es := Entries(parent, name, relative, t);
      j < |es| && forall i :: j <= i < |es| ==> InPlace(fs, es[i])
    ensures var e := Entries(parent, name, relative, t)[j];
      && |e.path| >= |relative| && e.path[..|relative|] == relative
      && Resolve(fs, parent, name, e.path[|relative|..]) == Some(e.key)
    decreases t
  {
    var es := Entries(parent, name, relative, t);
    if j < |es| - 1 {
      var fes := ForestEntries(t.key, relative, t.children);
      assert forall i :: 0 <= i < |fes| ==> es[i] == fes[i];
      ForestResolve(fs, t.key, relative, t.children, j);
      assert InPlace(fs, es[|es| - 1]);
      var p := es[j].path[|relative|..];
      assert p[0] == es[j].path[|relative|] && p[1..] == es[j].path[|relative| + 1..];
    } else {
      assert es[j].path == relative && relative[|relative|..] == [];
    }
  }

  lemma {:induction false} ForestResolve(fs: Fs, dir: Key, relative: Path, f: Forest, j: nat)
    requires var es := ForestEntries(dir, relative, f);
      j < |es| && forall i :: j <= i < |es| ==> InPlace(fs, es[i])
    ensures var e := ForestEntries(dir, relative, f)[j];
      && |e.path| > |relative| && e.path[..|relative|] == relative
      && Resolve(fs, dir, e.path[|relative|], e.path[|relative| + 1..]) == Some(e.key)
    decreases f
  {
    var es := ForestEntries(dir, relative, f);
    match f
    case Cons(n, h, t) =>
      var a, b := Entries(dir, n, relative + [n], h), ForestEntries(dir, relative, t);
      assert forall i :: 0 <= i < |es| ==> es[i] == if i < |a| then a[i] else b[i - |a|];
      if j < |a| {
        PathsResolve(fs, dir, n, relative + [n], h, j);
        var p := es[j].path;
        assert p[..|relative|] == p[..|relative| + 1][..|relative|] == relative;
        assert p[|relative|] == p[..|relative| + 1][|relative|] == n;
      } else {
        forall i | j - |a| <= i < |b| ensures InPlace(fs, b[i]) { assert es[i + |a|] == b[i]; }
        ForestResolve(fs, dir, relative, t, j - |a|);
      }
  }

  // ---- One leaf -------------------------------------------------------------------

  /** The three file systems of a leaf's removal: in place, captured, gone. */
  lemma LeafAts(c: Ctx, fs: Fs, parent: Key, name: Name, relative: Path, k: Key)
    requires c.recovery in fs.dirs && fs.dirs[c.recovery] == map[]
    requires Named(fs, parent, name) && fs.dirs[parent][name] == k && k !in fs.dirs
    requires parent != c.recovery && parent.device == c.recovery.device
    ensures var (captured, es) := (LeafName(c.operation, relative), Entries(parent, name, relative, Leaf(k)));
      && CanRename(fs, parent, name, c.recovery, captured)
      && var fs1 := Rename(fs, parent, name, c.recovery, captured);
      && CanUnlink(fs1, c.recovery, captured)
      && At(c, fs, es, 0) && At(c, fs1, es, 0) && At(c, Unlink(fs1, c.recovery, captured), es, 1)
  {
    var captured := LeafName(c.operation, relative);
    LeafFs(c, fs, parent, name, captured, k);
    var fs1 := Rename(fs, parent, name, c.recovery, captured);
    assert fs1.dirs[c.recovery] == map[captured := k] && fs1.dirs[parent] == fs.dirs[parent] - {name};
    hide Rename, Unlink, CanRename, CanUnlink;
  }

  lemma LeafShrinks(c: Ctx, fs: Fs, parent: Key, name: Name, captured: Name)
    requires CanRename(fs, parent, name, c.recovery, captured) && parent != c.recovery
    requires CanUnlink(Rename(fs, parent, name, c.recovery, captured), c.recovery, captured)
    ensures var fs1 := Rename(fs, parent, name, c.recovery, captured);
      && Shrunk(c, fs, fs, parent, {name}, {}) && Shrunk(c, fs, fs1, parent, {name}, {})
      && Shrunk(c, fs, Unlink(fs1, c.recovery, captured), parent, {name}, {})
  {
    var fs1 := Rename(fs, parent, name, c.recovery, captured);
    var fs2 := Unlink(fs1, c.recovery, captured);
    assert fs1.dirs[parent] == fs.dirs[parent] - {name};
    assert forall d :: d in fs.dirs && d != parent && d != c.recovery ==> fs1.dirs[d] == fs.dirs[d];
    assert forall d :: d in fs1.dirs && d != c.recovery ==> fs2.dirs[d] == fs1.dirs[d];
    assert fs1.dirs.Keys == fs.dirs.Keys && fs2.dirs.Keys == fs.dirs.Keys;
    hide Rename, Unlink, CanRename, CanUnlink;
  }

  lemma LeafMoments(c: Ctx, s: State, parent: Key, name: Name, relative: Path, k: Key)
    requires Calm(c, s) && Holds(s, parent, name, k) && k !in s.fs.dirs
    requires parent != c.recovery && parent.device == c.recovery.device
    ensures Moments(c, s, QuietLeaf(c, s, relative, parent, name, k), Entries(parent, name, relative, Leaf(k)),
                    parent, {name}, {})
  {
    var (captured, es) := (LeafName(c.operation, relative), Entries(parent, name, relative, Leaf(k)));
    LeafAts(c, s.fs, parent, name, relative, k);
    LeafShrinks(c, s.fs, parent, name, captured);
    LeafTrace(c, s, parent, name, relative, k);
    hide At, Shrunk, Rename, Unlink, QuietLeaf, Calm, CanRename, CanUnlink, Holds, Entries;
    var fs1 := Rename(s.fs, parent, name, c.recovery, captured);
    var s' := QuietLeaf(c, s, relative, parent, name, k);
    forall i | |s.trace| <= i <= |s'.trace|
      ensures var fs := Safety.Before(s, s', i); Partway(c, fs, es) && Shrunk(c, s.fs, fs, parent, {name}, {})
    {
      assert Safety.Before(s, s', i) ==
        if i == |s.trace| then s.fs else if i == |s.trace| + 1 then fs1 else Unlink(fs1, c.recovery, captured);
    }
  }

  lemma LeafTrace(c: Ctx, s: State, parent: Key, name: Name, relative: Path, k: Key)
    requires Calm(c, s) && Holds(s, parent, name, k) && k !in s.fs.dirs
    requires parent != c.recovery && parent.device == c.recovery.device
    ensures var captured := LeafName(c.operation, relative);
      && CanRename(s.fs, parent, name, c.recovery, captured)
      && var fs1 := Rename(s.fs, parent, name, c.recovery, captured);
      && CanUnlink(fs1, c.recovery, captured)
      && var fs2 := Unlink(fs1, c.recovery, captured);
         var s' := QuietLeaf(c, s, relative, parent, name, k);
         s'.trace == s.trace + [Step(true, s.fs, fs1)] + [Step(true, fs1, fs2)] && s'.fs == fs2
  {
    LeafFs(c, s.fs, parent, name, LeafName(c.operation, relative), k);
    hide Rename, Unlink, CanRename;
  }

  // ---- One part after another --------------------------------------------------------

  /** While the first part runs, the entries of the second are untouched. */
  lemma LaterInPlace(c: Ctx, before: Fs, after: Fs, at: Key, names: set<Name>, dirs: set<Key>, e: Entry)
    requires Shrunk(c, before, after, at, names, dirs) && InPlace(before, e)
    requires e.dir !in dirs && e.dir != c.recovery && (e.dir != at || e.name !in names)
    ensures InPlace(after, e)
  {
    assert Lost(before, after, e.dir, at, names, dirs);
  }

  /** What is gone stays gone. */
  lemma StillAbsent(c: Ctx, before: Fs, after: Fs, at: Key, names: set<Name>, dirs: set<Key>, e: Entry)
    requires Shrunk(c, before, after, at, names, dirs) && Absent(before, e) && e.dir != c.recovery
    ensures Absent(after, e)
  {
    if e.dir in after.dirs { assert Lost(before, after, e.dir, at, names, dirs); }
  }

  lemma FirstPart(c: Ctx, fs: Fs, a: seq<Entry>, b: seq<Entry>)
    requires Partway(c, fs, a) && forall e :: e in b ==> InPlace(fs, e)
    ensures Partway(c, fs, a + b)
  {
    var m :| 0 <= m <= |a| && At(c, fs, a, m);
    var es := a + b;
    hide InPlace, Absent;
    forall i | m < i < |es| ensures InPlace(fs, es[i]) { if i >= |a| { assert es[i] == b[i - |a|]; } }
    if m == |a| && b != [] { assert es[m] == b[0]; }
    assert At(c, fs, es, m);
  }

  lemma SecondPart(c: Ctx, fs: Fs, a: seq<Entry>, b: seq<Entry>)
    requires Partway(c, fs, b) && forall e :: e in a ==> Absent(fs, e)
    ensures Partway(c, fs, a + b)
  {
    var m :| 0 <= m <= |b| && At(c, fs, b, m);
    var es := a + b;
    hide InPlace, Absent;
    forall i | 0 <= i < |a| + m ensures Absent(fs, es[i]) {
      if i < |a| { assert es[i] == a[i]; } else { assert es[i] == b[i - |a|]; }
    }
    forall i | |a| + m < i < |es| ensures InPlace(fs, es[i]) { assert es[i] == b[i - |a|]; }
    if m < |b| { assert es[|a| + m] == b[m]; }
    assert At(c, fs, es, |a| + m);
  }

  lemma ShrunkTrans(c: Ctx, x: Fs, y: Fs, z: Fs, at: Key, m: set<Name>, n: set<Name>, d: set<Key>, e: set<Key>)
    requires Shrunk(c, x, y, at, m, d) && Shrunk(c, y, z, at, n, e)
    ensures Shrunk(c, x, z, at, m + n, d + e)
  {
    forall k | k in z.dirs && k != c.recovery ensures Lost(x, z, k, at, m + n, d + e) {
      assert Lost(x, y, k, at, m, d) && Lost(y, z, k, at, n, e);
    }
  }

  lemma ShrunkMore(c: Ctx, x: Fs, y: Fs, at: Key, m: set<Name>, d: set<Key>, n: set<Name>, e: set<Key>)
    requires Shrunk(c, x, y, at, m, d) && m <= n && d <= e
    ensures Shrunk(c, x, y, at, n, e)
  {
    forall k | k in y.dirs && k != c.recovery ensures Lost(x, y, k, at, n, e) { assert Lost(x, y, k, at, m, d); }
  }

  /** A directory whose names went is one of the directories that go. */
  lemma ShrunkInside(c: Ctx, x: Fs, y: Fs, at: Key, m: set<Name>, d: set<Key>, parent: Key, n: set<Name>)
    requires Shrunk(c, x, y, at, m, d)
    ensures Shrunk(c, x, y, parent, n, d + {at})
  {
    forall k | k in y.dirs && k != c.recovery ensures Lost(x, y, k, parent, n, d + {at}) {
      assert Lost(x, y, k, at, m, d);
    }
  }

  /** A moment of the first of two parts, and one of the second. */
  lemma EarlyMoment(c: Ctx, before: Fs, at: Fs, a: seq<Entry>, b: seq<Entry>, dir: Key, m: set<Name>, n: set<Name>,
                    d: set<Key>, e: set<Key>)
    requires Partway(c, at, a) && Shrunk(c, before, at, dir, m, d)
    requires forall x :: x in b ==>
      InPlace(before, x) && x.dir !in d && x.dir != c.recovery && (x.dir != dir || x.name !in m)
    ensures Partway(c, at, a + b) && Shrunk(c, before, at, dir, m + n, d + e)
  {
    hide Partway, Shrunk, InPlace;
    forall x | x in b ensures InPlace(at, x) { LaterInPlace(c, before, at, dir, m, d, x); }
    FirstPart(c, at, a, b);
    ShrunkMore(c, before, at, dir, m, d, m + n, d + e);
  }

  lemma LateMoment(c: Ctx, before: Fs, between: Fs, at: Fs, a: seq<Entry>, b: seq<Entry>, dir: Key, m: set<Name>,
                   n: set<Name>, d: set<Key>, e: set<Key>)
    requires Shrunk(c, before, between, dir, m, d) && Partway(c, at, b) && Shrunk(c, between, at, dir, n, e)
    requires forall x :: x in a ==> Absent(between, x) && x.dir != c.recovery
    ensures Partway(c, at, a + b) && Shrunk(c, before, at, dir, m + n, d + e)
  {
    hide Partway, Shrunk, Absent;
    forall x | x in a ensures Absent(at, x) { StillAbsent(c, between, at, dir, n, e, x); }
    SecondPart(c, at, a, b);
    ShrunkTrans(c, before, between, at, dir, m, n, d, e);
  }

  lemma MomentsTrans(c: Ctx, s: State, s1: State, s2: State, a: seq<Entry>, b: seq<Entry>, at: Key,
                     m: set<Name>, n: set<Name>, d: set<Key>, e: set<Key>)
    requires Moments(c, s, s1, a, at, m, d) && Moments(c, s1, s2, b, at, n, e)
    requires forall x :: x in b ==>
      InPlace(s.fs, x) && x.dir !in d && x.dir != c.recovery && (x.dir != at || x.name !in m)
    requires forall x :: x in a ==> Absent(s1.fs, x) && x.dir != c.recovery
    ensures Moments(c, s, s2, a + b, at, m + n, d + e)
  {
    hide Shrunk, Partway, InPlace, Absent;
    assert s1.fs == Safety.Before(s, s1, |s1.trace|) && |s.trace| <= |s1.trace| <= |s2.trace|;
    forall i | |s.trace| <= i <= |s2.trace|
      ensures var fs := Safety.Before(s, s2, i); Partway(c, fs, a + b) && Shrunk(c, s.fs, fs, at, m + n, d + e)
    {
      var fs := Safety.Before(s, s2, i);
      if i <= |s1.trace| {
        assert fs == Safety.Before(s, s1, i);
        EarlyMoment(c, s.fs, fs, a, b, at, m, n, d, e);
      } else {
        assert fs == Safety.Before(s1, s2, i);
        LateMoment(c, s.fs, s1.fs, fs, a, b, at, m, n, d, e);
      }
    }
    assert s2.fs == Safety.Before(s, s2, |s2.trace|);
  }

  /** After a removal its entries are gone. */
  lemma EntriesGone(c: Ctx, s: State, s': State, at: Key, names: set<Name>, dirs: set<Key>, ks: seq<Key>, e: Entry)
    requires Cleared(c, s, s', at, names, dirs, ks) && Within(e, at, names, dirs)
    ensures Absent(s'.fs, e)
  {
    hide Calm, Count, GroupFollows;
  }

  // ---- The whole tree -----------------------------------------------------------------

  lemma NoMoments(c: Ctx, s: State, at: Key)
    requires Calm(c, s)
    ensures Moments(c, s, s, [], at, {}, {})
  {
    assert At(c, s.fs, [], 0);
  }

  /** While the children of directory `k` go, the directory's own name stays. */
  lemma InsideMoment(c: Ctx, before: Fs, at: Fs, k: Key, f: Forest, inner: seq<Entry>, last: Entry)
    requires Partway(c, at, inner) && Shrunk(c, before, at, k, NameSet(f), ForestDirs(f))
    requires InPlace(before, last) && last.dir !in {c.recovery, k} && last.dir !in ForestDirs(f)
    ensures Partway(c, at, inner + [last])
    ensures Shrunk(c, before, at, last.dir, {last.name}, {k} + ForestDirs(f))
  {
    LaterInPlace(c, before, at, k, NameSet(f), ForestDirs(f), last);
    ShrunkInside(c, before, at, k, NameSet(f), ForestDirs(f), last.dir, {last.name});
    hide Shrunk, Partway, InPlace;
    FirstPart(c, at, inner, [last]);
    assert ForestDirs(f) + {k} == {k} + ForestDirs(f);
  }

  lemma InsideMoments(c: Ctx, s: State, s1: State, k: Key, f: Forest, inner: seq<Entry>, last: Entry)
    requires Moments(c, s, s1, inner, k, NameSet(f), ForestDirs(f))
    requires InPlace(s.fs, last) && last.dir !in {c.recovery, k} && last.dir !in ForestDirs(f)
    ensures Moments(c, s, s1, inner + [last], last.dir, {last.name}, {k} + ForestDirs(f))
  {
    hide Partway, Shrunk, InPlace, ForestDirs, NameSet;
    forall i | |s.trace| <= i <= |s1.trace|
      ensures var at := Safety.Before(s, s1, i);
        Partway(c, at, inner + [last]) && Shrunk(c, s.fs, at, last.dir, {last.name}, {k} + ForestDirs(f))
    {
      InsideMoment(c, s.fs, Safety.Before(s, s1, i), k, f, inner, last);
    }
  }

  lemma OneMoreMoment(c: Ctx, s: State, s1: State, fs: Fs, es: seq<Entry>, at: Key, names: set<Name>, dirs: set<Key>)
    requires Moments(c, s, s1, es, at, names, dirs)
    requires Partway(c, fs, es) && Shrunk(c, s.fs, fs, at, names, dirs)
    ensures Moments(c, s, Put(s1, fs).(completed := SatAdd(s1.completed, 1)), es, at, names, dirs)
  {
    hide Partway, Shrunk;
    var s2 := Put(s1, fs).(completed := SatAdd(s1.completed, 1));
    forall i | |s.trace| <= i <= |s2.trace|
      ensures var fs := Safety.Before(s, s2, i); Partway(c, fs, es) && Shrunk(c, s.fs, fs, at, names, dirs)
    {
      assert Safety.Before(s, s2, i) == if i <= |s1.trace| then Safety.Before(s, s1, i) else fs;
    }
    assert s2.fs == Safety.Before(s, s2, |s2.trace|);
  }

  /** The last moment of a directory: it is removed when everything in it is gone. */
  lemma ClosingMoment(c: Ctx, s: State, s1: State, fs: Fs, parent: Key, name: Name, k: Key, relative: Path, f: Forest)
    requires Moments(c, s, s1, ForestEntries(k, relative, f), k, NameSet(f), ForestDirs(f))
    requires CanRemoveDir(s1.fs, parent, name) && s1.fs.dirs[parent][name] == k && fs == RemoveDir(s1.fs, parent, name)
    requires parent !in {c.recovery, k} && k != c.recovery && parent !in ForestDirs(f) && c.recovery in s1.fs.dirs
    requires s1.fs.dirs[c.recovery] == map[]
    requires InPlace(s.fs, Entry(relative, parent, name, k, false))
    requires forall e :: e in ForestEntries(k, relative, f) ==> Absent(s1.fs, e) && e.dir != c.recovery
    ensures Moments(c, s, Put(s1, fs).(completed := SatAdd(s1.completed, 1)),
                    Entries(parent, name, relative, Dir(k, f)), parent, {name}, Dirs(Dir(k, f)))
  {
    var (last, inner) := (Entry(relative, parent, name, k, false), ForestEntries(k, relative, f));
    var dirs := {k} + ForestDirs(f);
    assert Entries(parent, name, relative, Dir(k, f)) == inner + [last] && Dirs(Dir(k, f)) == dirs;
    RemovedMoment(c, s1.fs, fs, parent, name, k, last, inner);
    hide RemoveDir, CanRemoveDir, Entries, ForestEntries, Dirs, ForestDirs, Absent, InPlace, Partway, Shrunk;
    InsideMoments(c, s, s1, k, f, inner, last);
    assert s1.fs == Safety.Before(s, s1, |s1.trace|);
    ShrunkTrans(c, s.fs, s1.fs, fs, parent, {name}, {name}, dirs, {k});
    assert {name} + {name} == {name} && dirs + {k} == dirs;
    OneMoreMoment(c, s, s1, fs, inner + [last], parent, {name}, dirs);
  }

  lemma RemovedMoment(c: Ctx, before: Fs, after: Fs, parent: Key, name: Name, k: Key, last: Entry, inner: seq<Entry>)
    requires CanRemoveDir(before, parent, name) && before.dirs[parent][name] == k
    requires after == RemoveDir(before, parent, name)
    requires parent !in {c.recovery, k} && k != c.recovery
    requires c.recovery in before.dirs && before.dirs[c.recovery] == map[]
    requires last.dir == parent && last.name == name
    requires forall e :: e in inner ==> Absent(before, e) && e.dir != c.recovery
    ensures Shrunk(c, before, after, parent, {name}, {k}) && Partway(c, after, inner + [last])
  {
    assert after.dirs[parent] == before.dirs[parent] - {name};
    assert Shrunk(c, before, after, parent, {name}, {k});
    forall e | e in inner + [last] ensures Absent(after, e) {
      if e in inner { StillAbsent(c, before, after, parent, {name}, {k}, e); }
    }
    hide RemoveDir, CanRemoveDir, Absent, Shrunk;
    assert after.dirs[c.recovery] == map[];
    var es := inner + [last];
    assert forall i :: 0 <= i < |es| ==> es[i] in es;
    assert At(c, after, es, |es|);
  }

  lemma SameMoments(c: Ctx, s: State, popped: State, s1: State, es: seq<Entry>, at: Key, names: set<Name>,
                    dirs: set<Key>)
    requires popped == s.(listings := popped.listings) && Moments(c, popped, s1, es, at, names, dirs)
    ensures Moments(c, s, s1, es, at, names, dirs)
  {
    hide Partway, Shrunk;
    forall i | |s.trace| <= i <= |s1.trace|
      ensures var fs := Safety.Before(s, s1, i); Partway(c, fs, es) && Shrunk(c, s.fs, fs, at, names, dirs)
    {
      assert Safety.Before(s, s1, i) == Safety.Before(popped, s1, i);
    }
  }

  /** What a forest's removal leaves of its entries. */
  lemma ForestGone(c: Ctx, s: State, s1: State, k: Key, relative: Path, f: Forest)
    requires Cleared(c, s, s1, k, NameSet(f), ForestDirs(f), ForestLeaves(f))
    requires k != c.recovery && c.recovery !in ForestDirs(f)
    ensures forall e :: e in ForestEntries(k, relative, f) ==> Absent(s1.fs, e) && e.dir != c.recovery
  {
    ForestWithin(k, relative, f);
    hide Cleared, Absent, ForestEntries;
    forall e | e in ForestEntries(k, relative, f) ensures Absent(s1.fs, e) {
      EntriesGone(c, s, s1, k, NameSet(f), ForestDirs(f), ForestLeaves(f), e);
    }
  }

  lemma DirMoments(c: Ctx, s: State, popped: State, s1: State, facts: map<Key, Facts>, parent: Key, name: Name,
                   relative: Path, k: Key, f: Forest, root: bool, rest: seq<Key>)
    requires Ready(c, s, facts, parent, name, relative, Dir(k, f), root, rest)
    requires popped == s.(listings := popped.listings)
    requires Cleared(c, popped, s1, k, NameSet(f), ForestDirs(f), ForestLeaves(f))
    requires Moments(c, popped, s1, ForestEntries(k, relative, f), k, NameSet(f), ForestDirs(f))
    ensures relative in c.manifest
    ensures var (s2, v) := CloseDirectory(c, s1, parent, name, c.manifest[relative]);
      Moments(c, s, s2, Entries(parent, name, relative, Dir(k, f)), parent, {name}, Dirs(Dir(k, f)))
  {
    assert InPlace(s.fs, Entry(relative, parent, name, k, false));
    hide CloseDirectory, RemoveDir, CanRemoveDir, GroupFollows, Explained, Moments, Entries, ForestEntries, Absent;
    ForestGone(c, popped, s1, k, relative, f);
    Emptied(c, popped, s1, parent, name, k, f);
    SameMoments(c, s, popped, s1, ForestEntries(k, relative, f), k, NameSet(f), ForestDirs(f));
    hide Cleared;
    ClosesDir(c, s1, parent, name, k, c.manifest[relative]);
    ClosingMoment(c, s, s1, RemoveDir(s1.fs, parent, name), parent, name, k, relative, f);
  }

  lemma WholeLeaf(c: Ctx, s: State, facts: map<Key, Facts>, parent: Key, name: Name, relative: Path, k: Key,
                  root: bool, rest: seq<Key>)
    requires Ready(c, s, facts, parent, name, relative, Leaf(k), root, rest)
    ensures Moments(c, s, Remove(c, s, parent, name, relative, root).0, Entries(parent, name, relative, Leaf(k)),
                    parent, {name}, {})
  {
    EntersLeaf(c, s, facts, parent, name, relative, k, root, rest);
    assert k in [k] + rest;
    CountIn([k] + rest, k);
    hide RemoveLeaf, Remove, Moments, Entries;
    LeafReaches(c, s, facts, parent, name, relative, k);
    LeafMoments(c, s, parent, name, relative, k);
  }

  /** Every moment of the removal of a reviewed tree, whatever its shape and its hard links. */
  lemma {:induction false} TreeMoments(c: Ctx, s: State, facts: map<Key, Facts>, parent: Key, name: Name,
                                       relative: Path, t: Tree, root: bool, rest: seq<Key>, more: seq<seq<Name>>)
    requires Ready(c, s, facts, parent, name, relative, t, root, rest) && s.listings == Listings(t) + more
    ensures var (s', v) := Remove(c, s, parent, name, relative, root);
      Moments(c, s, s', Entries(parent, name, relative, t), parent, {name}, Dirs(t))
    decreases t, 1
  {
    hide Moments, Entries, ForestEntries;
    match t
    case Leaf(k) =>
      WholeLeaf(c, s, facts, parent, name, relative, k, root, rest);
    case Dir(k, f) =>
      EntersDir(c, s, facts, parent, name, relative, k, f, root, rest);
      TreeKeys(c, s, facts, relative, t, root);
      var popped := s.(listings := s.listings[1..]);
      assert s.listings[0] == Names(f) && popped.listings == ForestListings(f) + more;
      PoppedReady(c, s, facts, relative, k, f, rest, popped);
      hide Remove, RemoveEach, CloseDirectory, Ready, Cleared, Booked;
      ForestQuiet(c, popped, facts, k, relative, f, rest, more);
      ForestMoments(c, popped, facts, k, relative, f, rest, more);
      var (s1, v) := RemoveEach(c, popped, k, Names(f), relative);
      DirMoments(c, s, popped, s1, facts, parent, name, relative, k, f, root, rest);
  }

  /** The entries of the rest of a forest are not touched by the removal of its head. */
  lemma TailApart(c: Ctx, s: State, facts: map<Key, Facts>, dir: Key, relative: Path, n: Name, h: Tree, t: Forest,
                  rest: seq<Key>)
    requires ForestReady(c, s, facts, dir, relative, Cons(n, h, t), rest)
    ensures forall e :: e in ForestEntries(dir, relative, t) ==>
      InPlace(s.fs, e) && e.dir !in Dirs(h) && e.dir != c.recovery && (e.dir != dir || e.name !in {n})
  {
    ForestInPlace(c, s, facts, relative, dir, t);
    ForestWithin(dir, relative, t);
    hide InPlace, Explained, ForestEntries, Fits, LeafFits, DirFits;
  }

  /** The entries of a tree that was removed. */
  lemma HeadGone(c: Ctx, s: State, s1: State, dir: Key, relative: Path, n: Name, h: Tree)
    requires Cleared(c, s, s1, dir, {n}, Dirs(h), Leaves(h))
    requires dir != c.recovery && c.recovery !in Dirs(h)
    ensures forall e :: e in Entries(dir, n, relative + [n], h) ==> Absent(s1.fs, e) && e.dir != c.recovery
  {
    EntriesWithin(dir, n, relative + [n], h);
    hide Cleared, Absent, Entries;
    forall e | e in Entries(dir, n, relative + [n], h) ensures Absent(s1.fs, e) {
      EntriesGone(c, s, s1, dir, {n}, Dirs(h), Leaves(h), e);
    }
  }

  lemma {:induction false} ForestMoments(c: Ctx, s: State, facts: map<Key, Facts>, dir: Key, relative: Path, f: Forest,
                                         rest: seq<Key>, more: seq<seq<Name>>)
    requires ForestReady(c, s, facts, dir, relative, f, rest) && s.listings == ForestListings(f) + more
    ensures var (s', v) := RemoveEach(c, s, dir, Names(f), relative);
      Moments(c, s, s', ForestEntries(dir, relative, f), dir, NameSet(f), ForestDirs(f))
    decreases f, 0
  {
    hide Cleared, Booked, Ready, Fits, ForestFits, Remove, Moments, InPlace, Absent;
    match f
    case Nil =>
      NoMoments(c, s, dir);
    case Cons(n, h, t) =>
      var after := ForestLeaves(t) + rest;
      assert s.listings == Listings(h) + (ForestListings(t) + more);
      HeadReady(c, s, facts, dir, relative, n, h, t, rest);
      TreeQuiet(c, s, facts, dir, n, relative + [n], h, false, after, ForestListings(t) + more);
      TreeMoments(c, s, facts, dir, n, relative + [n], h, false, after, ForestListings(t) + more);
      var (s1, v) := Remove(c, s, dir, n, relative + [n], false);
      TailReady(c, s, s1, facts, dir, relative, n, h, t, rest);
      TailApart(c, s, facts, dir, relative, n, h, t, rest);
      HeadGone(c, s, s1, dir, relative, n, h);
      hide ForestReady;
      ForestMoments(c, s1, facts, dir, relative, t, rest, more);
      var (s2, w) := RemoveEach(c, s1, dir, Names(t), relative);
      EachUnfolds(c, s, dir, n, Names(t), relative);
      assert Names(f) == [n] + Names(t);
      MomentsTrans(c, s, s1, s2, Entries(dir, n, relative + [n], h), ForestEntries(dir, relative, t), dir,
                   {n}, NameSet(t), Dirs(h), ForestDirs(t));
  }

  // ---- In terms of the rows -------------------------------------------------------

  function PathsOf(es: seq<Entry>): set<Path> { set e | e in es :: e.path }

  lemma {:induction false} EntriesPaths(parent: Key, name: Name, relative: Path, t: Tree)
    ensures PathsOf(Entries(parent, name, relative, t)) == Theorems.Paths(relative, t)
    ensures |Entries(parent, name, relative, t)| == Size(t)
    decreases t
  {
    match t
    case Leaf(k) =>
    case Dir(k, f) =>
      ForestEntriesPaths(k, relative, f);
      PathsOfBoth(ForestEntries(k, relative, f), [Entry(relative, parent, name, k, false)]);
  }

  lemma PathsOfBoth(a: seq<Entry>, b: seq<Entry>)
    ensures PathsOf(a + b) == PathsOf(a) + PathsOf(b)
  {
    assert forall e :: e in a + b <==> e in a || e in b;
  }

  lemma {:induction false} ForestEntriesPaths(dir: Key, relative: Path, f: Forest)
    ensures PathsOf(ForestEntries(dir, relative, f)) == Theorems.ForestPaths(relative, f)
    ensures |ForestEntries(dir, relative, f)| == ForestSize(f)
    decreases f
  {
    match f
    case Nil =>
    case Cons(n, h, t) =>
      EntriesPaths(dir, n, relative + [n], h);
      ForestEntriesPaths(dir, relative, t);
      PathsOfBoth(Entries(dir, n, relative + [n], h), ForestEntries(dir, relative, t));
  }

  /** From the stage name, the row's path still leads to the row's object. */
  predicate Reachable(c: Ctx, fs: Fs, parent: Key, stage: Name, p: Path) {
    p in c.manifest && Resolve(fs, parent, stage, p) == Some(c.manifest[p].Object())
  }

  /**
   * `m` entries are gone, the entries after them are where their rows say,
   * and the next one is there too or is the one leaf in the recovery
   * directory, under its row's name and with its row's object.
   */
  predicate Rows(c: Ctx, fs: Fs, parent: Key, stage: Name, es: seq<Entry>, m: nat) {
    && m <= |es| && c.recovery in fs.dirs
    && (forall i :: 0 <= i < m ==> Absent(fs, es[i]))
    && (forall i :: m < i < |es| ==> Reachable(c, fs, parent, stage, es[i].path))
    && if fs.dirs[c.recovery] == map[] then m < |es| ==> Reachable(c, fs, parent, stage, es[m].path)
       else
         && m < |es| && es[m].leaf && Absent(fs, es[m]) && es[m].path in c.manifest
         && fs.dirs[c.recovery] == map[LeafName(c.operation, es[m].path) := c.manifest[es[m].path].Object()]
  }

  lemma RowsAt(c: Ctx, fs: Fs, parent: Key, stage: Name, t: Tree, m: nat)
    requires At(c, fs, Entries(parent, stage, [], t), m)
    requires forall e :: e in Entries(parent, stage, [], t) ==> HasRow(c, e)
    ensures Rows(c, fs, parent, stage, Entries(parent, stage, [], t), m)
  {
    var es := Entries(parent, stage, [], t);
    hide Absent, Entries, InPlace;
    forall j | m <= j < |es| && forall i :: j <= i < |es| ==> InPlace(fs, es[i])
      ensures Reachable(c, fs, parent, stage, es[j].path)
    {
      PathsResolve(fs, parent, stage, [], t, j);
      var p := es[j].path;
      assert es[j] in es && p[0..] == p;
    }
    if m < |es| { assert es[m] in es; }
  }

  ghost predicate Underway(c: Ctx, fs: Fs, parent: Key, stage: Name, es: seq<Entry>) {
    exists m :: 0 <= m <= |es| && Rows(c, fs, parent, stage, es, m)
  }

  lemma RowsMoment(c: Ctx, fs: Fs, parent: Key, stage: Name, t: Tree)
    requires Partway(c, fs, Entries(parent, stage, [], t))
    requires forall e :: e in Entries(parent, stage, [], t) ==> HasRow(c, e)
    ensures Underway(c, fs, parent, stage, Entries(parent, stage, [], t))
  {
    var m :| 0 <= m <= |Entries(parent, stage, [], t)| && At(c, fs, Entries(parent, stage, [], t), m);
    RowsAt(c, fs, parent, stage, t, m);
  }

  /** `Underway` holds of the file system before and after every step of the run from `s0` to `s`. */
  ghost predicate AtEveryMoment(c: Ctx, s0: State, s: State, parent: Key, stage: Name, es: seq<Entry>) {
    && s0.trace <= s.trace
    && forall i :: |s0.trace| <= i <= |s.trace| ==> Underway(c, Safety.Before(s0, s, i), parent, stage, es)
  }

  lemma RowsMoments(c: Ctx, s0: State, s: State, parent: Key, stage: Name, t: Tree)
    requires Moments(c, s0, s, Entries(parent, stage, [], t), parent, {stage}, Dirs(t))
    requires forall e :: e in Entries(parent, stage, [], t) ==> HasRow(c, e)
    ensures AtEveryMoment(c, s0, s, parent, stage, Entries(parent, stage, [], t))
  {
    var es := Entries(parent, stage, [], t);
    hide Entries, Underway, Partway, Shrunk, Dirs;
    forall i | |s0.trace| <= i <= |s.trace| ensures Underway(c, Safety.Before(s0, s, i), parent, stage, es)
    {
      RowsMoment(c, Safety.Before(s0, s, i), parent, stage, t);
    }
  }

  lemma StartReady(c: Ctx, fs: Fs, facts: map<Key, Facts>, t: Tree, groups: map<Key, LinkRemoval>, parent: Key,
                   stage: Name)
    requires var s0 := Theorems.Start(fs, [], Listings(t), groups);
      && Fits(c, s0, facts, [], t, true) && Holds(s0, parent, stage, t.key)
      && parent !in Dirs(t) && parent != c.recovery && c.recovery !in Dirs(t) && parent.device == c.recovery.device
      && c.recovery in fs.dirs && fs.dirs[c.recovery] == map[]
    requires Theorems.ClosedTree(fs, t) && Theorems.GroupsOf(groups, fs, t)
    ensures Ready(c, Theorems.Start(fs, [], Listings(t), groups), facts, parent, stage, [], t, true, [])
  {
    var s0 := Theorems.Start(fs, [], Listings(t), groups);
    assert Leaves(t) + [] == Leaves(t);
    TreeKeys(c, s0, facts, [], t, true);
    assert Explained(s0, Leaves(t));
  }

  /**
   * The undisturbed removal of a closed reviewed tree, moment by moment: its
   * entries, one for each row, go one after another, each row's path leads to
   * the row's object until that entry is taken, and a leaf that was taken but
   * is not unlinked yet is alone in the recovery directory under its row's
   * name.
   */
  lemma EveryMoment(c: Ctx, fs: Fs, facts: map<Key, Facts>, t: Tree, groups: map<Key, LinkRemoval>, parent: Key,
                    stage: Name)
    requires var s0 := Theorems.Start(fs, [], Listings(t), groups);
      && Fits(c, s0, facts, [], t, true) && Holds(s0, parent, stage, t.key)
      && parent !in Dirs(t) && parent != c.recovery && c.recovery !in Dirs(t) && parent.device == c.recovery.device
      && c.recovery in fs.dirs && fs.dirs[c.recovery] == map[]
    requires Theorems.ClosedTree(fs, t) && Theorems.GroupsOf(groups, fs, t) && c.manifest.Keys == Theorems.Paths([], t)
    ensures var es := Entries(parent, stage, [], t);
      PathsOf(es) == c.manifest.Keys && |es| == |c.manifest|
    ensures var s0 := Theorems.Start(fs, [], Listings(t), groups);
      AtEveryMoment(c, s0, Remove(c, s0, parent, stage, [], true).0, parent, stage, Entries(parent, stage, [], t))
  {
    var s0 := Theorems.Start(fs, [], Listings(t), groups);
    StartReady(c, fs, facts, t, groups, parent, stage);
    assert Listings(t) + [] == Listings(t) && |c.manifest| == |c.manifest.Keys|;
    assert Runs.GroupsSound(s0.groups);
    hide *;
    EntriesPaths(parent, stage, [], t);
    Theorems.PathsCount(c, s0, facts, [], t, true);
    RowsOfEntries(c, s0, facts, parent, stage, [], t, true);
    TreeMoments(c, s0, facts, parent, stage, [], t, true, [], []);
    RowsMoments(c, s0, Remove(c, s0, parent, stage, [], true).0, parent, stage, t);
  }
}
