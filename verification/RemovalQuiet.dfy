/**
 * Completeness: when nobody interferes, a reviewed tree of any shape, with any
 * hard-link pattern and any iteration order, is removed entirely, and the
 * counters say exactly what was removed.
 */
module RemovalQuiet {
  import opened Prelude
  import opened Metadata
  import opened FileSystem
  import opened Removal
  import opened RemovalRuns

  /** A reviewed item; children come in the order directory iteration yields them. */
  datatype Tree = Leaf(key: Key) | Dir(key: Key, children: Forest)
  datatype Forest = Nil | Cons(name: Name, head: Tree, tail: Forest)

  /** What matters about a leaf inode beside its identity. */
  datatype Facts = Facts(regular: bool, private: Option<nat>)

  function Names(f: Forest): seq<Name> {
    match f case Nil => [] case Cons(n, h, t) => [n] + Names(t)
  }

  function NameSet(f: Forest): set<Name> {
    match f case Nil => {} case Cons(n, h, t) => {n} + NameSet(t)
  }

  function Listings(t: Tree): seq<seq<Name>> {
    match t case Leaf(_) => [] case Dir(_, f) => [Names(f)] + ForestListings(f)
  }

  function ForestListings(f: Forest): seq<seq<Name>> {
    match f case Nil => [] case Cons(n, h, t) => Listings(h) + ForestListings(t)
  }

  /** The leaf inodes, one occurrence per name, in removal order. */
  function Leaves(t: Tree): seq<Key> {
    match t case Leaf(k) => [k] case Dir(_, f) => ForestLeaves(f)
  }

  function ForestLeaves(f: Forest): seq<Key> {
    match f case Nil => [] case Cons(n, h, t) => Leaves(h) + ForestLeaves(t)
  }

  function Dirs(t: Tree): set<Key> {
    match t case Leaf(_) => {} case Dir(k, f) => {k} + ForestDirs(f)
  }

  function ForestDirs(f: Forest): set<Key> {
    match f case Nil => {} case Cons(n, h, t) => Dirs(h) + ForestDirs(t)
  }

  /** The number of entries, directories included. */
  function Size(t: Tree): nat {
    match t case Leaf(_) => 1 case Dir(_, f) => 1 + ForestSize(f)
  }

  function ForestSize(f: Forest): nat {
    match f case Nil => 0 case Cons(n, h, t) => Size(h) + ForestSize(t)
  }

  function Count(ks: seq<Key>, k: Key): nat {
    if ks == [] then 0 else (if ks[0] == k then 1 else 0) + Count(ks[1..], k)
  }

  function RegularNames(facts: map<Key, Facts>, ks: seq<Key>): nat {
    if ks == [] then 0
    else (if ks[0] in facts && facts[ks[0]].regular then 1 else 0) + RegularNames(facts, ks[1..])
  }

  /** Is the first of `ks` the last link of a regular inode, if `rest` comes after `ks`? */
  predicate LastLink(facts: map<Key, Facts>, ks: seq<Key>, rest: seq<Key>)
    requires ks != []
  {
    ks[0] !in ks[1..] + rest && ks[0] in facts && facts[ks[0]].regular
  }

  /** Private bytes of the distinct regular inodes of `ks` that do not recur in `rest`. */
  function PrivateSum(facts: map<Key, Facts>, ks: seq<Key>, rest: seq<Key>): nat {
    if ks == [] then 0
    else (if LastLink(facts, ks, rest) && facts[ks[0]].private.Some? then facts[ks[0]].private.value else 0)
         + PrivateSum(facts, ks[1..], rest)
  }

  predicate PrivateKnown(facts: map<Key, Facts>, ks: seq<Key>, rest: seq<Key>) {
    ks == [] || ((LastLink(facts, ks, rest) ==> facts[ks[0]].private.Some?) && PrivateKnown(facts, ks[1..], rest))
  }

  // ---- The reviewed state -----------------------------------------------

  function FactsOf(i: Inode, grouped: bool): Facts {
    Facts(Kind(i.mode) == KIND_REGULAR, if grouped || !i.direct.Bytes? then i.byFd else Some(i.direct.bytes))
  }

  /** The inode at a leaf still is what the review and the group state say. */
  predicate LeafFits(c: Ctx, s: State, facts: map<Key, Facts>, relative: Path, k: Key, exact: bool) {
    && relative in c.manifest
    && k in s.fs.inodes && k !in s.fs.dirs && k in facts
    && var i := s.fs.inodes[k];
       var m := MetaOf(k, i);
    && (m.IsFile() || m.IsSymlink()) && !m.IsDataless() && m.uid == c.euid && i.direct != Failed
    && facts[k] == FactsOf(i, k in s.groups)
    && if k in s.groups then m.IsFile() && c.manifest[relative] == s.groups[k].reviewed && s.groups[k].current == m
       else
         && m.links == 1
         && if exact then c.manifest[relative] == m.identity else SameObject(c.manifest[relative], m.identity)
  }

  predicate DirFits(c: Ctx, s: State, relative: Path, k: Key, exact: bool) {
    && relative in c.manifest
    && k in s.fs.inodes && k in s.fs.dirs && k.device == c.recovery.device
    && var m := MetaOf(k, s.fs.inodes[k]);
       m.IsDir() && if exact then c.manifest[relative] == m.identity else SameObject(c.manifest[relative], m.identity)
  }

  predicate Fits(c: Ctx, s: State, facts: map<Key, Facts>, relative: Path, t: Tree, root: bool)
    decreases t
  {
    match t
    case Leaf(k) => LeafFits(c, s, facts, relative, k, !root)
    case Dir(k, f) =>
      && DirFits(c, s, relative, k, !root)
      && s.fs.dirs[k].Keys == NameSet(f)
      && k !in ForestDirs(f)
      && ForestFits(c, s, facts, relative, k, f)
  }

  predicate ForestFits(c: Ctx, s: State, facts: map<Key, Facts>, relative: Path, dir: Key, f: Forest)
    decreases f
  {
    match f
    case Nil => true
    case Cons(n, h, t) =>
      && n !in NameSet(t) && Dirs(h) !! ForestDirs(t)
      && dir in s.fs.dirs && n in s.fs.dirs[dir] && s.fs.dirs[dir][n] == h.key
      && Fits(c, s, facts, relative + [n], h, false)
      && ForestFits(c, s, facts, relative, dir, t)
  }

  /** Link counts are explained: `ks` lists every name the reviewed inodes still have. */
  predicate Explained(s: State, ks: seq<Key>) {
    forall k :: k in ks ==> Count(ks, k) == if k in s.groups then s.groups[k].current.links else 1
  }

  /** Nobody interferes and the recovery directory is ready. */
  predicate Calm(c: Ctx, s: State) {
    s.turns == [] && c.recovery in s.fs.dirs && s.fs.dirs[c.recovery] == map[]
    && s.removed.private <= MAX_U64 && s.completed <= MAX_U64
  }

  // ---- One leaf ---------------------------------------------------------

  /** Name `name` is gone from `parent`, and the state of leaf inode `k` followed. */
  predicate LeafPlaced(c: Ctx, s: State, s': State, parent: Key, name: Name, k: Key)
    requires k in s.fs.inodes && parent in s.fs.dirs
  {
    && Calm(c, s') && s'.listings == s.listings
    && s'.fs.dirs == s.fs.dirs[parent := s.fs.dirs[parent] - {name}]
    && s'.fs.inodes.Keys == s.fs.inodes.Keys
    && (forall j :: j in s.fs.inodes && j != k && j != parent && j != c.recovery ==> s'.fs.inodes[j] == s.fs.inodes[j])
    && (parent in s.fs.inodes ==> s'.fs.inodes[parent].mode == s.fs.inodes[parent].mode)
    && (c.recovery in s.fs.inodes ==> s'.fs.inodes[c.recovery].mode == s.fs.inodes[c.recovery].mode)
    && s'.groups.Keys == s.groups.Keys
    && (forall j :: j in s.groups && j != k ==> s'.groups[j] == s.groups[j])
    && (k in s.groups ==>
          && s'.groups[k].reviewed == s.groups[k].reviewed
          && s'.groups[k].current == MetaOf(k, s'.fs.inodes[k])
          && s'.fs.inodes[k].(changed := s.fs.inodes[k].changed, links := s.fs.inodes[k].links) == s.fs.inodes[k]
          && s.groups[k].current.links == s'.groups[k].current.links + 1)
  }

  /** The counters moved by the leaves `ks`, `rest` still to come, and by `entries` progress steps. */
  predicate Booked(s: State, s': State, facts: map<Key, Facts>, ks: seq<Key>, rest: seq<Key>, entries: nat) {
    && s'.removed.files == s.removed.files + RegularNames(facts, ks)
    && s'.removed.private == SatAdd(s.removed.private, PrivateSum(facts, ks, rest))
    && s'.removed.privateKnown == (s.removed.privateKnown && PrivateKnown(facts, ks, rest))
    && s'.completed == SatAdd(s.completed, entries)
  }

  /** The two file systems a quiet leaf removal passes through. */
  lemma LeafFs(c: Ctx, fs: Fs, parent: Key, name: Name, captured: Name, k: Key)
    requires c.recovery in fs.dirs && fs.dirs[c.recovery] == map[]
    requires Named(fs, parent, name) && fs.dirs[parent][name] == k && k !in fs.dirs
    requires parent != c.recovery && parent.device == c.recovery.device
    ensures CanRename(fs, parent, name, c.recovery, captured)
    ensures var fs1 := Rename(fs, parent, name, c.recovery, captured);
      && Named(fs1, c.recovery, captured) && fs1.dirs[c.recovery][captured] == k && k !in fs1.dirs
      && fs1.inodes[k] == fs.inodes[k].(changed := fs.clock)
      && CanUnlink(fs1, c.recovery, captured)
      && var fs2 := Unlink(fs1, c.recovery, captured);
         && fs2.dirs == fs.dirs[parent := fs.dirs[parent] - {name}]
         && fs2.inodes.Keys == fs.inodes.Keys
         && (forall j :: j in fs.inodes && j != k && j != parent && j != c.recovery ==> fs2.inodes[j] == fs.inodes[j])
         && (parent in fs.inodes ==> fs2.inodes[parent].mode == fs.inodes[parent].mode)
         && (c.recovery in fs.inodes ==> fs2.inodes[c.recovery].mode == fs.inodes[c.recovery].mode)
         && fs2.inodes[k] == fs.inodes[k].(changed := fs1.clock, links := SatSub(fs.inodes[k].links, 1))
  {
    var fs1 := Rename(fs, parent, name, c.recovery, captured);
    assert fs1.dirs[c.recovery] == map[captured := k];
    var fs2 := Unlink(fs1, c.recovery, captured);
    assert fs2.dirs[c.recovery] == map[];
    assert fs2.dirs == fs.dirs[parent := fs.dirs[parent] - {name}];
  }

  lemma LeafInspected(c: Ctx, s: State, captured: Name, expected: EntryMeta, linked: bool, k: Key)
    requires s.turns == [] && Named(s.fs, c.recovery, captured) && s.fs.dirs[c.recovery][captured] == k
    requires var i := s.fs.inodes[k]; var m := MetaOf(k, i);
      && SameLinkTransition(expected, m, expected.links) && (m.IsFile() || m.IsSymlink())
      && m.uid == c.euid && !m.IsDataless() && i.direct != Failed && (!linked ==> m.links == 1)
    ensures var i := s.fs.inodes[k]; var m := MetaOf(k, i);
      var (s', checked) := Inspect(c, s, captured, expected, linked);
      && s' == s && checked.Some? && checked.value.current == m
      && (m.IsFile() && m.links == 1 ==> checked.value.private == FactsOf(i, linked).private)
  {
  }

  /** Where a quiet `remove_leaf` ends up. */
  function QuietLeaf(c: Ctx, s: State, relative: Path, parent: Key, name: Name, k: Key): State
    requires Calm(c, s) && Named(s.fs, parent, name) && s.fs.dirs[parent][name] == k && k !in s.fs.dirs
    requires parent != c.recovery && parent.device == c.recovery.device
  {
    var captured := LeafName(c.operation, relative);
    LeafFs(c, s.fs, parent, name, captured, k);
    var s1 := Put(s, Rename(s.fs, parent, name, c.recovery, captured));
    var checked := Checked(MetaOf(k, s1.fs.inodes[k]), FactsOf(s1.fs.inodes[k], k in s.groups).private);
    var s2 := CommitUnlink(c, s1, captured, relative, checked.current);
    var followed :=
      if k in s.groups then s2.groups[k := s2.groups[k].(current := MetaOf(k, s2.fs.inodes[k]))] else s2.groups;
    Counted(s2.(groups := followed), checked)
  }

  lemma LeafReaches(c: Ctx, s: State, facts: map<Key, Facts>, parent: Key, name: Name, relative: Path, k: Key)
    requires Calm(c, s) && LeafFits(c, s, facts, relative, k, false) && (k in s.groups ==> s.fs.inodes[k].links >= 1)
    requires Named(s.fs, parent, name) && s.fs.dirs[parent][name] == k
    requires parent != c.recovery && parent.device == c.recovery.device
    ensures RemoveLeaf(c, s, parent, name, relative, MetaOf(k, s.fs.inodes[k]), k in s.groups)
         == (QuietLeaf(c, s, relative, parent, name, k), Fine)
  {
    var captured := LeafName(c.operation, relative);
    var m := MetaOf(k, s.fs.inodes[k]);
    var linked := k in s.groups;
    LeafFs(c, s.fs, parent, name, captured, k);
    var s1 := Put(s, Rename(s.fs, parent, name, c.recovery, captured));
    assert Capture(c, s, parent, name, captured, m, linked) == (s1, true);
    LeafInspected(c, s1, captured, m, linked, k);
    var (s1', found) := Inspect(c, s1, captured, m, linked);
    var current := found.value.current;
    var s2 := CommitUnlink(c, s1, captured, relative, current);
    hide Inspect, Capture, Rename, Unlink, CanRename;
    assert Finish(c, s1, captured, relative, found.value, linked) == Settle(c, s2, found.value, linked);
    assert Settle(c, s2, found.value, linked).1 == Complete;
  }

  lemma LeafCounts(c: Ctx, s: State, facts: map<Key, Facts>, parent: Key, name: Name, relative: Path, k: Key,
                   rest: seq<Key>)
    requires Calm(c, s) && LeafFits(c, s, facts, relative, k, false)
    requires Named(s.fs, parent, name) && s.fs.dirs[parent][name] == k
    requires parent != c.recovery && parent.device == c.recovery.device
    requires Explained(s, [k] + rest)
    ensures Booked(s, QuietLeaf(c, s, relative, parent, name, k), facts, [k], rest, 1)
  {
    LeafFs(c, s.fs, parent, name, LeafName(c.operation, relative), k);
    assert Count([k] + rest, k) == 1 + Count(rest, k) by { assert ([k] + rest)[1..] == rest; }
    assert [k][1..] + rest == rest;
    assert k in [k] + rest;
    CountIn(rest, k);
    assert PrivateSum(facts, [k][1..], rest) == 0 && RegularNames(facts, [k][1..]) == 0;
  }

  lemma LeafPlaces(c: Ctx, s: State, facts: map<Key, Facts>, parent: Key, name: Name, relative: Path, k: Key)
    requires Calm(c, s) && LeafFits(c, s, facts, relative, k, false) && (k in s.groups ==> s.fs.inodes[k].links >= 1)
    requires Named(s.fs, parent, name) && s.fs.dirs[parent][name] == k
    requires parent != c.recovery && parent.device == c.recovery.device
    ensures LeafPlaced(c, s, QuietLeaf(c, s, relative, parent, name, k), parent, name, k)
  {
    LeafFs(c, s.fs, parent, name, LeafName(c.operation, relative), k);
    hide Rename, Unlink, CanRename;
  }

  lemma LeafQuiet(c: Ctx, s: State, facts: map<Key, Facts>, parent: Key, name: Name, relative: Path, k: Key,
                  rest: seq<Key>)
    requires Calm(c, s) && LeafFits(c, s, facts, relative, k, false)
    requires Named(s.fs, parent, name) && s.fs.dirs[parent][name] == k
    requires parent != c.recovery && parent.device == c.recovery.device
    requires Explained(s, [k] + rest)
    ensures var (s', v) := RemoveLeaf(c, s, parent, name, relative, MetaOf(k, s.fs.inodes[k]), k in s.groups);
      v == Fine && LeafPlaced(c, s, s', parent, name, k) && Booked(s, s', facts, [k], rest, 1)
  {
    assert k in [k] + rest;
    CountIn([k] + rest, k);
    LeafReaches(c, s, facts, parent, name, relative, k);
    LeafCounts(c, s, facts, parent, name, relative, k, rest);
    LeafPlaces(c, s, facts, parent, name, relative, k);
    hide *;
  }

  lemma {:induction false} CountIn(ks: seq<Key>, k: Key)
    ensures k in ks <==> Count(ks, k) > 0
  {
    if ks != [] { CountIn(ks[1..], k); }
  }

  // ---- Composing removals -----------------------------------------------

  lemma {:induction false} CountAppend(a: seq<Key>, b: seq<Key>, k: Key)
    ensures Count(a + b, k) == Count(a, k) + Count(b, k)
  {
    if a == [] { assert a + b == b; }
    else { assert (a + b)[1..] == a[1..] + b; CountAppend(a[1..], b, k); }
  }

  lemma {:induction false} SumsAppend(facts: map<Key, Facts>, a: seq<Key>, b: seq<Key>, rest: seq<Key>)
    ensures RegularNames(facts, a + b) == RegularNames(facts, a) + RegularNames(facts, b)
    ensures PrivateSum(facts, a + b, rest) == PrivateSum(facts, a, b + rest) + PrivateSum(facts, b, rest)
    ensures PrivateKnown(facts, a + b, rest) == (PrivateKnown(facts, a, b + rest) && PrivateKnown(facts, b, rest))
  {
    if a == [] { assert a + b == b; }
    else {
      assert (a + b)[1..] == a[1..] + b;
      assert (a[1..] + b) + rest == a[1..] + (b + rest);
      SumsAppend(facts, a[1..], b, rest);
    }
  }

  lemma BookedTrans(s0: State, s1: State, s2: State, facts: map<Key, Facts>, a: seq<Key>, b: seq<Key>, rest: seq<Key>,
                    m: nat, n: nat)
    requires Booked(s0, s1, facts, a, b + rest, m) && Booked(s1, s2, facts, b, rest, n)
    ensures Booked(s0, s2, facts, a + b, rest, m + n)
  {
    SumsAppend(facts, a, b, rest);
  }

  /**
   * From `s` to `s'` the names `names` left directory `at`, the directories
   * `dirs` and the leaf names `ks` are gone, and nothing else moved.
   */
  predicate Cleared(c: Ctx, s: State, s': State, at: Key, names: set<Name>, dirs: set<Key>, ks: seq<Key>) {
    && Calm(c, s')
    && s'.fs.dirs.Keys == s.fs.dirs.Keys - dirs
    && s'.fs.inodes.Keys == s.fs.inodes.Keys - dirs
    && at in s.fs.dirs && at in s'.fs.dirs && s'.fs.dirs[at] == s.fs.dirs[at] - names
    && (forall d :: d in s'.fs.dirs && d != at ==> s'.fs.dirs[d] == s.fs.dirs[d])
    && (forall j :: j in s'.fs.inodes && j !in ks && j != at && j != c.recovery ==> s'.fs.inodes[j] == s.fs.inodes[j])
    && (at in s'.fs.inodes ==> s'.fs.inodes[at].mode == s.fs.inodes[at].mode)
    && (c.recovery in s'.fs.inodes ==> s'.fs.inodes[c.recovery].mode == s.fs.inodes[c.recovery].mode)
    && s'.groups.Keys == s.groups.Keys
    && (forall j :: j in s.groups && j !in ks ==> s'.groups[j] == s.groups[j])
    && (forall j :: j in s.groups && j in ks ==> GroupFollows(s, s', j, Count(ks, j)))
  }

  predicate GroupFollows(s: State, s': State, k: Key, removed: nat)
    requires k in s.groups && s'.groups.Keys == s.groups.Keys
  {
    && k in s.fs.inodes && k in s'.fs.inodes
    && s'.groups[k].reviewed == s.groups[k].reviewed
    && s'.groups[k].current == MetaOf(k, s'.fs.inodes[k])
    && s'.fs.inodes[k].(changed := s.fs.inodes[k].changed, links := s.fs.inodes[k].links) == s.fs.inodes[k]
    && s.groups[k].current.links == s'.groups[k].current.links + removed
  }

  lemma ClearedTrans(c: Ctx, s0: State, s1: State, s2: State, at: Key, n1: set<Name>, n2: set<Name>, d1: set<Key>,
                     d2: set<Key>, a: seq<Key>, b: seq<Key>)
    requires Cleared(c, s0, s1, at, n1, d1, a) && Cleared(c, s1, s2, at, n2, d2, b)
    requires forall k :: k in a + b && k in s0.groups ==> k !in d1 && k !in d2 && k != at && k != c.recovery
    ensures Cleared(c, s0, s2, at, n1 + n2, d1 + d2, a + b)
  {
    assert s2.fs.dirs[at] == s0.fs.dirs[at] - (n1 + n2);
    forall j | j in s0.groups && j in a + b
      ensures GroupFollows(s0, s2, j, Count(a + b, j))
    {
      CountAppend(a, b, j);
      CountIn(a, j);
      CountIn(b, j);
    }
  }

  /** The sibling tree `t` is untouched by a removal that shares at most grouped leaves with it. */
  predicate Beside(c: Ctx, s: State, at: Key, dirs: set<Key>, ks: seq<Key>, mine: set<Key>, leaves: seq<Key>) {
    && mine !! dirs && at !in mine && c.recovery !in mine
    && at in s.fs.dirs
    && (forall k :: k in leaves && k in ks ==> k in s.groups)
    && (forall k :: k in dirs ==> k in s.fs.dirs)
    && (forall k :: k in ks ==> k !in s.fs.dirs)
  }

  lemma {:induction false} FitsFrame(c: Ctx, s: State, s': State, facts: map<Key, Facts>, at: Key, names: set<Name>,
                                     dirs: set<Key>, ks: seq<Key>, relative: Path, t: Tree)
    requires Calm(c, s) && Cleared(c, s, s', at, names, dirs, ks)
    requires Fits(c, s, facts, relative, t, false) && Beside(c, s, at, dirs, ks, Dirs(t), Leaves(t))
    ensures Fits(c, s', facts, relative, t, false)
    decreases t
  {
    match t
    case Leaf(k) =>
      assert k in Leaves(t);
    case Dir(k, f) =>
      assert k in Dirs(t);
      ForestFrame(c, s, s', facts, at, names, dirs, ks, relative, k, f);
  }

  lemma {:induction false} ForestFrame(c: Ctx, s: State, s': State, facts: map<Key, Facts>, at: Key, names: set<Name>,
                                       dirs: set<Key>, ks: seq<Key>, relative: Path, dir: Key, f: Forest)
    requires Calm(c, s) && Cleared(c, s, s', at, names, dirs, ks)
    requires ForestFits(c, s, facts, relative, dir, f) && Beside(c, s, at, dirs, ks, ForestDirs(f), ForestLeaves(f))
    requires dir !in dirs && dir != c.recovery && (dir == at ==> names !! NameSet(f))
    ensures ForestFits(c, s', facts, relative, dir, f)
    decreases f
  {
    match f
    case Nil =>
    case Cons(n, h, t) =>
      FitsFrame(c, s, s', facts, at, names, dirs, ks, relative + [n], h);
      ForestFrame(c, s, s', facts, at, names, dirs, ks, relative, dir, t);
  }

  lemma ExplainedAfter(c: Ctx, s: State, s': State, at: Key, names: set<Name>, dirs: set<Key>, ks: seq<Key>,
                       rest: seq<Key>)
    requires Explained(s, ks + rest) && Cleared(c, s, s', at, names, dirs, ks)
    ensures Explained(s', rest)
    ensures forall k :: k in rest && k in ks ==> k in s.groups
  {
    forall k | k in rest
      ensures Count(rest, k) == (if k in s'.groups then s'.groups[k].current.links else 1)
      ensures k in ks ==> k in s.groups
    {
      assert k in ks + rest;
      CountAppend(ks, rest, k);
      CountIn(ks, k);
      CountIn(rest, k);
    }
  }

  /** The emptied directory `k` is still there, named in `parent`, and nothing else about them moved. */
  lemma Emptied(c: Ctx, s: State, s1: State, parent: Key, name: Name, k: Key, f: Forest)
    requires Calm(c, s) && Cleared(c, s, s1, k, NameSet(f), ForestDirs(f), ForestLeaves(f))
    requires Holds(s, parent, name, k) && k in s.fs.dirs && s.fs.dirs[k].Keys == NameSet(f)
    requires parent != k && parent !in ForestDirs(f) && k !in ForestDirs(f)
    ensures CanRemoveDir(s1.fs, parent, name) && s1.fs.dirs[parent] == s.fs.dirs[parent]
    ensures Holds(s1, parent, name, k) && s1.fs.inodes[k].mode == s.fs.inodes[k].mode
  {
    assert s1.fs.dirs[k] == map[];
  }

  predicate DirGone(fs: Fs, fs': Fs, dir: Key, name: Name, k: Key) {
    && fs'.dirs.Keys == fs.dirs.Keys - {k} && fs'.inodes.Keys == fs.inodes.Keys - {k}
    && dir in fs.dirs && dir in fs'.dirs && fs'.dirs[dir] == fs.dirs[dir] - {name}
    && (forall d :: d in fs'.dirs && d != dir ==> fs'.dirs[d] == fs.dirs[d])
    && (forall j :: j in fs'.inodes && j != dir ==> fs'.inodes[j] == fs.inodes[j])
    && (dir in fs'.inodes ==> fs'.inodes[dir].mode == fs.inodes[dir].mode)
  }

  lemma RemoveDirGone(fs: Fs, dir: Key, name: Name)
    requires CanRemoveDir(fs, dir, name)
    ensures DirGone(fs, RemoveDir(fs, dir, name), dir, name, fs.dirs[dir][name])
  {
  }

  lemma ClearedThenGone(c: Ctx, s: State, s1: State, s2: State, parent: Key, name: Name, k: Key, names: set<Name>,
                        dirs: set<Key>, ks: seq<Key>)
    requires Cleared(c, s, s1, k, names, dirs, ks) && DirGone(s1.fs, s2.fs, parent, name, k)
    requires s2 == s1.(fs := s2.fs, trace := s2.trace, completed := s2.completed) && s2.completed <= MAX_U64
    requires parent != k && parent != c.recovery && k != c.recovery && parent in s.fs.dirs
    requires forall j :: j in ks ==> j !in s.fs.dirs
    requires k in s.fs.dirs
    ensures Cleared(c, s, s2, parent, {name}, {k} + dirs, ks)
  {
    assert Calm(c, s2);
    assert s2.fs.dirs.Keys == s.fs.dirs.Keys - ({k} + dirs);
    assert s2.fs.inodes.Keys == s.fs.inodes.Keys - ({k} + dirs);
    assert s2.fs.dirs[parent] == s.fs.dirs[parent] - {name};
    forall j | j in s.groups && j in ks
      ensures GroupFollows(s, s2, j, Count(ks, j))
    {
      assert GroupFollows(s, s1, j, Count(ks, j));
      assert j !in s.fs.dirs;
    }
  }

  /** Removing the emptied directory `k` from `parent`. */
  lemma CloseQuiet(c: Ctx, s: State, s1: State, parent: Key, name: Name, k: Key, f: Forest)
    requires Calm(c, s) && Cleared(c, s, s1, k, NameSet(f), ForestDirs(f), ForestLeaves(f))
    requires Holds(s, parent, name, k) && k in s.fs.dirs && s.fs.dirs[k].Keys == NameSet(f)
    requires parent != k && parent != c.recovery && k != c.recovery && parent !in ForestDirs(f) && k !in ForestDirs(f)
    requires forall j :: j in ForestLeaves(f) ==> j !in s.fs.dirs
    ensures CanRemoveDir(s1.fs, parent, name)
    ensures var s2 := Put(s1, RemoveDir(s1.fs, parent, name)).(completed := SatAdd(s1.completed, 1));
      Cleared(c, s, s2, parent, {name}, {k} + ForestDirs(f), ForestLeaves(f))
  {
    Emptied(c, s, s1, parent, name, k, f);
    RemoveDirGone(s1.fs, parent, name);
    var s2 := Put(s1, RemoveDir(s1.fs, parent, name)).(completed := SatAdd(s1.completed, 1));
    hide CanRemoveDir, RemoveDir, Cleared, DirGone;
    ClearedThenGone(c, s, s1, s2, parent, name, k, NameSet(f), ForestDirs(f), ForestLeaves(f));
  }

  predicate Holds(s: State, dir: Key, name: Name, k: Key) {
    Named(s.fs, dir, name) && s.fs.dirs[dir][name] == k
  }

  // ---- The whole tree ---------------------------------------------------

  predicate Ready(c: Ctx, s: State, facts: map<Key, Facts>, parent: Key, name: Name, relative: Path, t: Tree,
                  root: bool, rest: seq<Key>) {
    && Calm(c, s)
    && Fits(c, s, facts, relative, t, root)
    && Holds(s, parent, name, t.key)
    && parent !in Dirs(t) && parent != c.recovery && c.recovery !in Dirs(t) && parent.device == c.recovery.device
    && Explained(s, Leaves(t) + rest)
  }

  predicate ForestReady(c: Ctx, s: State, facts: map<Key, Facts>, dir: Key, relative: Path, f: Forest, rest: seq<Key>) {
    && Calm(c, s) && dir in s.fs.dirs
    && ForestFits(c, s, facts, relative, dir, f)
    && dir !in ForestDirs(f) && dir != c.recovery && c.recovery !in ForestDirs(f) && dir.device == c.recovery.device
    && Explained(s, ForestLeaves(f) + rest)
  }

  lemma {:induction false} TreeKeys(c: Ctx, s: State, facts: map<Key, Facts>, relative: Path, t: Tree, root: bool)
    requires Fits(c, s, facts, relative, t, root)
    ensures forall k :: k in Leaves(t) ==> k in s.fs.inodes && k !in s.fs.dirs
    ensures forall d :: d in Dirs(t) ==> d in s.fs.dirs
    decreases t
  {
    match t case Leaf(_) => case Dir(k, f) => ForestKeys(c, s, facts, relative, k, f);
  }

  lemma {:induction false} ForestKeys(c: Ctx, s: State, facts: map<Key, Facts>, relative: Path, dir: Key, f: Forest)
    requires ForestFits(c, s, facts, relative, dir, f)
    ensures forall k :: k in ForestLeaves(f) ==> k in s.fs.inodes && k !in s.fs.dirs
    ensures forall d :: d in ForestDirs(f) ==> d in s.fs.dirs
    decreases f
  {
    match f
    case Nil =>
    case Cons(n, h, t) =>
      TreeKeys(c, s, facts, relative + [n], h, false);
      ForestKeys(c, s, facts, relative, dir, t);
  }

  /** The quiet outcome for `t`: the name and the whole tree are gone, and the books say so. */
  predicate TreeGone(c: Ctx, s: State, s': State, facts: map<Key, Facts>, parent: Key, name: Name, t: Tree,
                     rest: seq<Key>) {
    && Cleared(c, s, s', parent, {name}, Dirs(t), Leaves(t))
    && Booked(s, s', facts, Leaves(t), rest, Size(t))
  }

  lemma PlacedClears(c: Ctx, s: State, s': State, parent: Key, name: Name, k: Key)
    requires k in s.fs.inodes && k !in s.fs.dirs && parent in s.fs.dirs && LeafPlaced(c, s, s', parent, name, k)
    ensures Cleared(c, s, s', parent, {name}, {}, [k])
  {
    assert Count([k], k) == 1;
  }

  lemma EntersLeaf(c: Ctx, s: State, facts: map<Key, Facts>, parent: Key, name: Name, relative: Path, k: Key,
                   root: bool, rest: seq<Key>)
    requires Ready(c, s, facts, parent, name, relative, Leaf(k), root, rest)
    ensures Remove(c, s, parent, name, relative, root)
         == RemoveLeaf(c, s, parent, name, relative, MetaOf(k, s.fs.inodes[k]), k in s.groups)
  {
    assert k in [k] + rest;
    CountIn([k] + rest, k);
    hide RemoveLeaf;
  }

  lemma LeafTree(c: Ctx, s: State, facts: map<Key, Facts>, parent: Key, name: Name, relative: Path, k: Key, root: bool,
                 rest: seq<Key>)
    requires Ready(c, s, facts, parent, name, relative, Leaf(k), root, rest)
    ensures var (s', v) := Remove(c, s, parent, name, relative, root);
      v == Fine && s'.listings == s.listings && TreeGone(c, s, s', facts, parent, name, Leaf(k), rest)
  {
    EntersLeaf(c, s, facts, parent, name, relative, k, root, rest);
    LeafQuiet(c, s, facts, parent, name, relative, k, rest);
    var (s', v) := RemoveLeaf(c, s, parent, name, relative, MetaOf(k, s.fs.inodes[k]), k in s.groups);
    hide RemoveLeaf, Remove;
    PlacedClears(c, s, s', parent, name, k);
    hide Cleared, Booked;
  }

  /** Entering a directory: the walk reaches the listing of `k` with nothing changed. */
  lemma EntersDir(c: Ctx, s: State, facts: map<Key, Facts>, parent: Key, name: Name, relative: Path, k: Key, f: Forest,
                  root: bool, rest: seq<Key>)
    requires Ready(c, s, facts, parent, name, relative, Dir(k, f), root, rest) && s.listings != []
    ensures relative in c.manifest
    ensures Remove(c, s, parent, name, relative, root)
         == var (s1, v) := RemoveEach(c, s.(listings := s.listings[1..]), k, s.listings[0], relative);
            if v.Stopped? then (s1, v) else CloseDirectory(c, s1, parent, name, c.manifest[relative])
    ensures SameObject(c.manifest[relative], MetaOf(k, s.fs.inodes[k]).identity)
  {
    hide RemoveEach, CloseDirectory, RemoveLeaf;
  }

  lemma ClosesDir(c: Ctx, s: State, parent: Key, name: Name, k: Key, expected: Identity)
    requires s.turns == [] && Holds(s, parent, name, k) && CanRemoveDir(s.fs, parent, name)
    requires SameObject(expected, MetaOf(k, s.fs.inodes[k]).identity)
    ensures CloseDirectory(c, s, parent, name, expected)
         == (Put(s, RemoveDir(s.fs, parent, name)).(completed := SatAdd(s.completed, 1)), Fine)
  {
  }

  /**
   * The completeness theorem.  Undisturbed, a reviewed tree is removed whole:
   * its names and directories are gone and nothing outside it moved, every
   * group is down by exactly the aliases in the tree, `files` counts the
   * regular names, `private` the distinct regular inodes whose last name is
   * here, and progress advanced once per entry.
   */
  lemma {:induction false} TreeQuiet(c: Ctx, s: State, facts: map<Key, Facts>, parent: Key, name: Name, relative: Path,
                                     t: Tree, root: bool, rest: seq<Key>, more: seq<seq<Name>>)
    requires Ready(c, s, facts, parent, name, relative, t, root, rest) && s.listings == Listings(t) + more
    ensures var (s', v) := Remove(c, s, parent, name, relative, root);
      v == Fine && s'.listings == more && TreeGone(c, s, s', facts, parent, name, t, rest)
    decreases t, 1
  {
    match t
    case Leaf(k) =>
      LeafTree(c, s, facts, parent, name, relative, k, root, rest);
      assert s.listings == more;
    case Dir(k, f) =>
      EntersDir(c, s, facts, parent, name, relative, k, f, root, rest);
      TreeKeys(c, s, facts, relative, t, root);
      var popped := s.(listings := s.listings[1..]);
      assert s.listings[0] == Names(f) && popped.listings == ForestListings(f) + more;
      PoppedReady(c, s, facts, relative, k, f, rest, popped);
      ForestQuiet(c, popped, facts, k, relative, f, rest, more);
      var (s1, v) := RemoveEach(c, popped, k, Names(f), relative);
      DirTree(c, s, popped, s1, facts, parent, name, relative, k, f, root, rest);
      hide Remove, RemoveEach, CloseDirectory, Ready, TreeGone;
  }

  lemma DirBooks(s: State, popped: State, s1: State, s2: State, facts: map<Key, Facts>, k: Key, f: Forest,
                 rest: seq<Key>)
    requires popped == s.(listings := popped.listings)
    requires Booked(popped, s1, facts, ForestLeaves(f), rest, ForestSize(f))
    requires s2.removed == s1.removed && s2.completed == SatAdd(s1.completed, 1)
    ensures Booked(s, s2, facts, Leaves(Dir(k, f)), rest, Size(Dir(k, f)))
  {
  }

  lemma DirTree(c: Ctx, s: State, popped: State, s1: State, facts: map<Key, Facts>, parent: Key, name: Name,
                relative: Path, k: Key, f: Forest, root: bool, rest: seq<Key>)
    requires Ready(c, s, facts, parent, name, relative, Dir(k, f), root, rest)
    requires popped == s.(listings := popped.listings)
    requires Cleared(c, popped, s1, k, NameSet(f), ForestDirs(f), ForestLeaves(f))
    requires Booked(popped, s1, facts, ForestLeaves(f), rest, ForestSize(f))
    ensures relative in c.manifest
    ensures var (s2, v) := CloseDirectory(c, s1, parent, name, c.manifest[relative]);
      v == Fine && s2.listings == s1.listings && TreeGone(c, s, s2, facts, parent, name, Dir(k, f), rest)
  {
    TreeKeys(c, s, facts, relative, Dir(k, f), root);
    hide CloseDirectory, RemoveDir, CanRemoveDir, Cleared, Booked, GroupFollows, Explained;
    CloseQuiet(c, popped, s1, parent, name, k, f);
    Emptied(c, popped, s1, parent, name, k, f);
    ClosesDir(c, s1, parent, name, k, c.manifest[relative]);
    var s2 := Put(s1, RemoveDir(s1.fs, parent, name)).(completed := SatAdd(s1.completed, 1));
    SameStart(c, s, popped, s2, parent, {name}, {k} + ForestDirs(f), ForestLeaves(f));
    DirBooks(s, popped, s1, s2, facts, k, f, rest);
  }

  lemma SameStart(c: Ctx, s: State, popped: State, s2: State, at: Key, names: set<Name>, dirs: set<Key>, ks: seq<Key>)
    requires popped == s.(listings := popped.listings) && Cleared(c, popped, s2, at, names, dirs, ks)
    ensures Cleared(c, s, s2, at, names, dirs, ks)
  {
    forall j | j in s.groups && j in ks
      ensures GroupFollows(s, s2, j, Count(ks, j))
    {
      assert GroupFollows(popped, s2, j, Count(ks, j));
    }
  }

  lemma PoppedReady(c: Ctx, s: State, facts: map<Key, Facts>, relative: Path, k: Key, f: Forest, rest: seq<Key>,
                    popped: State)
    requires popped == s.(listings := popped.listings)
    requires ForestReady(c, s, facts, k, relative, f, rest)
    ensures ForestReady(c, popped, facts, k, relative, f, rest)
  {
    ForestSame(c, s, popped, facts, relative, k, f);
  }

  lemma {:induction false} TreeSame(c: Ctx, s: State, s': State, facts: map<Key, Facts>, relative: Path, t: Tree,
                                    root: bool)
    requires s'.fs == s.fs && s'.groups == s.groups && Fits(c, s, facts, relative, t, root)
    ensures Fits(c, s', facts, relative, t, root)
    decreases t
  {
    match t case Leaf(_) => case Dir(k, f) => ForestSame(c, s, s', facts, relative, k, f);
  }

  lemma {:induction false} ForestSame(c: Ctx, s: State, s': State, facts: map<Key, Facts>, relative: Path, dir: Key,
                                      f: Forest)
    requires s'.fs == s.fs && s'.groups == s.groups && ForestFits(c, s, facts, relative, dir, f)
    ensures ForestFits(c, s', facts, relative, dir, f)
    decreases f
  {
    match f
    case Nil =>
    case Cons(n, h, t) =>
      TreeSame(c, s, s', facts, relative + [n], h, false);
      ForestSame(c, s, s', facts, relative, dir, t);
  }

  lemma EachUnfolds(c: Ctx, s: State, dir: Key, n: Name, names: seq<Name>, relative: Path)
    ensures RemoveEach(c, s, dir, [n] + names, relative)
         == var (s1, v) := Remove(c, s, dir, n, relative + [n], false);
            if v.Stopped? then (s1, v) else RemoveEach(c, s1, dir, names, relative)
  {
    hide Remove;
    assert ([n] + names)[1..] == names;
  }

  lemma {:induction false} ForestQuiet(c: Ctx, s: State, facts: map<Key, Facts>, dir: Key, relative: Path, f: Forest,
                                       rest: seq<Key>, more: seq<seq<Name>>)
    requires ForestReady(c, s, facts, dir, relative, f, rest) && s.listings == ForestListings(f) + more
    ensures var (s', v) := RemoveEach(c, s, dir, Names(f), relative);
      && v == Fine && s'.listings == more
      && Cleared(c, s, s', dir, NameSet(f), ForestDirs(f), ForestLeaves(f))
      && Booked(s, s', facts, ForestLeaves(f), rest, ForestSize(f))
    decreases f, 0
  {
    hide Cleared, Booked, Ready, Fits, ForestFits, Remove;
    match f
    case Nil =>
      NothingQuiet(c, s, facts, dir, rest);
      assert s.listings == more;
    case Cons(n, h, t) =>
      var after := ForestLeaves(t) + rest;
      assert s.listings == Listings(h) + (ForestListings(t) + more);
      HeadReady(c, s, facts, dir, relative, n, h, t, rest);
      HeadApart(c, s, facts, dir, relative, h, t, n);
      TreeQuiet(c, s, facts, dir, n, relative + [n], h, false, after, ForestListings(t) + more);
      var (s1, v) := Remove(c, s, dir, n, relative + [n], false);
      TailReady(c, s, s1, facts, dir, relative, n, h, t, rest);
      hide ForestReady;
      ForestQuiet(c, s1, facts, dir, relative, t, rest, more);
      var (s2, w) := RemoveEach(c, s1, dir, Names(t), relative);
      EachUnfolds(c, s, dir, n, Names(t), relative);
      assert Names(f) == [n] + Names(t);
      ClearedTrans(c, s, s1, s2, dir, {n}, NameSet(t), Dirs(h), ForestDirs(t), Leaves(h), ForestLeaves(t));
      BookedTrans(s, s1, s2, facts, Leaves(h), ForestLeaves(t), rest, Size(h), ForestSize(t));
  }

  lemma NothingQuiet(c: Ctx, s: State, facts: map<Key, Facts>, dir: Key, rest: seq<Key>)
    requires Calm(c, s) && dir in s.fs.dirs
    ensures Cleared(c, s, s, dir, {}, {}, []) && Booked(s, s, facts, [], rest, 0)
  {
  }

  lemma HeadReady(c: Ctx, s: State, facts: map<Key, Facts>, dir: Key, relative: Path, n: Name, h: Tree, t: Forest,
                  rest: seq<Key>)
    requires ForestReady(c, s, facts, dir, relative, Cons(n, h, t), rest)
    ensures Ready(c, s, facts, dir, n, relative + [n], h, false, ForestLeaves(t) + rest)
    ensures Fits(c, s, facts, relative + [n], h, false) && ForestFits(c, s, facts, relative, dir, t)
  {
    assert ForestLeaves(Cons(n, h, t)) + rest == Leaves(h) + (ForestLeaves(t) + rest);
    assert Fits(c, s, facts, relative + [n], h, false);
    assert h.key in s.fs.inodes;
    assert dir !in Dirs(h) && c.recovery !in Dirs(h);
  }

  lemma HeadApart(c: Ctx, s: State, facts: map<Key, Facts>, dir: Key, relative: Path, h: Tree, t: Forest, n: Name)
    requires dir in s.fs.dirs && c.recovery in s.fs.dirs
    requires Fits(c, s, facts, relative + [n], h, false) && ForestFits(c, s, facts, relative, dir, t)
    ensures forall k :: k in Leaves(h) + ForestLeaves(t) ==>
      k !in Dirs(h) && k !in ForestDirs(t) && k != dir && k != c.recovery
  {
    TreeKeys(c, s, facts, relative + [n], h, false);
    ForestKeys(c, s, facts, relative, dir, t);
    hide Fits, ForestFits, Leaves, ForestLeaves, Dirs, ForestDirs;
  }

  /** The rest of a forest is beside its first tree, if shared leaves are in groups. */
  lemma TailBeside(c: Ctx, s: State, facts: map<Key, Facts>, dir: Key, relative: Path, n: Name, h: Tree, t: Forest,
                   rest: seq<Key>)
    requires ForestReady(c, s, facts, dir, relative, Cons(n, h, t), rest)
    requires forall k :: k in ForestLeaves(t) && k in Leaves(h) ==> k in s.groups
    ensures Beside(c, s, dir, Dirs(h), Leaves(h), ForestDirs(t), ForestLeaves(t))
    ensures ForestFits(c, s, facts, relative, dir, t) && {n} !! NameSet(t) && dir !in Dirs(h) && dir !in ForestDirs(t)
    ensures c.recovery !in ForestDirs(t) && dir != c.recovery && dir.device == c.recovery.device && Calm(c, s)
  {
    TreeKeys(c, s, facts, relative + [n], h, false);
    ForestKeys(c, s, facts, relative, dir, t);
    hide Explained, LeafFits, DirFits;
  }

  lemma TailReady(c: Ctx, s: State, s1: State, facts: map<Key, Facts>, dir: Key, relative: Path, n: Name, h: Tree,
                  t: Forest, rest: seq<Key>)
    requires ForestReady(c, s, facts, dir, relative, Cons(n, h, t), rest)
    requires Cleared(c, s, s1, dir, {n}, Dirs(h), Leaves(h))
    ensures ForestReady(c, s1, facts, dir, relative, t, rest)
  {
    var after := ForestLeaves(t) + rest;
    assert ForestLeaves(Cons(n, h, t)) + rest == Leaves(h) + after;
    hide Fits, ForestFits, Leaves, Dirs, Beside, GroupFollows;
    ExplainedAfter(c, s, s1, dir, {n}, Dirs(h), Leaves(h), after);
    assert forall k :: k in ForestLeaves(t) ==> k in after;
    TailBeside(c, s, facts, dir, relative, n, h, t, rest);
    ForestFrame(c, s, s1, facts, dir, {n}, Dirs(h), Leaves(h), relative, dir, t);
  }
}
