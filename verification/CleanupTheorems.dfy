/** An undisturbed permanent cleanup of a reviewed tree, from the request to the receipt. */
module CleanupTheorems {
  import opened Prelude
  import opened Metadata
  import opened FileSystem
  import opened Accounting
  import opened Store
  import opened ReviewedTrees
  import Spec = Removal
  import Quiet = RemovalQuiet
  import Theorems = RemovalTheorems
  import Moments = RemovalMoments
  import Closure = LinkClosure
  import Run = Execute

  /** The item is a sound, closed tree on the authorized device, reviewed as it is. */
  predicate TreeReviewed(r: Run.Request, a: Run.Answers, j: Run.Job, fs: Fs, t: Quiet.Tree) {
    var place := r.candidate.place;
    && Sound(fs, place.dir.device, j.euid, t) && Theorems.ClosedTree(fs, t)
    && t.key.device == place.dir.device == r.rootDevice
    && place.dir in fs.dirs && place.name in fs.dirs[place.dir] && fs.dirs[place.dir][place.name] == t.key
    && place.dir !in Keys(t) && j.recovery !in Keys(t)
    && a.reviewed == Some(Measure(fs, [], t))
    && r.candidate.contents == Run.Contents(Measure(fs, [], t)) && r.candidate.identity == MetaAt(fs, t.key).identity
  }

  /** The names and the key the operation will use are free, and the new directory will be private. */
  predicate NamesFree(r: Run.Request, j: Run.Job, fs: Fs) {
    var dir := r.candidate.place.dir;
    && dir in fs.dirs && j.stage !in fs.dirs[dir] && j.recoveryName !in fs.dirs[dir] && j.stage != j.recoveryName
    && j.recovery !in fs.dirs && j.recovery !in fs.inodes && j.recovery.device == dir.device && j.recovery != dir
    && j.made.uid == j.euid && j.made.mode % 0x200 == 0x1C0
  }

  /** The staged item is measured as it is, within the closure's limit. */
  ghost predicate StagedMeasured(r: Run.Request, a: Run.Answers, j: Run.Job, fs: Fs, t: Quiet.Tree) {
    && Run.CanStage(r, j, fs) && a.staged == Some(Measure(Run.StagedFs(r, j, fs), [], t))
    && |Closure.Objects(Run.Metas(a.staged.value))| <= Closure.MAX_LINK_IDENTITIES
  }

  lemma TreeStages(r: Run.Request, a: Run.Answers, j: Run.Job, fs: Fs, t: Quiet.Tree)
    requires TreeReviewed(r, a, j, fs, t) && NamesFree(r, j, fs)
    ensures Run.CanStage(r, j, fs) && Restamped(fs, Run.StagedFs(r, j, fs), t)
    ensures Run.SeesObject(r, j, Run.StagedFs(r, j, fs))
    ensures Run.CanMakeRecovery(r, j, Run.StagedFs(r, j, fs))
  {
    RootKnown(fs, r.candidate.place.dir.device, j.euid, t);
    hide Sound, Theorems.ClosedTree, Measure, Run.Contents;
    StagedKeys(r, j, fs, t);
  }

  lemma RootKnown(fs: Fs, device: nat, euid: nat, t: Quiet.Tree)
    requires Sound(fs, device, euid, t)
    ensures t.key in fs.inodes && t.key in Keys(t)
  {
  }

  lemma StagedKeys(r: Run.Request, j: Run.Job, fs: Fs, t: Quiet.Tree)
    requires Run.CanStage(r, j, fs) && t.key in fs.inodes
    requires fs.dirs[r.candidate.place.dir][r.candidate.place.name] == t.key
    requires r.candidate.place.dir !in Keys(t) && t.key in Keys(t)
    ensures Restamped(fs, Run.StagedFs(r, j, fs), t)
  {
    hide Keys;
  }

  /** The recovery directory is made beside the tree, not in it. */
  lemma MadeBeside(r: Run.Request, j: Run.Job, fs: Fs, t: Quiet.Tree)
    requires Run.CanMakeRecovery(r, j, fs) && r.candidate.place.dir !in Keys(t) && j.recovery !in Keys(t)
    ensures Same(fs, Run.RecoveryFs(r, j, fs), Keys(t))
  {
    hide Keys;
  }

  lemma {:induction false} LeavesAreKeys(t: Quiet.Tree)
    ensures (forall k :: k in Quiet.Leaves(t) ==> k in Keys(t)) && Quiet.Dirs(t) <= Keys(t)
    decreases t
  {
    match t case Leaf(_) => case Dir(_, f) => ForestLeavesAreKeys(f);
  }

  lemma {:induction false} ForestLeavesAreKeys(f: Quiet.Forest)
    ensures (forall k :: k in Quiet.ForestLeaves(f) ==> k in ForestKeySet(f)) && Quiet.ForestDirs(f) <= ForestKeySet(f)
    decreases f
  {
    match f
    case Nil =>
    case Cons(_, h, t) =>
      LeavesAreKeys(h);
      ForestLeavesAreKeys(t);
  }

  lemma ClosedSame(fs: Fs, other: Fs, device: nat, euid: nat, t: Quiet.Tree)
    requires Sound(fs, device, euid, t) && Theorems.ClosedTree(fs, t)
    requires Restamped(fs, other, t) || Same(fs, other, Keys(t))
    ensures Theorems.ClosedTree(other, t)
  {
    LeavesAreKeys(t);
    MeasuredKeys(fs, device, euid, [], t);
    hide Sound, Measure, Quiet.Leaves, Keys, Quiet.Count;
    forall k | k in Quiet.Leaves(t) && k in other.inodes
      ensures Quiet.Count(Quiet.Leaves(t), k) == other.inodes[k].links
    {
      assert k in Keys(t) && k in fs.inodes;
    }
  }

  /** The staged tree and the tree beside the new directory: as sound, as closed, measured alike. */
  lemma StagedTree(r: Run.Request, a: Run.Answers, j: Run.Job, fs: Fs, t: Quiet.Tree)
    requires TreeReviewed(r, a, j, fs, t) && NamesFree(r, j, fs)
    ensures Run.CanStage(r, j, fs) && Run.CanMakeRecovery(r, j, Run.StagedFs(r, j, fs))
    ensures var (device, staged) := (r.candidate.place.dir.device, Run.StagedFs(r, j, fs));
      var made := Run.RecoveryFs(r, j, staged);
      && Sound(staged, device, j.euid, t) && Theorems.ClosedTree(staged, t)
      && Sound(made, device, j.euid, t) && Theorems.ClosedTree(made, t)
      && Run.Contents(Measure(staged, [], t)) == r.candidate.contents
      && Measure(made, [], t) == Measure(staged, [], t)
      && |Measure(made, [], t)| == |Measure(fs, [], t)|
      && (forall i :: 0 < i < |Measure(fs, [], t)| ==> Measure(made, [], t)[i] == Measure(fs, [], t)[i])
      && SameObject(MetaAt(fs, t.key).identity, MetaAt(made, t.key).identity)
  {
    var device, staged := r.candidate.place.dir.device, Run.StagedFs(r, j, fs);
    TreeStages(r, a, j, fs, t);
    var made := Run.RecoveryFs(r, j, staged);
    MadeBeside(r, j, staged, t);
    RootKnown(fs, device, j.euid, t);
    assert SameObject(MetaAt(fs, t.key).identity, MetaAt(made, t.key).identity);
    hide Run.StagedFs, Run.RecoveryFs, Run.Contents, MetaAt;
    RestampedSame(fs, staged, device, j.euid, t);
    TreeSame(staged, made, device, j.euid, [], t);
    ClosedSame(fs, staged, device, j.euid, t);
    ClosedSame(staged, made, device, j.euid, t);
  }

  /** The measurements are the evidence the operation asks for. */
  lemma TreeEvidence(r: Run.Request, a: Run.Answers, j: Run.Job, fs: Fs, t: Quiet.Tree)
    requires TreeReviewed(r, a, j, fs, t) && NamesFree(r, j, fs) && StagedMeasured(r, a, j, fs, t) && r.keeper.None?
    ensures Run.Reviewed(r, a) && Run.StagedAsReviewed(r, a) && Run.Measurable(r, a)
    ensures Run.CanMakeRecovery(r, j, Run.StagedFs(r, j, fs))
    ensures Run.Verified(r, a, GroupsAt(Run.RecoveryFs(r, j, Run.StagedFs(r, j, fs)), t))
  {
    var device, staged := r.candidate.place.dir.device, Run.StagedFs(r, j, fs);
    StagedTree(r, a, j, fs, t);
    var made := Run.RecoveryFs(r, j, staged);
    DistinctMeasure(fs, device, j.euid, [], t);
    ClosedMeasure(staged, device, j.euid, t);
    GroupsAreLinked(made, device, j.euid, t);
    hide Run.StagedFs, Run.RecoveryFs, Run.Contents, Sound, Theorems.ClosedTree, Measure, Run.DistinctPaths;
    hide Closure.Closed, Closure.Consistent;
    hide Run.CanStage, Run.CanMakeRecovery, Run.Metas;
  }

  /** The rows are those of the tree, and every leaf is ready. */
  lemma TreeRows(r: Run.Request, a: Run.Answers, j: Run.Job, guarded: set<Key>, fs: Fs, t: Quiet.Tree)
    requires TreeReviewed(r, a, j, fs, t) && NamesFree(r, j, fs)
    ensures Run.CanStage(r, j, fs) && Run.CanMakeRecovery(r, j, Run.StagedFs(r, j, fs))
    ensures var c := Run.ContextOf(a, j, guarded);
      var made := Run.RecoveryFs(r, j, Run.StagedFs(r, j, fs));
      && c.manifest.Keys == Theorems.Paths([], t)
      && |Measure(made, [], t)| > 0 && Exact(c.manifest, Measure(made, [], t)[1..])
      && [] in c.manifest && SameObject(c.manifest[[]], MetaAt(made, t.key).identity)
  {
    var device := r.candidate.place.dir.device;
    var m := Measure(fs, [], t);
    StagedTree(r, a, j, fs, t);
    DistinctMeasure(fs, device, j.euid, [], t);
    RowPaths(m);
    MeasuredPaths(fs, [], t);
    assert m[0] == ([], MetaAt(fs, t.key));
    hide *;
    var made := Run.RecoveryFs(r, j, Run.StagedFs(r, j, fs));
    RowsExact(m, Measure(made, [], t));
    TreesRows(r, a, j, guarded, fs, t);
  }

  lemma TreesRows(r: Run.Request, a: Run.Answers, j: Run.Job, guarded: set<Key>, fs: Fs, t: Quiet.Tree)
    requires TreeReviewed(r, a, j, fs, t)
    ensures Run.ContextOf(a, j, guarded).manifest == Run.Rows(Measure(fs, [], t))
  {
    hide Measure, Sound, Theorems.ClosedTree, Run.Contents, Run.Rows, Keys;
  }

  /** Rows of one measurement, read against another that differs at most in the root. */
  lemma RowsExact(m: Run.Measured, n: Run.Measured)
    requires Run.DistinctPaths(m) && |n| == |m| > 0 && m[0].0 == [] && forall i :: 0 < i < |m| ==> n[i] == m[i]
    ensures Exact(Run.Rows(m), n[1..]) && [] in Run.Rows(m) && Run.Rows(m)[[]] == m[0].1.identity
  {
    forall i | 0 <= i < |m| ensures m[i].0 in Run.Rows(m) && Run.Rows(m)[m[i].0] == m[i].1.identity { Run.RowOf(m, i); }
    hide Run.Rows, Run.DistinctPaths;
    forall i | 0 <= i < |n[1..]| ensures n[1..][i] == m[i + 1] {}
  }

  lemma LeavesReady(s: Spec.State, device: nat, euid: nat, t: Quiet.Tree)
    requires Sound(s.fs, device, euid, t) && Theorems.ClosedTree(s.fs, t) && s.groups == GroupsAt(s.fs, t)
    ensures (forall k :: k in Quiet.Leaves(t) ==> LeafReady(s, FactsAt(s.fs, t), k)) && (t.Leaf? ==> t.key !in s.groups)
  {
    GroupsAreLinked(s.fs, device, euid, t);
    MeasuredKeys(s.fs, device, euid, [], t);
    if t.Leaf? {
      assert Quiet.Leaves(t) == [t.key] && Quiet.Count([t.key], t.key) == 1 + Quiet.Count([t.key][1..], t.key) == 1;
    }
    hide Sound, Measure, Theorems.ClosedTree, Quiet.Leaves;
    forall k | k in Quiet.Leaves(t) ensures LeafReady(s, FactsAt(s.fs, t), k) { assert LeafSound(s.fs, euid, k); }
  }

  /** Staged, beside the new recovery directory: exactly where the undisturbed removal starts. */
  lemma TreeIsClosedStage(r: Run.Request, a: Run.Answers, j: Run.Job, guarded: set<Key>, fs: Fs, t: Quiet.Tree)
    requires TreeReviewed(r, a, j, fs, t) && NamesFree(r, j, fs)
    ensures Run.CanStage(r, j, fs) && Run.CanMakeRecovery(r, j, Run.StagedFs(r, j, fs))
    ensures var made := Run.RecoveryFs(r, j, Run.StagedFs(r, j, fs));
      Run.ClosedStage(Run.ContextOf(a, j, guarded), r, j, made, FactsAt(made, t), t, GroupsAt(made, t))
  {
    StagedTree(r, a, j, fs, t);
    TreeAtStart(r, a, j, guarded, fs, t);
    var c, made := Run.ContextOf(a, j, guarded), Run.RecoveryFs(r, j, Run.StagedFs(r, j, fs));
    var s0 := Theorems.Start(made, [], Quiet.Listings(t), GroupsAt(made, t));
    assert Quiet.Holds(s0, r.candidate.place.dir, j.stage, t.key) by {
      RootKnown(fs, r.candidate.place.dir.device, j.euid, t);
      hide Quiet.Listings, GroupsAt, Sound, Measure, Keys;
    }
    LeavesAreKeys(t);
    GroupsAreLinked(made, r.candidate.place.dir.device, j.euid, t);
    assert Run.ContextOf(a, j, guarded).manifest.Keys == Theorems.Paths([], t) by { TreeRows(r, a, j, guarded, fs, t); }
    hide Sound, Measure, Theorems.ClosedTree, Theorems.GroupsOf, Quiet.Fits, FactsAt, GroupsAt, Run.StagedFs;
    hide Run.RecoveryFs, Keys;
    hide Quiet.Listings, Quiet.Leaves, Quiet.Dirs, Theorems.Paths, Run.Contents, Run.Rows, MetaAt, Run.RowsOf;
    Stage(c, r, j, made, FactsAt(made, t), t, GroupsAt(made, t));
  }

  lemma TreeAtStart(r: Run.Request, a: Run.Answers, j: Run.Job, guarded: set<Key>, fs: Fs, t: Quiet.Tree)
    requires TreeReviewed(r, a, j, fs, t) && NamesFree(r, j, fs)
    ensures Run.CanStage(r, j, fs) && Run.CanMakeRecovery(r, j, Run.StagedFs(r, j, fs))
    ensures var made := Run.RecoveryFs(r, j, Run.StagedFs(r, j, fs));
      var s0 := Theorems.Start(made, [], Quiet.Listings(t), GroupsAt(made, t));
      Quiet.Fits(Run.ContextOf(a, j, guarded), s0, FactsAt(made, t), [], t, true)
  {
    StagedTree(r, a, j, fs, t);
    TreeRows(r, a, j, guarded, fs, t);
    var c, made := Run.ContextOf(a, j, guarded), Run.RecoveryFs(r, j, Run.StagedFs(r, j, fs));
    var s0 := Theorems.Start(made, [], Quiet.Listings(t), GroupsAt(made, t));
    var device := r.candidate.place.dir.device;
    assert j.recovery.device == device && c.recovery == j.recovery && c.euid == j.euid;
    hide *;
    assert s0.fs == made && s0.groups == GroupsAt(made, t) by { Begun(made, Quiet.Listings(t), GroupsAt(made, t)); }
    LeavesReady(s0, device, j.euid, t);
    RootFits(c, s0, FactsAt(made, t), t);
  }

  lemma Begun(fs: Fs, listings: seq<seq<Name>>, groups: map<Key, Spec.LinkRemoval>)
    ensures Theorems.Start(fs, [], listings, groups).fs == fs
    ensures Theorems.Start(fs, [], listings, groups).groups == groups
  {
  }

  lemma Stage(c: Spec.Ctx, r: Run.Request, j: Run.Job, made: Fs, facts: map<Key, Quiet.Facts>, t: Quiet.Tree,
              groups: map<Key, Spec.LinkRemoval>)
    requires var parent := r.candidate.place.dir;
      var s0 := Theorems.Start(made, [], Quiet.Listings(t), groups);
      && Quiet.Fits(c, s0, facts, [], t, true) && Quiet.Holds(s0, parent, j.stage, t.key)
      && parent !in Quiet.Dirs(t) && parent != c.recovery && c.recovery !in Quiet.Dirs(t)
      && parent.device == c.recovery.device
      && Theorems.ClosedTree(made, t) && Theorems.GroupsOf(groups, made, t) && c.manifest.Keys == Theorems.Paths([], t)
    ensures Run.ClosedStage(c, r, j, made, facts, t, groups)
  {
    hide Quiet.Fits, Theorems.ClosedTree, Theorems.GroupsOf, Theorems.Paths, Quiet.Listings;
  }

  /** Every condition of an undisturbed permanent cleanup holds for a reviewed, closed tree. */
  lemma ReviewedTreeGoes(r: Run.Request, a: Run.Answers, j: Run.Job, guarded: set<Key>, fs: Fs, t: Quiet.Tree)
    requires Run.Authorized(r) && r.operation == Permanent
    requires TreeReviewed(r, a, j, fs, t) && NamesFree(r, j, fs) && StagedMeasured(r, a, j, fs, t)
    ensures Run.Opens(r, fs, false) && Run.Commits(r, a, fs, false) && Run.Measurable(r, a)
    ensures Run.Removes(Run.ContextOf(a, j, guarded), r, a, j, fs, Quiet.Listings(t))
  {
    var c, staged := Run.ContextOf(a, j, guarded), Run.StagedFs(r, j, fs);
    RootKnown(fs, r.candidate.place.dir.device, j.euid, t);
    assert Run.SeesItem(r, fs);
    TreeStages(r, a, j, fs, t);
    TreeEvidence(r, a, j, fs, t);
    TreeIsClosedStage(r, a, j, guarded, fs, t);
    var made := Run.RecoveryFs(r, j, staged);
    var ds := DistinctKeys(Quiet.Leaves(t));
    hide Run.ClosedStage, Run.Verified, TreeReviewed, StagedMeasured, Run.StagedFs, Run.RecoveryFs;
    hide Run.StagedAsReviewed, Run.SeesObject, Run.CanStage, Run.CanMakeRecovery, Run.RemovalGoes;
    Run.ClosedTreeGoes(c, r, j, staged, FactsAt(made, t), t, GroupsAt(made, t), ds);
    assert Run.Stages(r, a, j, fs);
  }

  // ---- What is left, and what was counted ---------------------------------

  /** The item's name and every directory of the tree are gone, no leaf has a name in it, and nothing else moved. */
  predicate TreeGone(r: Run.Request, fs: Fs, t: Quiet.Tree, last: Fs) {
    var place := r.candidate.place;
    && place.dir in fs.dirs && last.dirs.Keys == fs.dirs.Keys - Quiet.Dirs(t)
    && last.inodes.Keys == fs.inodes.Keys - Quiet.Dirs(t)
    && place.dir in last.dirs && last.dirs[place.dir] == fs.dirs[place.dir] - {place.name}
    && (forall d :: d in last.dirs && d != place.dir ==> last.dirs[d] == fs.dirs[d])
    && (forall k :: k in last.inodes && k !in Keys(t) && k != place.dir ==> last.inodes[k] == fs.inodes[k])
  }

  /** The distinct leaf inodes, in any order. */
  ghost predicate Lists(ds: seq<Key>, t: Quiet.Tree) {
    Theorems.Distinct(ds) && forall k :: k in Quiet.Leaves(t) <==> k in ds
  }

  /** The counters are those of the tree as it was: names of files, private bytes once per inode, rows. */
  ghost predicate Counted(fs: Fs, t: Quiet.Tree, removed: Spec.Removed, completed: nat) {
    var facts := FactsAt(fs, t);
    && removed.files == Quiet.RegularNames(facts, Quiet.Leaves(t))
    && (forall ds :: Lists(ds, t) ==> removed.private == Min(MAX_U64, Theorems.Total(facts, ds)))
    && removed.privateKnown == Quiet.PrivateKnown(facts, Quiet.Leaves(t), [])
    && completed == Min(MAX_U64, Quiet.Size(t))
  }

  /** What counts about a leaf is not changed by restamping the root. */
  lemma FactsSame(fs: Fs, other: Fs, device: nat, euid: nat, t: Quiet.Tree)
    requires Sound(fs, device, euid, t) && Sound(other, device, euid, t)
    requires Restamped(fs, other, t) || Same(fs, other, Keys(t))
    ensures FactsAt(other, t) == FactsAt(fs, t)
  {
    LeavesAreKeys(t);
    GroupsAreLinked(fs, device, euid, t);
    GroupsAreLinked(other, device, euid, t);
    hide Sound, GroupsAt, Keys, Quiet.Leaves, Theorems.GroupsOf;
    forall k | k in Quiet.Leaves(t)
      ensures Quiet.FactsOf(other.inodes[k], k in GroupsAt(other, t))
           == Quiet.FactsOf(fs.inodes[k], k in GroupsAt(fs, t))
    {
      assert k in Keys(t);
    }
  }

  /** `made` differs from `fs` only in the item's directory, in the stamp of the root, and by the new directory. */
  predicate MadeFrom(fs: Fs, home: Key, names: map<Name, Key>, root: Key, added: Key, made: Fs) {
    && made.dirs.Keys == fs.dirs.Keys + {added} && made.inodes.Keys == fs.inodes.Keys + {added}
    && home in fs.dirs && home != added && made.dirs[home] == names
    && (forall d :: d in fs.dirs && d != home && d != added ==> made.dirs[d] == fs.dirs[d])
    && (forall k :: k in fs.inodes && k !in {home, root, added} ==> made.inodes[k] == fs.inodes[k])
  }

  lemma MadeKnown(r: Run.Request, j: Run.Job, fs: Fs, t: Quiet.Tree)
    requires NamesFree(r, j, fs) && Run.CanStage(r, j, fs) && Run.CanMakeRecovery(r, j, Run.StagedFs(r, j, fs))
    requires fs.dirs[r.candidate.place.dir][r.candidate.place.name] == t.key
    ensures var home := r.candidate.place.dir;
      var names := (fs.dirs[home] - {r.candidate.place.name})[j.stage := t.key][j.recoveryName := j.recovery];
      MadeFrom(fs, home, names, t.key, j.recovery, Run.RecoveryFs(r, j, Run.StagedFs(r, j, fs)))
  {
  }

  /** Dropping the recovery directory takes its name and its inode, and restamps the item's directory. */
  predicate DroppedFrom(fs: Fs, home: Key, name: Name, added: Key, last: Fs) {
    && last.dirs.Keys == fs.dirs.Keys - {added} && last.inodes.Keys == fs.inodes.Keys - {added}
    && home in last.dirs && home in fs.dirs && last.dirs[home] == fs.dirs[home] - {name}
    && (forall d :: d in last.dirs && d != home ==> last.dirs[d] == fs.dirs[d])
    && (forall k :: k in last.inodes && k != home ==> last.inodes[k] == fs.inodes[k])
  }

  lemma DroppedKnown(fs: Fs, home: Key, name: Name, added: Key)
    requires CanRemoveDir(fs, home, name) && fs.dirs[home][name] == added
    ensures DroppedFrom(fs, home, name, added, RemoveDir(fs, home, name))
  {
  }

  /** Staging, making the recovery directory, the removal and dropping that directory: one name less. */
  lemma GoneAtLast(c: Spec.Ctx, r: Run.Request, j: Run.Job, fs: Fs, t: Quiet.Tree, s0: Spec.State, s: Spec.State,
                   last: Fs)
    requires NamesFree(r, j, fs) && c.recovery == j.recovery
    requires var home := r.candidate.place.dir;
      var names := (fs.dirs[home] - {r.candidate.place.name})[j.stage := t.key][j.recoveryName := j.recovery];
      MadeFrom(fs, home, names, t.key, j.recovery, s0.fs)
    requires r.candidate.place.dir !in Keys(t) && j.recovery !in Keys(t) && t.key in Keys(t)
    requires Quiet.Cleared(c, s0, s, r.candidate.place.dir, {j.stage}, Quiet.Dirs(t), Quiet.Leaves(t))
    requires DroppedFrom(s.fs, r.candidate.place.dir, j.recoveryName, j.recovery, last)
    ensures TreeGone(r, fs, t, last)
  {
    LeavesAreKeys(t);
    hide Keys, Quiet.Leaves, Quiet.Dirs, Quiet.Count, Quiet.GroupFollows, Quiet.Calm;
    var home, name, ds := r.candidate.place.dir, r.candidate.place.name, Quiet.Dirs(t);
    assert j.recovery !in fs.dirs && j.recovery !in fs.inodes;
    DirsGone(fs.dirs, s0.fs.dirs, s.fs.dirs, last.dirs, home, name, j.stage, j.recoveryName, t.key, j.recovery, ds);
    InodesStay(c, fs, home, t, s0, s, last, s0.fs.dirs[home], j.stage, j.recoveryName);
    hide Quiet.Cleared, MadeFrom, DroppedFrom;
  }

  lemma InodesStay(c: Spec.Ctx, fs: Fs, home: Key, t: Quiet.Tree, s0: Spec.State, s: Spec.State, last: Fs,
                   names: map<Name, Key>, stage: Name, name: Name)
    requires MadeFrom(fs, home, names, t.key, c.recovery, s0.fs) && DroppedFrom(s.fs, home, name, c.recovery, last)
    requires Quiet.Cleared(c, s0, s, home, {stage}, Quiet.Dirs(t), Quiet.Leaves(t))
    requires c.recovery !in fs.inodes && c.recovery !in Keys(t) && t.key in Keys(t)
    ensures last.inodes.Keys == fs.inodes.Keys - Quiet.Dirs(t)
    ensures forall k :: k in last.inodes && k !in Keys(t) && k != home ==> last.inodes[k] == fs.inodes[k]
  {
    LeavesAreKeys(t);
    hide Keys, Quiet.Leaves, Quiet.Dirs, Quiet.Count, Quiet.GroupFollows, Quiet.Calm;
    forall k | k in last.inodes && k !in Keys(t) && k != home ensures last.inodes[k] == fs.inodes[k] {
      assert k !in Quiet.Leaves(t) && k != t.key && k != c.recovery;
      assert last.inodes[k] == s.fs.inodes[k] == s0.fs.inodes[k];
    }
  }

  /** Four stages of the directories: one name moved aside and a directory added, a tree gone, the added one gone. */
  lemma DirsGone(a: map<Key, map<Name, Key>>, b: map<Key, map<Name, Key>>, c: map<Key, map<Name, Key>>,
                 d: map<Key, map<Name, Key>>, home: Key, name: Name, stage: Name, recovery: Name, root: Key,
                 added: Key, gone: set<Key>)
    requires home in a && added !in a && stage !in a[home] && recovery !in a[home] && stage != recovery
    requires b.Keys == a.Keys + {added} && b[home] == (a[home] - {name})[stage := root][recovery := added]
    requires forall k :: k in a && k != home ==> b[k] == a[k]
    requires c.Keys == b.Keys - gone && home in c && c[home] == b[home] - {stage}
    requires forall k :: k in c && k != home ==> c[k] == b[k]
    requires d.Keys == c.Keys - {added} && d[home] == c[home] - {recovery}
    requires forall k :: k in d && k != home ==> d[k] == c[k]
    ensures d.Keys == a.Keys - gone && d[home] == a[home] - {name}
    ensures forall k :: k in d && k != home ==> d[k] == a[k]
  {
  }

  lemma NameHeld(c: Spec.Ctx, j: Run.Job, home: Key, s0: Spec.State, s: Spec.State, t: Quiet.Tree)
    requires Quiet.Cleared(c, s0, s, home, {j.stage}, Quiet.Dirs(t), Quiet.Leaves(t)) && j.stage != j.recoveryName
    requires home in s0.fs.dirs && j.recoveryName in s0.fs.dirs[home] && s0.fs.dirs[home][j.recoveryName] == j.recovery
    ensures home in s.fs.dirs && j.recoveryName in s.fs.dirs[home] && s.fs.dirs[home][j.recoveryName] == j.recovery
  {
    hide Quiet.Leaves, Quiet.Dirs, Quiet.Count, Quiet.GroupFollows, Quiet.Calm;
  }

  lemma Counting(c: Spec.Ctx, r: Run.Request, j: Run.Job, made: Fs, t: Quiet.Tree, s: Spec.State, ds: seq<Key>)
    requires Run.ClosedStage(c, r, j, made, FactsAt(made, t), t, GroupsAt(made, t)) && Lists(ds, t)
    requires c.recovery in made.dirs && made.dirs[c.recovery] == map[]
    requires var s0 := Theorems.Start(made, [], Quiet.Listings(t), GroupsAt(made, t));
      s == Spec.Remove(c, s0, r.candidate.place.dir, j.stage, [], true).0
    ensures var s0 := Theorems.Start(made, [], Quiet.Listings(t), GroupsAt(made, t));
      && Quiet.Cleared(c, s0, s, r.candidate.place.dir, {j.stage}, Quiet.Dirs(t), Quiet.Leaves(t))
      && s.removed.files == Quiet.RegularNames(FactsAt(made, t), Quiet.Leaves(t))
      && s.removed.private == Min(MAX_U64, Theorems.Total(FactsAt(made, t), ds))
      && s.removed.privateKnown == Quiet.PrivateKnown(FactsAt(made, t), Quiet.Leaves(t), [])
      && s.completed == Min(MAX_U64, Quiet.Size(t))
  {
    var s0 := Theorems.Start(made, [], Quiet.Listings(t), GroupsAt(made, t));
    Theorems.UndisturbedRemoval(c, made, FactsAt(made, t), t, GroupsAt(made, t), r.candidate.place.dir, j.stage, ds);
    Theorems.PathsCount(c, s0, FactsAt(made, t), [], t, true);
    assert |c.manifest| == |c.manifest.Keys|;
    hide Spec.Remove, Quiet.Fits, Theorems.ClosedTree, Theorems.GroupsOf, Theorems.Paths, Quiet.Cleared, FactsAt;
    hide GroupsAt, Quiet.Listings, Quiet.RegularNames, Quiet.PrivateKnown, Theorems.Total;
  }

  /** The end of the removal of a reviewed tree, seen from the file system it started in. */
  lemma TreeEnds(r: Run.Request, a: Run.Answers, j: Run.Job, guarded: set<Key>, fs: Fs, t: Quiet.Tree,
                 last: Fs, removed: Spec.Removed, completed: nat)
    requires TreeReviewed(r, a, j, fs, t) && NamesFree(r, j, fs) && StagedMeasured(r, a, j, fs, t) && r.keeper.None?
    requires Run.EndsWhole(Run.ContextOf(a, j, guarded), r, a, j, fs, Quiet.Listings(t), last, removed, completed)
    ensures TreeGone(r, fs, t, last) && Counted(fs, t, removed, completed)
  {
    var c, home := Run.ContextOf(a, j, guarded), r.candidate.place.dir;
    EndedWithGroups(c, r, a, j, fs, t, last, removed, completed);
    TreeIsClosedStage(r, a, j, guarded, fs, t);
    TreeFacts(r, a, j, fs, t);
    MadeKnown(r, j, fs, t);
    RootKnown(fs, home.device, j.euid, t);
    var made := Run.RecoveryFs(r, j, Run.StagedFs(r, j, fs));
    assert c.recovery in made.dirs && made.dirs[c.recovery] == map[];
    assert home !in Keys(t) && j.recovery !in Keys(t) && c.recovery == j.recovery && j.stage != j.recoveryName;
    hide *;
    EndsCounted(c, r, j, fs, made, t, last, removed, completed);
  }

  lemma EndsCounted(c: Spec.Ctx, r: Run.Request, j: Run.Job, fs: Fs, made: Fs, t: Quiet.Tree, last: Fs,
                    removed: Spec.Removed, completed: nat)
    requires Run.EndsFrom(c, r, j, made, Quiet.Listings(t), GroupsAt(made, t), last, removed, completed)
    requires Run.ClosedStage(c, r, j, made, FactsAt(made, t), t, GroupsAt(made, t))
    requires FactsAt(made, t) == FactsAt(fs, t)
    requires NamesFree(r, j, fs) && c.recovery == j.recovery && t.key in Keys(t)
    requires var home := r.candidate.place.dir;
      var names := (fs.dirs[home] - {r.candidate.place.name})[j.stage := t.key][j.recoveryName := j.recovery];
      MadeFrom(fs, home, names, t.key, j.recovery, made)
    requires r.candidate.place.dir !in Keys(t) && j.recovery !in Keys(t)
    requires c.recovery in made.dirs && made.dirs[c.recovery] == map[]
    ensures TreeGone(r, fs, t, last) && Counted(fs, t, removed, completed)
  {
    hide Run.ClosedStage, FactsAt, GroupsAt, Spec.Remove, Quiet.Listings, Quiet.Leaves, Keys, Quiet.Cleared, RemoveDir;
    hide Quiet.Dirs, Lists, TreeGone;
    var home := r.candidate.place.dir;
    var s0 := Theorems.Start(made, [], Quiet.Listings(t), GroupsAt(made, t));
    var s := Spec.Remove(c, s0, home, j.stage, [], true).0;
    Begun(made, Quiet.Listings(t), GroupsAt(made, t));
    var ds := ListOf(t);
    Counting(c, r, j, made, t, s, ds);
    NameHeld(c, j, home, s0, s, t);
    DroppedKnown(s.fs, home, j.recoveryName, j.recovery);
    hide CanRemoveDir, DroppedFrom;
    GoneAtLast(c, r, j, fs, t, s0, s, last);
    forall es | Lists(es, t) ensures removed.private == Min(MAX_U64, Theorems.Total(FactsAt(fs, t), es)) {
      Counting(c, r, j, made, t, s, es);
    }
  }

  lemma ListOf(t: Quiet.Tree) returns (ds: seq<Key>)
    ensures Lists(ds, t)
  {
    ds := DistinctKeys(Quiet.Leaves(t));
  }

  lemma TreeFacts(r: Run.Request, a: Run.Answers, j: Run.Job, fs: Fs, t: Quiet.Tree)
    requires TreeReviewed(r, a, j, fs, t) && NamesFree(r, j, fs)
    ensures Run.CanStage(r, j, fs) && Run.CanMakeRecovery(r, j, Run.StagedFs(r, j, fs))
    ensures FactsAt(Run.RecoveryFs(r, j, Run.StagedFs(r, j, fs)), t) == FactsAt(fs, t)
  {
    var device, staged := r.candidate.place.dir.device, Run.StagedFs(r, j, fs);
    TreeStages(r, a, j, fs, t);
    StagedTree(r, a, j, fs, t);
    MadeBeside(r, j, staged, t);
    hide Run.StagedFs, Run.RecoveryFs, Sound, Measure, FactsAt, Keys, Run.Contents, Theorems.ClosedTree;
    FactsSame(fs, staged, device, j.euid, t);
    FactsSame(staged, Run.RecoveryFs(r, j, staged), device, j.euid, t);
  }

  lemma EndedWithGroups(c: Spec.Ctx, r: Run.Request, a: Run.Answers, j: Run.Job, fs: Fs, t: Quiet.Tree,
                        last: Fs, removed: Spec.Removed, completed: nat)
    requires TreeReviewed(r, a, j, fs, t) && NamesFree(r, j, fs) && StagedMeasured(r, a, j, fs, t) && r.keeper.None?
    requires Run.EndsWhole(c, r, a, j, fs, Quiet.Listings(t), last, removed, completed)
    ensures Run.CanMakeRecovery(r, j, Run.StagedFs(r, j, fs))
    ensures var made := Run.RecoveryFs(r, j, Run.StagedFs(r, j, fs));
      Run.EndsFrom(c, r, j, made, Quiet.Listings(t), GroupsAt(made, t), last, removed, completed)
  {
    var staged := Run.StagedFs(r, j, fs);
    TreeEvidence(r, a, j, fs, t);
    hide Run.EndsFrom, Run.Verified, TreeReviewed, NamesFree, StagedMeasured, Run.StagedFs, Run.RecoveryFs, GroupsAt;
    var groups :| Run.Verified(r, a, groups) &&
      Run.EndsAs(c, r, j, staged, Quiet.Listings(t), groups, last, removed, completed);
    Run.VerifiedOnce(r, a, groups, GroupsAt(Run.RecoveryFs(r, j, staged), t));
  }

  /** Whenever the permanent branch of a reviewed tree is cut short, what is on disk then is what its rows say. */
  lemma CutShort(r: Run.Request, a: Run.Answers, j: Run.Job, guarded: set<Key>, fs: Fs, t: Quiet.Tree)
    requires TreeReviewed(r, a, j, fs, t) && NamesFree(r, j, fs)
    ensures Run.CanStage(r, j, fs) && Run.CanMakeRecovery(r, j, Run.StagedFs(r, j, fs))
    ensures var (c, home) := (Run.ContextOf(a, j, guarded), r.candidate.place.dir);
      var made := Run.RecoveryFs(r, j, Run.StagedFs(r, j, fs));
      var s0 := Theorems.Start(made, [], Quiet.Listings(t), GroupsAt(made, t));
      && Moments.PathsOf(Moments.Entries(home, j.stage, [], t)) == c.manifest.Keys
      && Moments.AtEveryMoment(c, s0, Spec.Remove(c, s0, home, j.stage, [], true).0, home, j.stage,
                               Moments.Entries(home, j.stage, [], t))
  {
    var (c, home) := (Run.ContextOf(a, j, guarded), r.candidate.place.dir);
    TreeIsClosedStage(r, a, j, guarded, fs, t);
    var made := Run.RecoveryFs(r, j, Run.StagedFs(r, j, fs));
    assert c.recovery == j.recovery && made.dirs[j.recovery] == map[];
    hide TreeReviewed, NamesFree, Run.ContextOf, Run.RecoveryFs, Run.StagedFs, Spec.Remove, Moments.AtEveryMoment;
    hide Quiet.Fits, Theorems.ClosedTree, Theorems.GroupsOf, Theorems.Paths, Moments.Entries, Moments.PathsOf;
    Moments.EveryMoment(c, made, FactsAt(made, t), t, GroupsAt(made, t), home, j.stage);
  }

  /** An operation about to run undisturbed, with every condition for a removal met. */
  ghost predicate Poised(run: Run.CleanupRun)
    reads run, run.store
  {
    && run.Going() && run.Straight() && run.phase == Run.Phase(Run.Original, false, true) && run.events == []
    && run.log == []
    && run.turns == [] && run.job.id !in run.store.operations && run.job.id !in run.store.manifest
    && run.job.id !in run.store.parents
    && Run.Opens(run.request, run.fs, false) && Run.Commits(run.request, run.answers, run.fs, false)
    && Run.Measurable(run.request, run.answers)
    && Run.Removes(run.Context(), run.request, run.answers, run.job, run.fs, run.listings)
  }

  method RunPoised(run: Run.CleanupRun) returns (result: Run.Result)
    requires Poised(run)
    modifies run, run.store
    ensures run.Going() && run.Straight() && run.AllGone()
    ensures result.Ok? && result.receipt.outcome == Deleted && run.Filed(result.receipt) && run.RowsNow() == None
    ensures Run.EndsWhole(run.Context(), run.request, run.answers, run.job, old(run.fs), old(run.listings), run.fs,
                          run.removed, run.completed)
    ensures result.receipt.credited > 0 ==> run.removed.privateKnown && result.receipt.credited <= run.removed.private
    ensures
      var (p, k) := (run.removed.private, run.removed.privateKnown);
      Run.Paid(run.request, run.answers, run.removed, result.receipt,
               old(Run.Payable(run.store, run.request, run.answers, run.job.id, p, k)))
  {
    hide Run.Removes, Run.Opens, Run.Commits, Run.Measurable, Run.Authorized, Run.Trashes, Run.Justified;
    hide Run.StagedAsReviewed;
    hide Run.CleanupRun.Going, Run.CleanupRun.AllGone, Run.CleanupRun.InTrash, Run.CleanupRun.Ours, Run.EndsWhole;
    result := run.Execute();
  }

  /**
   * The whole operation: with nobody interfering, a permanent cleanup of any
   * reviewed tree whose hard links are all inside it ends `removed`, with
   * every reviewed alias unlinked, nothing left of the tree, nothing else
   * moved, and the counters exactly those of the tree; a credit is within
   * them, and is the computed one whenever the ledger can take it.
   */
  method RemoveReviewedTree(store: Store, r: Run.Request, a: Run.Answers, j: Run.Job, guarded: set<Key>, fs: Fs,
                            t: Quiet.Tree)
    returns (result: Run.Result, last: Fs,
             ghost log: seq<Spec.Unlinked>, ghost removed: Spec.Removed, ghost completed: nat)
    requires store.Valid() && j.id !in store.operations && j.id !in store.manifest && j.id !in store.parents
    requires j.recovery in guarded && Run.Authorized(r) && r.operation == Permanent
    requires TreeReviewed(r, a, j, fs, t) && NamesFree(r, j, fs) && StagedMeasured(r, a, j, fs, t)
    modifies store
    ensures result.Ok? && result.receipt.outcome == Deleted && Run.AllAliasesRemoved(a, log)
    ensures j.id in store.operations && store.operations[j.id].state == Ended(Deleted) && j.id !in store.manifest
    ensures TreeGone(r, fs, t, last) && Counted(fs, t, removed, completed)
    ensures result.receipt.credited > 0 ==> removed.privateKnown && result.receipt.credited <= removed.private
    ensures
      var (p, k) := (removed.private, removed.privateKnown);
      Run.Paid(r, a, removed, result.receipt, old(Run.Payable(store, r, a, j.id, p, k)))
  {
    RowsElsewhere(r, a, j, fs, t);
    ReviewedTreeGoes(r, a, j, guarded, fs, t);
    assert j.recovery !in fs.dirs && r.candidate.place.dir != j.recovery;
    hide TreeReviewed, StagedMeasured, NamesFree, Run.AllAliasesRemoved, Run.Kept, Run.Sited, Run.Rows, Run.Sheltered;
    hide Run.Removes, Run.Opens, Run.Commits, Run.Measurable, Quiet.Listings, TreeGone, Counted, Run.EndsWhole;
    var run := new Run.CleanupRun(store, r, a, j, guarded, fs, [], Quiet.Listings(t));
    result := RunPoised(run);
    run.StraightIsSheltered();
    last, log, removed, completed := run.fs, run.log, run.removed, run.completed;
    TreeEnds(r, a, j, guarded, fs, t, last, removed, completed);
  }

  /** No row names the recovery directory or the item's own directory. */
  lemma RowsElsewhere(r: Run.Request, a: Run.Answers, j: Run.Job, fs: Fs, t: Quiet.Tree)
    requires TreeReviewed(r, a, j, fs, t)
    ensures forall p :: p in Run.RowsOf(a) ==> Run.RowsOf(a)[p].Object() !in {j.recovery, r.candidate.place.dir}
  {
    var m := Measure(fs, [], t);
    DistinctMeasure(fs, r.candidate.place.dir.device, j.euid, [], t);
    RowPaths(m);
    MeasuredInKeys(fs, [], t);
    hide Measure, Sound, Theorems.ClosedTree, Run.Contents, Run.Rows, Keys;
    forall p | p in Run.Rows(m) ensures Run.Rows(m)[p].Object() in Keys(t) {
      assert p in PathsOf(m);
      var e :| e in m && e.0 == p;
      var i :| 0 <= i < |m| && m[i] == e;
      Run.RowOf(m, i);
    }
  }

  lemma {:induction false} MeasuredInKeys(fs: Fs, relative: Path, t: Quiet.Tree)
    ensures forall e :: e in Measure(fs, relative, t) ==> e.1.Object() in Keys(t)
    decreases t
  {
    match t case Leaf(_) => case Dir(_, f) => ForestInKeys(fs, relative, f);
  }

  lemma {:induction false} ForestInKeys(fs: Fs, relative: Path, f: Quiet.Forest)
    ensures forall e :: e in ForestMeasure(fs, relative, f) ==> e.1.Object() in ForestKeySet(f)
    decreases f
  {
    match f
    case Nil =>
    case Cons(n, h, t) =>
      MeasuredInKeys(fs, relative + [n], h);
      ForestInKeys(fs, relative, t);
  }
}
