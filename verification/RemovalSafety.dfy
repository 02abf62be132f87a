/**
 * Safety of every removal run, whatever other processes do outside the
 * recovery directory: what each engine step may change, which names are
 * unlinked, and what becomes of a captured leaf.
 */
module RemovalSafety {
  import opened Prelude
  import opened Metadata
  import opened FileSystem
  import opened Removal

  // ---- Vocabulary -------------------------------------------------------

  predicate Reviewed(c: Ctx, k: Key) {
    exists p :: p in c.manifest && c.manifest[p].Object() == k
  }

  predicate HasRow(c: Ctx, n: Name) {
    exists p :: p in c.manifest && n == LeafName(c.operation, p)
  }

  /** Every name in the recovery directory is the recovery name of some committed row. */
  predicate RecoveryRows(c: Ctx, fs: Fs) {
    c.recovery in fs.dirs ==> forall n :: n in fs.dirs[c.recovery] ==> HasRow(c, n)
  }

  /** No name is pointed at another object. */
  predicate NoOverwrite(before: Fs, after: Fs) {
    forall d, n :: d in before.dirs && d in after.dirs && n in before.dirs[d] && n in after.dirs[d] ==>
      after.dirs[d][n] == before.dirs[d][n]
  }

  /** Only empty directories disappear. */
  predicate KeepsContents(before: Fs, after: Fs) {
    forall d :: d in before.dirs && d !in after.dirs ==> before.dirs[d] == map[]
  }

  /** What an engine step may do to the inode of a leaf: restamp it, or drop one link of a reviewed one. */
  predicate LeafInodeStep(before: Inode, after: Inode, reviewed: bool) {
    && after.(changed := before.changed, links := before.links) == before
    && (after.links == before.links || (reviewed && after.links == SatSub(before.links, 1)))
  }

  predicate KeepsLeaves(c: Ctx, before: Fs, after: Fs) {
    forall k :: k in before.inodes && k !in before.dirs ==>
      k in after.inodes && LeafInodeStep(before.inodes[k], after.inodes[k], Reviewed(c, k))
  }

  /** What any engine step may change, wherever the recovery directory is. */
  predicate SafeChange(c: Ctx, before: Fs, after: Fs) {
    NoOverwrite(before, after) && KeepsContents(before, after) && KeepsLeaves(c, before, after)
  }

  predicate SafeStep(c: Ctx, before: Fs, after: Fs) {
    SafeChange(c, before, after) && (RecoveryRows(c, before) ==> RecoveryRows(c, after))
  }

  /** A log entry has a committed row, and the unlinked inode is the one in that row. */
  predicate Sound(c: Ctx, e: Unlinked) {
    && e.relative in c.manifest
    && c.manifest[e.relative].Object() == e.target
    && e.seen.Object() == e.target
    && SameObject(c.manifest[e.relative], e.seen.identity)
    && (e.relative != [] ==> SameAfterRename(c.manifest[e.relative], e.seen.identity))
  }

  function NamesOf(s: State, dir: Key): set<Name> {
    if dir in s.fs.dirs then s.fs.dirs[dir].Keys else {}
  }

  function Regulars(log: seq<Unlinked>): nat {
    if log == [] then 0 else Regulars(log[..|log| - 1]) + if log[|log| - 1].seen.IsFile() then 1 else 0
  }

  /** The recovery directory is private, and was made after the review. */
  predicate Guarded(c: Ctx) { c.recovery in c.guarded && !Reviewed(c, c.recovery) }

  /** The file system before step `i` of the run that took `s0` to `s1`. */
  function Before(s0: State, s1: State, i: nat): Fs
    requires |s0.trace| <= i <= |s1.trace|
  {
    if i == |s0.trace| then s0.fs else s1.trace[i - 1].after
  }

  /** Turns are taken from the front. */
  predicate Later(before: seq<Turn>, after: seq<Turn>) {
    |after| <= |before| && after == before[|before| - |after|..]
  }

  lemma LaterTrans(x: seq<Turn>, y: seq<Turn>, z: seq<Turn>)
    requires Later(x, y) && Later(y, z)
    ensures Later(x, z)
  {
  }

  /** `s1` is reached from `s0` by safe engine steps, environment steps and sound removals. */
  predicate Run(c: Ctx, s0: State, s1: State) { Later(s0.turns, s1.turns) && Steps(c, s0, s1) }

  predicate Steps(c: Ctx, s0: State, s1: State) {
    && s0.trace <= s1.trace
    && s1.fs == Before(s0, s1, |s1.trace|)
    && (forall i :: |s0.trace| <= i < |s1.trace| ==> s1.trace[i].before == Before(s0, s1, i))
    && (forall i :: |s0.trace| <= i < |s1.trace| && s1.trace[i].engine ==>
          SafeStep(c, s1.trace[i].before, s1.trace[i].after))
    && (RecoveryRows(c, s0.fs) ==> forall i :: |s0.trace| <= i <= |s1.trace| ==> RecoveryRows(c, Before(s0, s1, i)))
    && s0.log <= s1.log
    && (forall i :: |s0.log| <= i < |s1.log| ==> Sound(c, s1.log[i]))
    && s1.removed.files + Regulars(s0.log) == s0.removed.files + Regulars(s1.log)
  }

  lemma RunTrans(c: Ctx, s0: State, s1: State, s2: State)
    requires Run(c, s0, s1) && Run(c, s1, s2)
    ensures Run(c, s0, s2)
  {
    hide Steps;
    LaterTrans(s0.turns, s1.turns, s2.turns);
    StepsTrans(c, s0, s1, s2);
  }

  lemma StepsTrans(c: Ctx, s0: State, s1: State, s2: State)
    requires Steps(c, s0, s1) && Steps(c, s1, s2)
    ensures Steps(c, s0, s2)
  {
    assert forall i :: |s0.trace| <= i <= |s1.trace| ==> Before(s0, s2, i) == Before(s0, s1, i);
    assert forall i :: |s1.trace| <= i <= |s2.trace| ==> Before(s0, s2, i) == Before(s1, s2, i);
    assert forall i :: |s0.log| <= i < |s1.log| ==> s2.log[i] == s1.log[i];
    assert forall i :: |s0.trace| <= i < |s1.trace| ==> s2.trace[i] == s1.trace[i];
  }

  // ---- Engine steps -----------------------------------------------------

  lemma RenameIsSafe(c: Ctx, fs: Fs, from: Key, name: Name, to: Key, dest: Name)
    requires CanRename(fs, from, name, to, dest)
    requires to == c.recovery ==> HasRow(c, dest)
    ensures SafeStep(c, fs, Rename(fs, from, name, to, dest))
  {
  }

  lemma UnlinkIsSafe(c: Ctx, fs: Fs, dir: Key, name: Name)
    requires CanUnlink(fs, dir, name) && Reviewed(c, fs.dirs[dir][name])
    ensures SafeStep(c, fs, Unlink(fs, dir, name))
  {
  }

  lemma RemoveDirIsSafe(c: Ctx, fs: Fs, dir: Key, name: Name)
    requires CanRemoveDir(fs, dir, name)
    ensures SafeStep(c, fs, RemoveDir(fs, dir, name))
  {
  }

  /** Only the environment acted: nothing of the engine's changed, and no guarded name. */
  predicate Idle(c: Ctx, s0: State, s1: State) {
    && Run(c, s0, s1)
    && s1.log == s0.log && s1.removed == s0.removed && s1.groups == s0.groups && s1.completed == s0.completed
    && Allowed(c.guarded, s0.fs, s1.fs)
    && (forall i :: |s0.trace| <= i <= |s1.trace| ==> Allowed(c.guarded, s0.fs, Before(s0, s1, i)))
    && (forall i :: |s0.trace| <= i < |s1.trace| ==> !s1.trace[i].engine)
  }

  lemma IdleTrans(c: Ctx, s0: State, s1: State, s2: State)
    requires Idle(c, s0, s1) && Idle(c, s1, s2)
    ensures Idle(c, s0, s2)
    ensures Guarded(c) ==> NamesOf(s2, c.recovery) == NamesOf(s0, c.recovery)
  {
    RunTrans(c, s0, s1, s2);
    forall i | |s0.trace| <= i <= |s2.trace|
      ensures Allowed(c.guarded, s0.fs, Before(s0, s2, i))
    {
      assert Before(s0, s2, i) == if i <= |s1.trace| then Before(s0, s1, i) else Before(s1, s2, i);
    }
  }

  lemma TickIdles(c: Ctx, s: State)
    requires Guarded(c)
    ensures Idle(c, s, Tick(c, s).0) && NamesOf(Tick(c, s).0, c.recovery) == NamesOf(s, c.recovery)
  {
    hide SafeStep, Sound, Regulars;
  }

  lemma TickRuns(c: Ctx, s: State)
    requires Guarded(c)
    ensures Run(c, s, Tick(c, s).0) && NamesOf(Tick(c, s).0, c.recovery) == NamesOf(s, c.recovery)
    ensures SameBooks(s, Tick(c, s).0)
  {
    TickIdles(c, s);
    hide Tick, Run, Allowed;
  }

  lemma PutRuns(c: Ctx, s: State, fs: Fs)
    requires SafeStep(c, s.fs, fs)
    ensures Run(c, s, Put(s, fs))
  {
  }

  // ---- The captured leaf ------------------------------------------------

  lemma InspectIdles(c: Ctx, s: State, captured: Name, expected: EntryMeta, linked: bool)
    requires Guarded(c)
    ensures var (s', checked) := Inspect(c, s, captured, expected, linked);
      && Idle(c, s, s') && NamesOf(s', c.recovery) == NamesOf(s, c.recovery)
      && (checked.Some? ==>
            && SameLinkTransition(expected, checked.value.current, expected.links)
            && (checked.value.current.IsFile() && checked.value.private.Some? ==> checked.value.current.links == 1))
  {
    hide Run, Allowed;
    var (s1, t1) := Tick(c, s);
    TickIdles(c, s);
    var (s2, t2) := Tick(c, s1);
    TickIdles(c, s1);
    IdleTrans(c, s, s1, s2);
    TickIdles(c, s2);
    IdleTrans(c, s, s2, Tick(c, s2).0);
  }

  /** The effect of the group bookkeeping after a confirmed unlink of `current`. */
  predicate Followed(before: map<Key, LinkRemoval>, after: map<Key, LinkRemoval>, current: EntryMeta, linked: bool) {
    if !linked then after == before
    else
      var o := current.Object();
      && o in before && current.links > 0
      && o in after && after.Keys == before.Keys
      && (forall k :: k in before && k != o ==> after[k] == before[k])
      && after[o].reviewed == before[o].reviewed
      && SameLinkTransition(current, after[o].current, current.links - 1)
  }

  /** Groups and private bytes are not part of what a run keeps. */
  lemma BooksRun(c: Ctx, s: State, s1: State, s2: State)
    requires Run(c, s, s1) && s2 == s1.(groups := s2.groups, removed := s2.removed)
    requires s2.removed.files == s1.removed.files
    ensures Run(c, s, s2)
  {
    assert forall i :: |s.trace| <= i <= |s1.trace| ==> Before(s, s2, i) == Before(s, s1, i);
    hide SafeStep, RecoveryRows, Sound, Later;
  }

  /** What the bookkeeping after an unlink may change. */
  lemma SettleBooks(c: Ctx, s: State, checked: Checked, linked: bool)
    ensures var (s', ending) := Settle(c, s, checked, linked);
      var s1 := Tick(c, s).0;
      && s' == s1.(groups := s'.groups, removed := s'.removed)
      && s1.log == s.log && s1.completed == s.completed && s'.removed.files == s.removed.files == s1.removed.files
      && NamesOf(s', c.recovery) == NamesOf(s1, c.recovery)
      && ending != Kept
      && (ending == Gone ==> linked && s'.groups == s.groups && s'.removed == s.removed)
      && (ending == Complete ==> Followed(s.groups, s'.groups, checked.current, linked))
  {
    hide Allowed;
  }

  lemma SettleRuns(c: Ctx, s: State, checked: Checked, linked: bool)
    requires Guarded(c)
    ensures var (s', ending) := Settle(c, s, checked, linked);
      && Run(c, s, s') && s'.log == s.log && s'.completed == s.completed && s'.removed.files == s.removed.files
      && NamesOf(s', c.recovery) == NamesOf(s, c.recovery)
      && ending != Kept
      && (ending == Gone ==> linked && s'.groups == s.groups && s'.removed == s.removed)
      && (ending == Complete ==> Followed(s.groups, s'.groups, checked.current, linked))
  {
    hide *;
    TickRuns(c, s);
    SettleBooks(c, s, checked, linked);
    BooksRun(c, s, Tick(c, s).0, Settle(c, s, checked, linked).0);
  }

  lemma CommitRuns(c: Ctx, s: State, captured: Name, relative: Path, current: EntryMeta)
    requires CanUnlink(s.fs, c.recovery, captured) && s.fs.dirs[c.recovery][captured] == current.Object()
    requires Sound(c, Unlinked(relative, current.Object(), current))
    ensures Run(c, s, CommitUnlink(c, s, captured, relative, current))
  {
    assert Reviewed(c, current.Object());
    UnlinkIsSafe(c, s.fs, c.recovery, captured);
    var s3 := CommitUnlink(c, s, captured, relative, current);
    assert s3.log[..|s3.log| - 1] == s.log;
  }

  lemma FinishRuns(c: Ctx, s: State, captured: Name, relative: Path, checked: Checked, linked: bool)
    requires Guarded(c) && Sound(c, Unlinked(relative, checked.current.Object(), checked.current))
    ensures var (s', ending) := Finish(c, s, captured, relative, checked, linked);
      && Run(c, s, s')
      && (ending == Kept ==> Idle(c, s, s') && NamesOf(s', c.recovery) == NamesOf(s, c.recovery))
      && (ending != Kept ==>
            && s'.log == s.log + [Unlinked(relative, checked.current.Object(), checked.current)]
            && NamesOf(s', c.recovery) == NamesOf(s, c.recovery) - {captured})
      && (ending == Gone ==> linked && s'.groups == s.groups)
      && (ending == Complete ==> Followed(s.groups, s'.groups, checked.current, linked))
  {
    var current := checked.current;
    var (s1, t1) := Tick(c, s);
    TickIdles(c, s);
    if !(t1.cancelled || t1.fault || Stat(s1.fs, c.recovery, captured) != Some(current)) {
      var (s2, t2) := Tick(c, s1);
      TickIdles(c, s1);
      IdleTrans(c, s, s1, s2);
      if !(t2.fault || !CanUnlink(s2.fs, c.recovery, captured)) {
        CommitRuns(c, s2, captured, relative, current);
        var s3 := CommitUnlink(c, s2, captured, relative, current);
        SettleRuns(c, s3, checked, linked);
        RunTrans(c, s, s2, s3);
        RunTrans(c, s, s3, Settle(c, s3, checked, linked).0);
      }
    }
  }

  // ---- The fate of a leaf -----------------------------------------------

  predicate Holds(fs: Fs, dir: Key, name: Name, k: Key) {
    Named(fs, dir, name) && fs.dirs[dir][name] == k
  }

  /** Step `j` of the run captured `k` from its name, and the recovery name has held it ever since, up to step `end`. */
  predicate HeldSince(c: Ctx, s0: State, s1: State, parent: Key, name: Name, captured: Name, k: Key, j: nat, end: nat)
    requires |s0.trace| <= j < end <= |s1.trace|
  {
    && s1.trace[j].engine
    && Holds(Before(s0, s1, j), parent, name, k)
    && (forall i :: j < i <= end ==> Holds(Before(s0, s1, i), c.recovery, captured, k))
  }

  lemma RenameMoves(fs: Fs, from: Key, name: Name, to: Key, dest: Name)
    requires CanRename(fs, from, name, to, dest) && from != to
    ensures Holds(Rename(fs, from, name, to, dest), to, dest, fs.dirs[from][name])
    ensures Rename(fs, from, name, to, dest).dirs[to].Keys == fs.dirs[to].Keys + {dest}
    ensures from in Rename(fs, from, name, to, dest).dirs
    ensures Rename(fs, from, name, to, dest).dirs[from].Keys == fs.dirs[from].Keys - {name}
  {
  }

  lemma CapturingRename(c: Ctx, s0: State, s: State, parent: Key, name: Name, captured: Name)
    requires Guarded(c) && Idle(c, s0, s) && parent != c.recovery
    requires HasRow(c, captured) && CanRename(s.fs, parent, name, c.recovery, captured)
    ensures var s' := Put(s, Rename(s.fs, parent, name, c.recovery, captured));
      && Run(c, s0, s')
      && |s0.trace| < |s'.trace| && SameBooks(s0, s')
      && NamesOf(s', c.recovery) == NamesOf(s, c.recovery) + {captured}
      && captured !in NamesOf(s, c.recovery)
      && HeldSince(c, s0, s', parent, name, captured, s'.fs.dirs[c.recovery][captured], |s'.trace| - 1, |s'.trace|)
  {
    var fs := Rename(s.fs, parent, name, c.recovery, captured);
    RenameIsSafe(c, s.fs, parent, name, c.recovery, captured);
    RenameMoves(s.fs, parent, name, c.recovery, captured);
    assert captured !in NamesOf(s, c.recovery);
    hide SafeStep, Allowed, Rename, CanRename;
    PutRuns(c, s, fs);
    RunTrans(c, s0, s, Put(s, fs));
    assert Before(s0, Put(s, fs), |s.trace|) == s.fs;
  }

  lemma CaptureRuns(c: Ctx, s: State, parent: Key, name: Name, relative: Path, expected: EntryMeta, linked: bool)
    requires Guarded(c) && relative in c.manifest && parent != c.recovery
    ensures var captured := LeafName(c.operation, relative);
      var (s', got) := Capture(c, s, parent, name, captured, expected, linked);
      && Run(c, s, s')
      && SameBooks(s, s')
      && (!got ==> Idle(c, s, s') && NamesOf(s', c.recovery) == NamesOf(s, c.recovery))
      && (got ==>
            && captured in NamesOf(s', c.recovery)
            && |s.trace| < |s'.trace|
            && NamesOf(s', c.recovery) == NamesOf(s, c.recovery) + {captured}
            && captured !in NamesOf(s, c.recovery)
            && HeldSince(c, s, s', parent, name, captured, s'.fs.dirs[c.recovery][captured],
                         |s'.trace| - 1, |s'.trace|))
  {
    var captured := LeafName(c.operation, relative);
    assert HasRow(c, captured);
    ThreeTurns(c, s);
    CaptureTakes(c, s, parent, name, captured, expected, linked);
    hide *;
    var (s', got) := Capture(c, s, parent, name, captured, expected, linked);
    if got {
      var s3 := Tick(c, Tick(c, Tick(c, s).0).0).0;
      CapturingRename(c, s, s3, parent, name, captured);
      Captured(c, s3, parent, name, captured);
    }
  }

  /** A capture ends after one of three turns, or by the rename after the third. */
  lemma CaptureTakes(c: Ctx, s: State, parent: Key, name: Name, captured: Name, expected: EntryMeta, linked: bool)
    ensures var (s', got) := Capture(c, s, parent, name, captured, expected, linked);
      var s1 := Tick(c, s).0;
      var s2 := Tick(c, s1).0;
      var s3 := Tick(c, s2).0;
      if got then
        && CanRename(s3.fs, parent, name, c.recovery, captured)
        && s' == Put(s3, Rename(s3.fs, parent, name, c.recovery, captured))
      else s' == s1 || s' == s2 || s' == s3
  {
    hide Tick, Rename, CanRename, Stat;
  }

  lemma ThreeTurns(c: Ctx, s: State)
    requires Guarded(c)
    ensures var s1 := Tick(c, s).0;
      var s2 := Tick(c, s1).0;
      var s3 := Tick(c, s2).0;
      && Idle(c, s, s1) && Idle(c, s, s2) && Idle(c, s, s3)
      && Run(c, s, s1) && Run(c, s, s2) && Run(c, s, s3)
      && SameBooks(s, s1) && SameBooks(s, s2) && SameBooks(s, s3)
      && NamesOf(s1, c.recovery) == NamesOf(s2, c.recovery) == NamesOf(s3, c.recovery) == NamesOf(s, c.recovery)
  {
    var s1 := Tick(c, s).0;
    var s2 := Tick(c, s1).0;
    var s3 := Tick(c, s2).0;
    TickIdles(c, s);
    TickIdles(c, s1);
    TickIdles(c, s2);
    hide Tick, Run;
    IdleTrans(c, s, s1, s2);
    IdleTrans(c, s, s2, s3);
    hide Allowed;
  }

  lemma Captured(c: Ctx, s: State, parent: Key, name: Name, captured: Name)
    requires parent != c.recovery && CanRename(s.fs, parent, name, c.recovery, captured)
    ensures captured in NamesOf(Put(s, Rename(s.fs, parent, name, c.recovery, captured)), c.recovery)
  {
    RenameMoves(s.fs, parent, name, c.recovery, captured);
    hide Rename, CanRename;
  }

  lemma KeptIdle(c: Ctx, s0: State, s1: State, s2: State, parent: Key, name: Name, captured: Name, k: Key, j: nat)
    requires Guarded(c) && Run(c, s0, s1) && Idle(c, s1, s2)
    requires |s0.trace| <= j < |s1.trace| && HeldSince(c, s0, s1, parent, name, captured, k, j, |s1.trace|)
    ensures Run(c, s0, s2) && |s1.trace| <= |s2.trace|
    ensures HeldSince(c, s0, s2, parent, name, captured, k, j, |s2.trace|)
  {
    RunTrans(c, s0, s1, s2);
    assert s1.trace <= s2.trace && s1.fs == Before(s0, s1, |s1.trace|);
    hide Run;
    assert Holds(s1.fs, c.recovery, captured, k);
    assert s2.trace[j] == s1.trace[j] && Before(s0, s2, j) == Before(s0, s1, j);
    forall i | j < i <= |s2.trace| ensures Holds(Before(s0, s2, i), c.recovery, captured, k) {
      if i <= |s1.trace| { assert Before(s0, s2, i) == Before(s0, s1, i); }
      else { assert Before(s0, s2, i) == Before(s1, s2, i) && Allowed(c.guarded, s1.fs, Before(s1, s2, i)); }
    }
  }

  predicate SameBooks(s0: State, s1: State) {
    s1.log == s0.log && s1.removed == s0.removed && s1.groups == s0.groups && s1.completed == s0.completed
  }

  /** Some step captured `k`, and the recovery name held it from then up to step `end`. */
  predicate HeldUntil(c: Ctx, s0: State, s1: State, parent: Key, name: Name, captured: Name, k: Key, end: nat)
    requires end <= |s1.trace|
  {
    exists j :: |s0.trace| <= j < end && HeldSince(c, s0, s1, parent, name, captured, k, j, end)
  }

  /** The captured inode `k` is back under its own name, having been in the recovery directory until the last step. */
  predicate IsPutBack(c: Ctx, s0: State, s1: State, parent: Key, name: Name, captured: Name, k: Key) {
    && Holds(s1.fs, parent, name, k)
    && |s1.trace| > 0
    && HeldUntil(c, s0, s1, parent, name, captured, k, |s1.trace| - 1)
  }

  /** The call after the last turn failed. */
  predicate LastFailed(s0: State, s1: State) {
    |s1.turns| < |s0.turns| && s0.turns[|s0.turns| - |s1.turns| - 1].fault
  }

  /** Nothing can be renamed from the recovery directory to that name. */
  predicate Obstructed(c: Ctx, fs: Fs, parent: Key, name: Name) {
    parent !in fs.dirs || parent.device != c.recovery.device || name in fs.dirs[parent]
  }

  /** Why a captured leaf could not be put back. */
  predicate Unreturnable(c: Ctx, s0: State, s1: State, parent: Key, name: Name) {
    LastFailed(s0, s1) || Obstructed(c, s1.fs, parent, name)
  }

  lemma FailureLifts(s0: State, s1: State, s2: State)
    requires Later(s0.turns, s1.turns) && Later(s1.turns, s2.turns)
    ensures LastFailed(s1, s2) ==> LastFailed(s0, s2)
    ensures |s2.turns| < |s1.turns| && LastFailed(s0, s2) ==> LastFailed(s1, s2)
  {
  }

  /** The captured inode `k` is still in the recovery directory, and has been since its capture. */
  predicate IsRetained(c: Ctx, s0: State, s1: State, parent: Key, name: Name, captured: Name, k: Key) {
    HeldUntil(c, s0, s1, parent, name, captured, k, |s1.trace|)
  }

  lemma ReturningRename(c: Ctx, s0: State, s: State, parent: Key, name: Name, captured: Name, k: Key, j: nat)
    requires parent != c.recovery && CanRename(s.fs, c.recovery, captured, parent, name)
    requires |s0.trace| <= j < |s.trace| && HeldSince(c, s0, s, parent, name, captured, k, j, |s.trace|)
    requires s.fs == Before(s0, s, |s.trace|)
    ensures IsPutBack(c, s0, Put(s, Rename(s.fs, c.recovery, captured, parent, name)), parent, name, captured, k)
  {
    assert Holds(Before(s0, s, |s.trace|), c.recovery, captured, k);
    var fs := Rename(s.fs, c.recovery, captured, parent, name);
    RenameMoves(s.fs, c.recovery, captured, parent, name);
    HeldPut(c, s0, s, fs, parent, name, captured, k, j);
    hide Rename, CanRename;
  }

  lemma HeldPut(c: Ctx, s0: State, s: State, fs: Fs, parent: Key, name: Name, captured: Name, k: Key, j: nat)
    requires |s0.trace| <= j < |s.trace| && HeldSince(c, s0, s, parent, name, captured, k, j, |s.trace|)
    ensures HeldSince(c, s0, Put(s, fs), parent, name, captured, k, j, |s.trace|)
  {
    assert forall i :: |s0.trace| <= i <= |s.trace| ==> Before(s0, Put(s, fs), i) == Before(s0, s, i);
  }

  /** Putting it back, from the state the turn left. */
  lemma PutBackRuns(c: Ctx, s0: State, s: State, parent: Key, name: Name, captured: Name, k: Key, j: nat)
    requires parent != c.recovery && Run(c, s0, s) && CanRename(s.fs, c.recovery, captured, parent, name)
    requires |s0.trace| <= j < |s.trace| && HeldSince(c, s0, s, parent, name, captured, k, j, |s.trace|)
    ensures var s' := Put(s, Rename(s.fs, c.recovery, captured, parent, name));
      && Run(c, s0, s') && SameBooks(s, s') && IsPutBack(c, s0, s', parent, name, captured, k)
      && NamesOf(s', c.recovery) == NamesOf(s, c.recovery) - {captured}
  {
    var fs := Rename(s.fs, c.recovery, captured, parent, name);
    RenameIsSafe(c, s.fs, c.recovery, captured, parent, name);
    RenameMoves(s.fs, c.recovery, captured, parent, name);
    hide SafeStep, Rename, CanRename, IsPutBack, HeldSince, Later;
    PutRuns(c, s, fs);
    RunTrans(c, s0, s, Put(s, fs));
    assert s.fs == Before(s0, s, |s.trace|);
    hide Run, Before;
    ReturningRename(c, s0, s, parent, name, captured, k, j);
  }

  /** Either it is put back, or its name cannot be given back. */
  lemma ReturnDecides(c: Ctx, s: State, parent: Key, name: Name, captured: Name, k: Key)
    requires Guarded(c) && Holds(Tick(c, s).0.fs, c.recovery, captured, k)
    ensures var (s', fate) := Return(c, s, parent, name, captured);
      var s1 := Tick(c, s).0;
      && (fate == PutBack(k) || fate == Retained(k))
      && (fate == PutBack(k) ==>
            && CanRename(s1.fs, c.recovery, captured, parent, name)
            && s' == Put(s1, Rename(s1.fs, c.recovery, captured, parent, name)))
      && (fate == Retained(k) ==> s' == s1 && Unreturnable(c, s, s', parent, name))
      && (fate == PutBack(k) && s.turns != [] ==> !LastFailed(s, s') && |s'.turns| < |s.turns|)
      && (s.turns == [] ==> s'.turns == []) && s'.turns == s1.turns
  {
    hide Allowed, Rename;
  }

  lemma ReturnStarts(c: Ctx, s0: State, s: State, parent: Key, name: Name, captured: Name, k: Key, j: nat)
    requires Guarded(c) && Run(c, s0, s)
    requires |s0.trace| <= j < |s.trace| && HeldSince(c, s0, s, parent, name, captured, k, j, |s.trace|)
    ensures var s1 := Tick(c, s).0;
      && Run(c, s0, s1) && SameBooks(s, s1) && Later(s0.turns, s.turns) && Later(s.turns, s1.turns)
      && NamesOf(s1, c.recovery) == NamesOf(s, c.recovery) && |s.trace| <= |s1.trace|
      && HeldSince(c, s0, s1, parent, name, captured, k, j, |s1.trace|)
      && Holds(s1.fs, c.recovery, captured, k)
  {
    var s1 := Tick(c, s).0;
    TickIdles(c, s);
    hide Tick, Allowed, Holds, Before, NamesOf;
    KeptIdle(c, s0, s, s1, parent, name, captured, k, j);
    assert Holds(Before(s0, s1, |s1.trace|), c.recovery, captured, k);
    assert s1.fs == Before(s0, s1, |s1.trace|);
  }

  lemma BooksTrans(s0: State, s1: State, s2: State)
    requires SameBooks(s0, s1) && SameBooks(s1, s2)
    ensures SameBooks(s0, s2)
  {
  }

  lemma StillRetained(c: Ctx, s0: State, s1: State, parent: Key, name: Name, captured: Name, k: Key, j: nat)
    requires |s0.trace| <= j < |s1.trace| && HeldSince(c, s0, s1, parent, name, captured, k, j, |s1.trace|)
    ensures IsRetained(c, s0, s1, parent, name, captured, k)
  {
  }

  lemma FailureStays(c: Ctx, s0: State, s: State, s1: State, parent: Key, name: Name)
    requires Later(s0.turns, s.turns) && Later(s.turns, s1.turns) && Unreturnable(c, s, s1, parent, name)
    ensures Unreturnable(c, s0, s1, parent, name)
  {
    FailureLifts(s0, s, s1);
  }

  lemma ReturnRuns(c: Ctx, s0: State, s: State, parent: Key, name: Name, captured: Name, k: Key, j: nat)
    requires Guarded(c) && parent != c.recovery && Run(c, s0, s)
    requires |s0.trace| <= j < |s.trace| && HeldSince(c, s0, s, parent, name, captured, k, j, |s.trace|)
    ensures var (s', fate) := Return(c, s, parent, name, captured);
      && Run(c, s0, s') && SameBooks(s, s')
      && (fate == PutBack(k) || fate == Retained(k))
      && (fate == PutBack(k) ==>
            && IsPutBack(c, s0, s', parent, name, captured, k)
            && NamesOf(s', c.recovery) == NamesOf(s, c.recovery) - {captured})
      && (fate == Retained(k) ==>
            IsRetained(c, s0, s', parent, name, captured, k) && NamesOf(s', c.recovery) == NamesOf(s, c.recovery))
      && (fate == Retained(k) ==> Unreturnable(c, s0, s', parent, name))
      && (fate == PutBack(k) && s'.turns != [] ==> !LastFailed(s0, s'))
  {
    hide *;
    var s1 := Tick(c, s).0;
    ReturnStarts(c, s0, s, parent, name, captured, k, j);
    ReturnDecides(c, s, parent, name, captured, k);
    var (s', fate) := Return(c, s, parent, name, captured);
    if fate == PutBack(k) {
      PutBackRuns(c, s0, s1, parent, name, captured, k, j);
      BooksTrans(s, s1, s');
      if s'.turns != [] { FailureLifts(s0, s, s'); }
    } else {
      StillRetained(c, s0, s1, parent, name, captured, k, j);
      FailureStays(c, s0, s, s1, parent, name);
    }
  }

  // ---- remove_leaf ------------------------------------------------------

  /** The log grew by the removal of `expected`'s inode for row `relative`, seen as the check accepted it. */
  predicate Logged(s0: State, s1: State, relative: Path, expected: EntryMeta) {
    && |s1.log| == |s0.log| + 1
    && s0.log <= s1.log
    && var e := s1.log[|s0.log|];
       e.relative == relative && e.target == expected.Object() && SameLinkTransition(expected, e.seen, expected.links)
  }

  predicate LeafOutcome(c: Ctx, s0: State, s1: State, v: Verdict, parent: Key, name: Name, relative: Path,
                        expected: EntryMeta, linked: bool) {
    var captured := LeafName(c.operation, relative);
    && NamesOf(s1, c.recovery) == NamesOf(s0, c.recovery) + (if v.Stopped? && v.fate.Retained? then {captured} else {})
    && match v
    case Fine =>
      && Logged(s0, s1, relative, expected)
      && Followed(s0.groups, s1.groups, s1.log[|s0.log|].seen, linked)
    case Stopped(Untouched) => Idle(c, s0, s1)
    case Stopped(PutBack(k)) =>
      && SameBooks(s0, s1) && IsPutBack(c, s0, s1, parent, name, captured, k)
      && (s1.turns != [] ==> !LastFailed(s0, s1))
    case Stopped(Retained(k)) =>
      && SameBooks(s0, s1) && IsRetained(c, s0, s1, parent, name, captured, k)
      && Unreturnable(c, s0, s1, parent, name)
    case Stopped(GoneUnconfirmed) =>
      linked && Logged(s0, s1, relative, expected) && s1.groups == s0.groups && !s1.removed.privateKnown
  }

  lemma ProcessRuns(c: Ctx, s: State, captured: Name, relative: Path, expected: EntryMeta, linked: bool)
    requires Guarded(c) && Sound(c, Unlinked(relative, expected.Object(), expected))
    ensures var (s', ending) := Process(c, s, captured, relative, expected, linked);
      && Run(c, s, s')
      && (ending == Kept ==> Idle(c, s, s') && SameBooks(s, s') && NamesOf(s', c.recovery) == NamesOf(s, c.recovery))
      && (ending != Kept ==>
            Logged(s, s', relative, expected) && NamesOf(s', c.recovery) == NamesOf(s, c.recovery) - {captured})
      && (ending == Gone ==> linked && s'.groups == s.groups)
      && (ending == Complete ==> Followed(s.groups, s'.groups, s'.log[|s.log|].seen, linked))
  {
    hide Run, Allowed;
    InspectIdles(c, s, captured, expected, linked);
    var (s1, checked) := Inspect(c, s, captured, expected, linked);
    if checked.Some? {
      FinishRuns(c, s1, captured, relative, checked.value, linked);
      var (s2, ending) := Finish(c, s1, captured, relative, checked.value, linked);
      RunTrans(c, s, s1, s2);
      if ending == Kept { IdleTrans(c, s, s1, s2); }
    }
  }

  /**
   * Every exit of `remove_leaf`: the inode unlinked is the reviewed one, a
   * captured leaf is never lost, it stays captured only if its name cannot be
   * given back, and a removal that could not be confirmed forfeits the private
   * byte count.
   */
  lemma LeafRuns(c: Ctx, s: State, parent: Key, name: Name, relative: Path, expected: EntryMeta, linked: bool)
    requires Guarded(c) && parent != c.recovery && Sound(c, Unlinked(relative, expected.Object(), expected))
    ensures var (s', v) := RemoveLeaf(c, s, parent, name, relative, expected, linked);
      Run(c, s, s') && LeafOutcome(c, s, s', v, parent, name, relative, expected, linked)
  {
    hide Run, Allowed, HeldSince, IsPutBack, HeldUntil, Capture, Process, Return, Followed, Idle;
    var captured := LeafName(c.operation, relative);
    CaptureRuns(c, s, parent, name, relative, expected, linked);
    var (s1, got) := Capture(c, s, parent, name, captured, expected, linked);
    if got {
      ProcessRuns(c, s1, captured, relative, expected, linked);
      var (s2, ending) := Process(c, s1, captured, relative, expected, linked);
      RunTrans(c, s, s1, s2);
      match ending
      case Complete =>
      case Gone =>
        ForfeitRuns(c, s, s2);
      case Kept =>
        var k := s1.fs.dirs[c.recovery][captured];
        KeptIdle(c, s, s1, s2, parent, name, captured, k, |s1.trace| - 1);
        ReturnRuns(c, s, s2, parent, name, captured, k, |s1.trace| - 1);
    }
  }

  lemma ForfeitRuns(c: Ctx, s0: State, s: State)
    requires Run(c, s0, s)
    ensures Run(c, s0, s.(removed := s.removed.(privateKnown := false)))
  {
    var s' := s.(removed := s.removed.(privateKnown := false));
    assert forall i :: |s0.trace| <= i <= |s.trace| ==> Before(s0, s', i) == Before(s0, s, i);
  }
}
