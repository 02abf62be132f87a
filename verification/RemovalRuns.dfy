/** Theorems about whole removal runs: safety and hard-link conservation, over every tree walk. */
module RemovalRuns {
  import opened Prelude
  import opened Metadata
  import opened FileSystem
  import opened Removal
  import opened RemovalSafety

  /** Each group follows one regular inode whose reviewed contents it still has. */
  predicate GroupsSound(groups: map<Key, LinkRemoval>) {
    forall k :: k in groups ==>
      && groups[k].current.Object() == k
      && groups[k].current.IsFile()
      && SameAfterRename(groups[k].reviewed, groups[k].current.identity)
  }

  /** How many names of the regular inode `k` the engine has unlinked. */
  function Unlinks(log: seq<Unlinked>, k: Key): nat {
    if log == [] then 0
    else Unlinks(log[..|log| - 1], k) + if log[|log| - 1].target == k && log[|log| - 1].seen.IsFile() then 1 else 0
  }

  function Account(s: State, k: Key): nat
    requires k in s.groups
  {
    s.groups[k].current.links + Unlinks(s.log, k)
  }

  /** Links still expected plus aliases removed is constant for every group but `gone`, which is one over. */
  predicate Conserves(s0: State, s1: State, gone: Option<Key>) {
    && s1.groups.Keys == s0.groups.Keys
    && forall k :: k in s0.groups ==>
         && s1.groups[k].reviewed == s0.groups[k].reviewed
         && Account(s1, k) == Account(s0, k) + if gone == Some(k) then 1 else 0
  }

  /** The leaf a stopped walk captured last, for row `p`, is back under the name it was captured from. */
  ghost predicate BackFor(c: Ctx, s0: State, s1: State, k: Key, p: Path) {
    p in c.manifest && exists d, n :: IsPutBack(c, s0, s1, d, n, LeafName(c.operation, p), k)
  }

  /**
   * That leaf is still where it was captured to, under the recovery name of
   * its row, the only one added, and its own name could not be given back.
   */
  ghost predicate LeftFor(c: Ctx, s0: State, s1: State, k: Key, p: Path) {
    && p in c.manifest
    && NamesOf(s1, c.recovery) <= NamesOf(s0, c.recovery) + {LeafName(c.operation, p)}
    && Holds(s1.fs, c.recovery, LeafName(c.operation, p), k)
    && exists d, n :: IsRetained(c, s0, s1, d, n, LeafName(c.operation, p), k) && Unreturnable(c, s0, s1, d, n)
  }

  /** No captured leaf is lost: at most one is left behind, and one that was put back is at its own name. */
  ghost predicate Leftover(c: Ctx, s0: State, s1: State, v: Verdict) {
    match v
    case Stopped(Retained(k)) => exists p :: LeftFor(c, s0, s1, k, p)
    case Stopped(PutBack(k)) =>
      NamesOf(s1, c.recovery) <= NamesOf(s0, c.recovery) && exists p :: BackFor(c, s0, s1, k, p)
    case _ => NamesOf(s1, c.recovery) <= NamesOf(s0, c.recovery)
  }

  /** What is true of the end of a run from `s1` is true of it as a run from `s0`. */
  lemma HeldLifts(c: Ctx, s0: State, s1: State, s2: State, d: Key, n: Name, captured: Name, k: Key, end: nat)
    requires Run(c, s0, s1) && Run(c, s1, s2) && end <= |s2.trace|
    requires HeldUntil(c, s1, s2, d, n, captured, k, end)
    ensures HeldUntil(c, s0, s2, d, n, captured, k, end)
  {
    LongerTrace(c, s0, s1, s2);
    hide Run, Holds;
    var j :| |s1.trace| <= j < end && HeldSince(c, s1, s2, d, n, captured, k, j, end);
    SameBefore(s0, s1, s2, j);
    forall i | j < i <= end ensures Holds(Before(s0, s2, i), c.recovery, captured, k) {
      assert Holds(Before(s1, s2, i), c.recovery, captured, k);
      SameBefore(s0, s1, s2, i);
    }
    hide Before;
    assert HeldSince(c, s0, s2, d, n, captured, k, j, end);
  }

  lemma SameBefore(s0: State, s1: State, s2: State, i: nat)
    requires |s0.trace| <= |s1.trace| <= i <= |s2.trace| && Before(s0, s2, |s1.trace|) == s1.fs
    ensures Before(s0, s2, i) == Before(s1, s2, i)
  {
  }

  lemma LongerTrace(c: Ctx, s0: State, s1: State, s2: State)
    requires Run(c, s0, s1) && Run(c, s1, s2)
    ensures |s0.trace| <= |s1.trace| <= |s2.trace| && s1.trace <= s2.trace
    ensures Before(s0, s2, |s1.trace|) == s1.fs
  {
    hide SafeStep, RecoveryRows, Sound, Regulars;
  }

  lemma LaterRuns(c: Ctx, s0: State, s1: State)
    requires Run(c, s0, s1)
    ensures Later(s0.turns, s1.turns)
  {
    hide SafeStep, RecoveryRows, Sound, Regulars, Later;
  }

  lemma LeftoverLifts(c: Ctx, s0: State, s1: State, s2: State, v: Verdict)
    requires Run(c, s0, s1) && Run(c, s1, s2) && Leftover(c, s1, s2, v)
    requires NamesOf(s1, c.recovery) <= NamesOf(s0, c.recovery)
    ensures Leftover(c, s0, s2, v)
  {
    hide Run, HeldUntil, Holds, Later;
    match v {
      case Stopped(Retained(k)) =>
        var p :| LeftFor(c, s1, s2, k, p);
        var d, n :| IsRetained(c, s1, s2, d, n, LeafName(c.operation, p), k) && Unreturnable(c, s1, s2, d, n);
        HeldLifts(c, s0, s1, s2, d, n, LeafName(c.operation, p), k, |s2.trace|);
        LaterRuns(c, s0, s1);
        LaterRuns(c, s1, s2);
        FailureLifts(s0, s1, s2);
        assert IsRetained(c, s0, s2, d, n, LeafName(c.operation, p), k);
        assert LeftFor(c, s0, s2, k, p);
      case Stopped(PutBack(k)) =>
        var p :| BackFor(c, s1, s2, k, p);
        var d, n :| IsPutBack(c, s1, s2, d, n, LeafName(c.operation, p), k);
        HeldLifts(c, s0, s1, s2, d, n, LeafName(c.operation, p), k, |s2.trace| - 1);
        assert IsPutBack(c, s0, s2, d, n, LeafName(c.operation, p), k);
        assert BackFor(c, s0, s2, k, p);
      case _ =>
    }
  }

  /** What any run of the walk, however it ends, leaves true. */
  ghost predicate Walked(c: Ctx, s0: State, s1: State, v: Verdict) {
    && Run(c, s0, s1)
    && GroupsSound(s1.groups)
    && Leftover(c, s0, s1, v)
    && (v != Stopped(GoneUnconfirmed) ==> Conserves(s0, s1, None))
    && (v == Stopped(GoneUnconfirmed) ==>
          !s1.removed.privateKnown && exists k :: k in s0.groups && Conserves(s0, s1, Some(k)))
  }

  lemma ConservesOn(s0: State, s1: State, s2: State, gone: Option<Key>)
    requires Conserves(s0, s1, None) && Conserves(s1, s2, gone)
    ensures Conserves(s0, s2, gone)
  {
    hide Account;
  }

  lemma WalkedTrans(c: Ctx, s0: State, s1: State, s2: State, v: Verdict)
    requires Walked(c, s0, s1, Fine) && Walked(c, s1, s2, v)
    ensures Walked(c, s0, s2, v)
  {
    RunTrans(c, s0, s1, s2);
    LeftoverLifts(c, s0, s1, s2, v);
    hide Run, Leftover, GroupsSound;
    if v == Stopped(GoneUnconfirmed) {
      var k :| k in s1.groups && Conserves(s1, s2, Some(k));
      ConservesOn(s0, s1, s2, Some(k));
      SameGroups(s0, s1);
    } else {
      ConservesOn(s0, s1, s2, None);
    }
    hide Conserves;
  }

  lemma SameGroups(s0: State, s1: State)
    requires Conserves(s0, s1, None)
    ensures s0.groups.Keys == s1.groups.Keys
  {
  }

  lemma IdleWalks(c: Ctx, s0: State, s1: State, v: Verdict)
    requires Idle(c, s0, s1) && GroupsSound(s0.groups) && Guarded(c) && (v == Fine || v == Stopped(Untouched))
    ensures Walked(c, s0, s1, v)
  {
  }

  lemma LeafConserves(s0: State, s1: State, relative: Path, expected: EntryMeta, linked: bool)
    requires GroupsSound(s0.groups) && linked == IsGroup(s0, expected)
    requires linked ==> s0.groups[expected.Object()].current == expected
    requires Logged(s0, s1, relative, expected)
    ensures Followed(s0.groups, s1.groups, s1.log[|s0.log|].seen, linked) ==>
      Conserves(s0, s1, None) && GroupsSound(s1.groups)
    ensures linked && s1.groups == s0.groups ==> Conserves(s0, s1, Some(expected.Object()))
  {
    assert s1.log[..|s1.log| - 1] == s0.log;
    var seen := s1.log[|s0.log|].seen;
    assert seen.Object() == expected.Object() && seen.IsFile() == expected.IsFile();
    assert forall k ::
        Unlinks(s1.log, k) == Unlinks(s0.log, k) + if k == expected.Object() && expected.IsFile() then 1 else 0;
  }

  lemma RetainedHolds(c: Ctx, s0: State, s1: State, parent: Key, name: Name, captured: Name, k: Key)
    requires Run(c, s0, s1) && IsRetained(c, s0, s1, parent, name, captured, k)
    ensures Holds(s1.fs, c.recovery, captured, k)
  {
    var j :| |s0.trace| <= j < |s1.trace| && HeldSince(c, s0, s1, parent, name, captured, k, j, |s1.trace|);
    assert Holds(Before(s0, s1, |s1.trace|), c.recovery, captured, k);
  }

  lemma UnchangedConserves(s0: State, s1: State)
    ensures s1.log == s0.log && s1.groups == s0.groups ==> Conserves(s0, s1, None)
  {
  }

  lemma BackOutcome(c: Ctx, s0: State, s1: State, k: Key, parent: Key, name: Name, relative: Path)
    requires relative in c.manifest && IsPutBack(c, s0, s1, parent, name, LeafName(c.operation, relative), k)
    ensures BackFor(c, s0, s1, k, relative)
  {
  }

  lemma LeftOutcome(c: Ctx, s0: State, s1: State, k: Key, parent: Key, name: Name, relative: Path)
    requires relative in c.manifest && Run(c, s0, s1)
    requires NamesOf(s1, c.recovery) <= NamesOf(s0, c.recovery) + {LeafName(c.operation, relative)}
    requires IsRetained(c, s0, s1, parent, name, LeafName(c.operation, relative), k)
    requires Unreturnable(c, s0, s1, parent, name)
    ensures LeftFor(c, s0, s1, k, relative)
  {
    RetainedHolds(c, s0, s1, parent, name, LeafName(c.operation, relative), k);
    hide Run, Holds;
  }

  lemma OutcomeWalks(c: Ctx, s0: State, s1: State, v: Verdict, parent: Key, name: Name, relative: Path,
                     current: EntryMeta, linked: bool)
    requires Guarded(c) && GroupsSound(s0.groups) && relative in c.manifest
    requires linked == IsGroup(s0, current) && (linked ==> s0.groups[current.Object()].current == current)
    requires Run(c, s0, s1) && LeafOutcome(c, s0, s1, v, parent, name, relative, current, linked)
    ensures Walked(c, s0, s1, v)
  {
    hide Run, IsPutBack, IsRetained, BackFor, LeftFor, Idle, Sound, Conserves, SameLinkTransition;
    if v.Fine? || v.fate.GoneUnconfirmed? { LeafConserves(s0, s1, relative, current, linked); }
    else { UnchangedConserves(s0, s1); }
    match v
    case Fine =>
    case Stopped(Untouched) => IdleWalks(c, s0, s1, v);
    case Stopped(PutBack(k)) => BackOutcome(c, s0, s1, k, parent, name, relative);
    case Stopped(Retained(k)) => LeftOutcome(c, s0, s1, k, parent, name, relative);
    case Stopped(GoneUnconfirmed) =>
  }

  /** A leaf that passed the manifest comparison is removed safely, and its group keeps count. */
  lemma LeafWalks(c: Ctx, s: State, parent: Key, name: Name, relative: Path, current: EntryMeta, root: bool)
    requires Guarded(c) && parent != c.recovery && GroupsSound(s.groups) && relative in c.manifest
    requires root ==> relative == []
    requires Matches(s, c.manifest[relative], current, root)
    ensures var (s', v) := RemoveLeaf(c, s, parent, name, relative, current, IsGroup(s, current));
      Walked(c, s, s', v)
  {
    var linked := IsGroup(s, current);
    assert Sound(c, Unlinked(relative, current.Object(), current));
    LeafRuns(c, s, parent, name, relative, current, linked);
    var (s', v) := RemoveLeaf(c, s, parent, name, relative, current, linked);
    hide *;
    OutcomeWalks(c, s, s', v, parent, name, relative, current, linked);
  }

  lemma RemoveDirWalks(c: Ctx, s: State, parent: Key, name: Name)
    requires Guarded(c) && parent != c.recovery && GroupsSound(s.groups) && CanRemoveDir(s.fs, parent, name)
    ensures Walked(c, s, Put(s, RemoveDir(s.fs, parent, name)).(completed := SatAdd(s.completed, 1)), Fine)
  {
    RemoveDirIsSafe(c, s.fs, parent, name);
  }

  lemma CloseWalks(c: Ctx, s: State, parent: Key, name: Name, expected: Identity)
    requires Guarded(c) && parent != c.recovery && GroupsSound(s.groups)
    ensures var (s', v) := CloseDirectory(c, s, parent, name, expected); Walked(c, s, s', v)
  {
    hide Walked;
    var (s1, t1) := Tick(c, s);
    TickIdles(c, s);
    var (s2, t2) := Tick(c, s1);
    TickIdles(c, s1);
    IdleTrans(c, s, s1, s2);
    hide Idle;
    IdleWalks(c, s, s1, Stopped(Untouched));
    IdleWalks(c, s, s2, Stopped(Untouched));
    IdleWalks(c, s, s2, Fine);
    if CanRemoveDir(s2.fs, parent, name) {
      RemoveDirWalks(c, s2, parent, name);
      WalkedTrans(c, s, s2, Put(s2, RemoveDir(s2.fs, parent, name)).(completed := SatAdd(s2.completed, 1)), Fine);
    }
  }

  lemma OpenWalks(c: Ctx, s: State, parent: Key, name: Name, expected: Identity)
    requires Guarded(c) && GroupsSound(s.groups)
    ensures var (s', fd) := OpenDirectory(c, s, parent, name, expected);
      && Walked(c, s, s', Fine) && Walked(c, s, s', Stopped(Untouched))
      && (fd.Some? ==> fd.value == expected.Object())
  {
    var (s1, t1) := Tick(c, s);
    TickIdles(c, s);
    IdleWalks(c, s, s1, Fine);
    IdleWalks(c, s, s1, Stopped(Untouched));
  }

  /**
   * The safety theorem.  Whatever happens outside the recovery directory while
   * the walk runs, and however it ends: every engine step is safe, every leaf
   * unlinked is the inode its committed row names, no captured leaf is lost,
   * and each hard-link group accounts for exactly the aliases removed.
   */
  lemma {:induction false} RemoveWalks(c: Ctx, s: State, parent: Key, name: Name, relative: Path, root: bool)
    requires Guarded(c) && parent != c.recovery && GroupsSound(s.groups)
    requires root ==> relative == []
    ensures var (s', v) := Remove(c, s, parent, name, relative, root); Walked(c, s, s', v)
    decreases |s.listings|, 0, 2
  {
    hide Run, Walked, SafeStep;
    var (s1, t1) := Tick(c, s);
    TickIdles(c, s);
    IdleWalks(c, s, s1, Stopped(Untouched));
    IdleWalks(c, s, s1, Fine);
    var found := Stat(s1.fs, parent, name);
    if !(t1.cancelled || relative !in c.manifest || t1.fault || found.None?) {
      var expected := c.manifest[relative];
      var current := found.value;
      if Matches(s1, expected, current, root) {
        if current.IsDir() {
          OpenWalks(c, s1, parent, name, expected);
          var (s2, fd) := OpenDirectory(c, s1, parent, name, expected);
          WalkedTrans(c, s, s1, s2, Fine);
          WalkedTrans(c, s, s1, s2, Stopped(Untouched));
          if fd.Some? {
            assert fd.value != c.recovery;
            DirectoryWalks(c, s, s2, parent, name, fd.value, relative, expected);
          }
        } else if (current.IsFile() || current.IsSymlink()) && (IsGroup(s1, current) || current.links == 1) {
          LeafWalks(c, s1, parent, name, relative, current, root);
          var (s2, v) := RemoveLeaf(c, s1, parent, name, relative, current, IsGroup(s1, current));
          WalkedTrans(c, s, s1, s2, v);
        }
      }
    }
  }

  lemma {:induction false} DirectoryWalks(c: Ctx, s0: State, s: State, parent: Key, name: Name, dir: Key,
                                          relative: Path, expected: Identity)
    requires Guarded(c) && parent != c.recovery && dir != c.recovery && Walked(c, s0, s, Fine)
    ensures var (s1, v) := if s.listings == [] then (s, Fine)
                           else RemoveEach(c, s.(listings := s.listings[1..]), dir, s.listings[0], relative);
      var (s2, w) := if v.Stopped? then (s1, v) else CloseDirectory(c, s1, parent, name, expected);
      Walked(c, s0, s2, w)
    decreases |s.listings|, 0, 1
  {
    var s1, v := s, Fine;
    if s.listings != [] {
      var popped := s.(listings := s.listings[1..]);
      assert Walked(c, s0, popped, Fine) by { PopWalks(c, s0, s); }
      EachWalks(c, popped, dir, s.listings[0], relative);
      var r := RemoveEach(c, popped, dir, s.listings[0], relative);
      s1, v := r.0, r.1;
      WalkedTrans(c, s0, popped, s1, v);
    }
    if v.Fine? {
      CloseWalks(c, s1, parent, name, expected);
      var (s2, w) := CloseDirectory(c, s1, parent, name, expected);
      WalkedTrans(c, s0, s1, s2, w);
    }
  }

  lemma {:induction false} EachWalks(c: Ctx, s: State, dir: Key, names: seq<Name>, relative: Path)
    requires Guarded(c) && dir != c.recovery && GroupsSound(s.groups)
    ensures var (s', v) := RemoveEach(c, s, dir, names, relative); Walked(c, s, s', v)
    decreases |s.listings|, 1, |names|
  {
    if names == [] {
    } else {
      RemoveWalks(c, s, dir, names[0], relative + [names[0]], false);
      var (s1, v) := Remove(c, s, dir, names[0], relative + [names[0]], false);
      if v.Fine? {
        EachWalks(c, s1, dir, names[1..], relative);
        var (s2, w) := RemoveEach(c, s1, dir, names[1..], relative);
        WalkedTrans(c, s, s1, s2, w);
      }
    }
  }

  lemma PopWalks(c: Ctx, s0: State, s: State)
    requires Walked(c, s0, s, Fine) && s.listings != []
    ensures Walked(c, s0, s.(listings := s.listings[1..]), Fine)
  {
    var s' := s.(listings := s.listings[1..]);
    assert forall i :: |s0.trace| <= i <= |s.trace| ==> Before(s0, s', i) == Before(s0, s, i);
  }
}
