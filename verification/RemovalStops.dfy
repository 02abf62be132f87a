/**
 * What stops a removal: a cancellation seen at a checkpoint, and every call
 * that fails, before the next name is unlinked.
 */
module RemovalStops {
  import opened Prelude
  import opened Metadata
  import opened FileSystem
  import opened Removal

  /** The state after `n` turns of the others. */
  function After(c: Ctx, s: State, n: nat): State
    decreases n
  {
    if n == 0 then s else After(c, Tick(c, s).0, n - 1)
  }

  lemma {:induction false} AfterTurns(c: Ctx, s: State, n: nat, i: nat)
    ensures TurnAt(After(c, s, n).turns, i) == TurnAt(s.turns, n + i)
    decreases n
  {
    if n > 0 {
      AfterTurns(c, Tick(c, s).0, n - 1, i);
      assert TurnAt(Tick(c, s).0.turns, n - 1 + i) == TurnAt(s.turns, n + i);
      hide Tick;
    }
  }

  lemma Ticks(c: Ctx, s: State)
    ensures Tick(c, s).1 == TurnAt(s.turns, 0)
    ensures After(c, s, 1) == Tick(c, s).0 && After(c, s, 2) == Tick(c, Tick(c, s).0).0
    ensures After(c, s, 3) == Tick(c, Tick(c, Tick(c, s).0).0).0
  {
    FirstTurn(c, s);
    hide Tick;
    var s1 := Tick(c, s).0;
    var s2 := Tick(c, s1).0;
    assert After(c, s1, 1) == After(c, s2, 0) == s2 && After(c, s1, 2) == After(c, s2, 1) == Tick(c, s2).0;
  }

  lemma FirstTurn(c: Ctx, s: State)
    ensures Tick(c, s).1 == TurnAt(s.turns, 0)
  {
  }

  /**
   * A leaf is captured only if nobody cancelled at the two checkpoints before
   * it, the rename did not fail, and a hard-linked one still is what the
   * manifest comparison saw.
   */
  lemma CaptureNeeds(c: Ctx, s: State, parent: Key, name: Name, captured: Name, expected: EntryMeta, linked: bool)
    ensures Capture(c, s, parent, name, captured, expected, linked).1 <==>
      && !TurnAt(s.turns, 0).cancelled && !TurnAt(s.turns, 1).cancelled && !TurnAt(s.turns, 2).fault
      && (linked ==> !TurnAt(s.turns, 1).fault && Stat(After(c, s, 2).fs, parent, name) == Some(expected))
      && CanRename(After(c, s, 3).fs, parent, name, c.recovery, captured)
    ensures Capture(c, s, parent, name, captured, expected, linked).0.turns == After(c, s, 3).turns
         || !Capture(c, s, parent, name, captured, expected, linked).1
  {
    Ticks(c, s);
    AfterTurns(c, s, 1, 0);
    AfterTurns(c, s, 2, 0);
    FirstTurn(c, Tick(c, s).0);
    FirstTurn(c, Tick(c, Tick(c, s).0).0);
    hide Tick, After, Stat, CanRename, Rename;
  }

  /** The private query by name answers for the very inode that was looked at, or not at all. */
  lemma QueryNeeds(fs: Fs, dir: Key, name: Name, expected: EntryMeta)
    requires Named(fs, dir, name)
    ensures var k := fs.dirs[dir][name];
      var found := MetaOf(k, fs.inodes[k]);
      var answer := DirectPrivate(fs, dir, name, expected);
      && (answer == Unsupported <==> fs.inodes[k].direct == Unsupported)
      && (answer.Bytes? <==> fs.inodes[k].direct.Bytes? && found == expected.(allocation := found.allocation))
      && (answer.Bytes? ==> answer == fs.inodes[k].direct)
  {
    var found := MetaOf(fs.dirs[dir][name], fs.inodes[fs.dirs[dir][name]]);
    assert found.(allocation := expected.allocation) == expected <==>
      found == expected.(allocation := found.allocation);
  }

  /** The checks on a captured leaf need these turns: one, and for a regular file the private query or the open. */
  function Looks(c: Ctx, s: State, captured: Name, linked: bool): nat {
    var found := Stat(After(c, s, 1).fs, c.recovery, captured);
    if found.None? || !found.value.IsFile() then 1
    else if !linked && found.value.links == 1
            && DirectPrivate(After(c, s, 2).fs, c.recovery, captured, found.value).Bytes? then 2
    else 3
  }

  /**
   * They pass exactly for a leaf of this user that nothing but its capture
   * changed and that is no placeholder, if nobody cancelled and no call failed;
   * a file that is opened must not change meanwhile.
   */
  lemma InspectNeeds(c: Ctx, s: State, captured: Name, expected: EntryMeta, linked: bool)
    ensures var (s', checked) := Inspect(c, s, captured, expected, linked);
      var found := Stat(After(c, s, 1).fs, c.recovery, captured);
      var looks := Looks(c, s, captured, linked);
      && (checked.Some? <==>
            && !TurnAt(s.turns, 0).cancelled && !TurnAt(s.turns, 0).fault && found.Some?
            && SameLinkTransition(expected, found.value, expected.links)
            && found.value.uid == c.euid && !found.value.IsDataless()
            && (looks == 2 ==> !TurnAt(s.turns, 1).fault)
            && (looks == 3 ==>
                  && (linked || found.value.links != 1
                      || !DirectPrivate(After(c, s, 2).fs, c.recovery, captured, found.value).Failed?)
                  && !TurnAt(s.turns, 2).fault && Stat(After(c, s, 3).fs, c.recovery, captured) == found))
      && (checked.Some? ==> s' == After(c, s, looks) && checked.value.current == found.value)
  {
    hide Tick, After, Stat, DirectPrivate, SameLinkTransition;
    Ticks(c, s);
    AfterTurns(c, s, 1, 0);
    AfterTurns(c, s, 2, 0);
    FirstTurn(c, Tick(c, s).0);
    FirstTurn(c, Tick(c, Tick(c, s).0).0);
  }

  /** The captured name is unlinked exactly if nobody cancelled, nothing changed and neither call failed. */
  lemma FinishNeeds(c: Ctx, s: State, captured: Name, relative: Path, checked: Checked, linked: bool)
    ensures Finish(c, s, captured, relative, checked, linked).1 != Kept <==>
      && !TurnAt(s.turns, 0).cancelled && !TurnAt(s.turns, 0).fault && !TurnAt(s.turns, 1).fault
      && Stat(After(c, s, 1).fs, c.recovery, captured) == Some(checked.current)
      && CanUnlink(After(c, s, 2).fs, c.recovery, captured)
    ensures Finish(c, s, captured, relative, checked, linked).1 == Complete && linked ==> !TurnAt(s.turns, 2).fault
  {
    Ticks(c, s);
    AfterTurns(c, s, 1, 0);
    AfterTurns(c, s, 2, 0);
    FirstTurn(c, Tick(c, s).0);
    var s2 := Tick(c, Tick(c, s).0).0;
    if CanUnlink(s2.fs, c.recovery, captured) {
      var s3 := CommitUnlink(c, s2, captured, relative, checked.current);
      FirstTurn(c, s3);
      assert s3.turns == s2.turns;
    }
    hide Tick, After, Stat, CanUnlink, Unlink;
  }

  /**
   * From the last call of the inspection on, with the last look after `n`
   * turns: that call if it is not the look at the leaf itself, the last look,
   * the unlink, and the look at a hard-linked inode after it.
   */
  predicate Unlinks(turns: seq<Turn>, first: nat, n: nat, confirmed: bool) {
    && (n > first + 1 ==> !TurnAt(turns, n - 1).fault)
    && !TurnAt(turns, n).cancelled && !TurnAt(turns, n).fault && !TurnAt(turns, n + 1).fault
    && (confirmed ==> !TurnAt(turns, n + 2).fault)
  }

  /** No call failed and nobody cancelled from the capture, after `first` turns, to the end. */
  predicate Unstopped(turns: seq<Turn>, first: nat, confirmed: bool) {
    && !TurnAt(turns, first).cancelled && !TurnAt(turns, first).fault
    && (Unlinks(turns, first, first + 1, confirmed) || Unlinks(turns, first, first + 2, confirmed)
        || Unlinks(turns, first, first + 3, confirmed))
  }

  lemma ProcessNeeds(c: Ctx, s: State, captured: Name, relative: Path, expected: EntryMeta, linked: bool)
    ensures var (s', ending) := Process(c, s, captured, relative, expected, linked);
      ending != Kept ==> Unstopped(s.turns, 0, ending == Complete && linked)
  {
    InspectNeeds(c, s, captured, expected, linked);
    var (s2, checked) := Inspect(c, s, captured, expected, linked);
    var k := Looks(c, s, captured, linked);
    assert 1 <= k <= 3;
    if checked.Some? {
      FinishNeeds(c, s2, captured, relative, checked.value, linked);
      AfterTurns(c, s, k, 0);
      AfterTurns(c, s, k, 1);
      AfterTurns(c, s, k, 2);
      hide Inspect, Finish, Looks, After, TurnAt, Stat, SameLinkTransition, DirectPrivate, CanUnlink;
      var ending := Finish(c, s2, captured, relative, checked.value, linked).1;
      assert ending != Kept ==> Unlinks(s.turns, 0, k, ending == Complete && linked);
    }
  }

  lemma UnstoppedLater(turns: seq<Turn>, later: seq<Turn>, n: nat, confirmed: bool)
    requires forall i: nat :: TurnAt(later, i) == TurnAt(turns, n + i)
    ensures Unstopped(later, 0, confirmed) ==> Unstopped(turns, n, confirmed)
  {
    hide TurnAt;
  }

  /**
   * A leaf is unlinked only if none of the four checkpoints on the way met a
   * cancellation and none of the calls failed.
   */
  lemma LeafNeeds(c: Ctx, s: State, parent: Key, name: Name, relative: Path, expected: EntryMeta, linked: bool)
    ensures var (s', v) := RemoveLeaf(c, s, parent, name, relative, expected, linked);
      v.Fine? || v.fate == GoneUnconfirmed ==>
        && !TurnAt(s.turns, 0).cancelled && !TurnAt(s.turns, 1).cancelled && !TurnAt(s.turns, 2).fault
        && (linked ==> !TurnAt(s.turns, 1).fault)
        && Unstopped(s.turns, 3, v.Fine? && linked)
  {
    var captured := LeafName(c.operation, relative);
    CaptureNeeds(c, s, parent, name, captured, expected, linked);
    var (s1, got) := Capture(c, s, parent, name, captured, expected, linked);
    if got {
      ProcessNeeds(c, s1, captured, relative, expected, linked);
      forall i: nat ensures TurnAt(s1.turns, i) == TurnAt(s.turns, 3 + i) { AfterTurns(c, s, 3, i); }
      hide Unstopped, TurnAt, After, Stat, CanRename;
      var ending := Process(c, s1, captured, relative, expected, linked).1;
      UnstoppedLater(s.turns, s1.turns, 3, ending == Complete && linked);
    }
    hide Capture, Process, Return, Unstopped, TurnAt;
  }

  /** Nothing is entered after a cancellation, or if the look at it fails. */
  lemma EnterNeeds(c: Ctx, s: State, parent: Key, name: Name, relative: Path, root: bool)
    requires TurnAt(s.turns, 0).cancelled || TurnAt(s.turns, 0).fault
    ensures Remove(c, s, parent, name, relative, root) == (After(c, s, 1), Stopped(Untouched))
  {
    Ticks(c, s);
    hide Tick, After;
  }

  /**
   * What is refused without any change: an entry without a row; one that is
   * not the reviewed object as reviewed; a special file; and a file with
   * other links than those the closure knows.
   */
  lemma RefusesEntry(c: Ctx, s: State, parent: Key, name: Name, relative: Path, root: bool)
    requires Stat(After(c, s, 1).fs, parent, name).Some?
    requires var m := Stat(After(c, s, 1).fs, parent, name).value;
      var linked := Kind(m.identity.mode) == KIND_REGULAR && m.Object() in s.groups;
      || relative !in c.manifest
      || (!linked && !root && m.identity != c.manifest[relative])
      || (!linked && root
          && (m.Object() != c.manifest[relative].Object() || m.identity.mode != c.manifest[relative].mode))
      || (linked && (s.groups[m.Object()] != LinkRemoval(c.manifest[relative], m) || m.links == 0))
      || Kind(m.identity.mode) !in {KIND_DIRECTORY, KIND_REGULAR, KIND_SYMLINK}
      || (!linked && m.links != 1 && Kind(m.identity.mode) != KIND_DIRECTORY)
    ensures Remove(c, s, parent, name, relative, root) == (After(c, s, 1), Stopped(Untouched))
  {
    Ticks(c, s);
    assert Tick(c, s).0.groups == s.groups;
    hide Tick, After, RemoveLeaf, RemoveEach, OpenDirectory, CloseDirectory;
  }

  lemma OpenNeeds(c: Ctx, s: State, parent: Key, name: Name, expected: Identity)
    ensures var (s', fd) := OpenDirectory(c, s, parent, name, expected);
      var found := Stat(s'.fs, parent, name);
      && s' == After(c, s, 1)
      && (fd.Some? <==>
            && !TurnAt(s.turns, 0).fault && found.Some? && s'.fs.dirs[parent][name] in s'.fs.dirs
            && SameObject(expected, found.value.identity))
  {
    Ticks(c, s);
    hide Tick, After;
  }

  /** A directory goes exactly if nobody cancelled, it is still the same and empty, and neither call failed. */
  lemma CloseNeeds(c: Ctx, s: State, parent: Key, name: Name, expected: Identity)
    ensures var found := Stat(After(c, s, 1).fs, parent, name);
      CloseDirectory(c, s, parent, name, expected).1 == Fine <==>
        && !TurnAt(s.turns, 0).cancelled && !TurnAt(s.turns, 0).fault && !TurnAt(s.turns, 1).fault
        && found.Some? && SameObject(expected, found.value.identity)
        && CanRemoveDir(After(c, s, 2).fs, parent, name)
  {
    Ticks(c, s);
    AfterTurns(c, s, 1, 0);
    FirstTurn(c, Tick(c, s).0);
    hide Tick, After, Stat, CanRemoveDir, RemoveDir;
  }
}
