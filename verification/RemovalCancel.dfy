/**
 * A removal that is at most cancelled: nobody else changes anything and no
 * call fails.  Whatever it did not unlink is where it was.
 */
module RemovalCancel {
  import opened Prelude
  import opened Metadata
  import opened FileSystem
  import opened Removal
  import Safety = RemovalSafety

  /** No other process acts and no call fails; the user may cancel at any time, and think again. */
  predicate Harmless(turns: seq<Turn>) { forall t :: t in turns ==> t.next.None? && !t.fault }

  lemma TickHarmless(c: Ctx, s: State)
    requires Harmless(s.turns)
    ensures var (s', t) := Tick(c, s);
      s' == s.(turns := s'.turns) && Harmless(s'.turns) && !t.fault
  {
  }

  /** Only the turns that were taken are different. */
  predicate Still(s0: State, s1: State) { s1 == s0.(turns := s1.turns) && Harmless(s1.turns) }

  // ---- One leaf -----------------------------------------------------------------------------

  lemma InspectStill(c: Ctx, s: State, captured: Name, expected: EntryMeta, linked: bool)
    requires Harmless(s.turns)
    ensures Still(s, Inspect(c, s, captured, expected, linked).0)
  {
    TickHarmless(c, s);
    var s1 := Tick(c, s).0;
    TickHarmless(c, s1);
    TickHarmless(c, Tick(c, s1).0);
    hide Tick, Harmless, Stat, DirectPrivate;
  }

  lemma CaptureStill(c: Ctx, s: State, parent: Key, name: Name, captured: Name, expected: EntryMeta, linked: bool)
    requires Harmless(s.turns)
    ensures var (s', got) := Capture(c, s, parent, name, captured, expected, linked);
      && Harmless(s'.turns)
      && if got then
           && CanRename(s.fs, parent, name, c.recovery, captured)
           && s' == Put(s, Rename(s.fs, parent, name, c.recovery, captured)).(turns := s'.turns)
         else Still(s, s')
  {
    TickHarmless(c, s);
    var s1 := Tick(c, s).0;
    TickHarmless(c, s1);
    TickHarmless(c, Tick(c, s1).0);
    hide Tick, Harmless, Stat, Rename, CanRename;
  }

  lemma SettleStill(c: Ctx, s: State, checked: Checked, linked: bool)
    requires Harmless(s.turns)
    ensures var (s', ending) := Settle(c, s, checked, linked);
      Harmless(s'.turns) && s'.fs == s.fs && s'.log == s.log && ending != Kept
  {
    TickHarmless(c, s);
    hide Tick, Harmless;
  }

  /** Either nothing happened, or the name is gone and recorded. */
  lemma FinishStill(c: Ctx, s: State, captured: Name, relative: Path, checked: Checked, linked: bool)
    requires Harmless(s.turns)
    ensures var (s', ending) := Finish(c, s, captured, relative, checked, linked);
      && Harmless(s'.turns)
      && if ending == Kept then Still(s, s')
         else
           && CanUnlink(s.fs, c.recovery, captured) && s'.fs == Unlink(s.fs, c.recovery, captured)
           && s'.log == s.log + [Unlinked(relative, s.fs.dirs[c.recovery][captured], checked.current)]
  {
    TickHarmless(c, s);
    var s1 := Tick(c, s).0;
    TickHarmless(c, s1);
    var s2 := Tick(c, s1).0;
    hide Tick, Harmless, Stat, Unlink, Settle;
    if CanUnlink(s2.fs, c.recovery, captured) {
      SettleStill(c, CommitUnlink(c, s2, captured, relative, checked.current), checked, linked);
    }
  }

  lemma ProcessStill(c: Ctx, s: State, captured: Name, relative: Path, expected: EntryMeta, linked: bool)
    requires Harmless(s.turns)
    ensures var (s', ending) := Process(c, s, captured, relative, expected, linked);
      && Harmless(s'.turns)
      && if ending == Kept then Still(s, s')
         else
           && CanUnlink(s.fs, c.recovery, captured) && s'.fs == Unlink(s.fs, c.recovery, captured)
           && |s'.log| == |s.log| + 1 && s.log <= s'.log
           && s'.log[|s.log|].target == s.fs.dirs[c.recovery][captured] && s'.log[|s.log|].relative == relative
  {
    InspectStill(c, s, captured, expected, linked);
    var (s1, checked) := Inspect(c, s, captured, expected, linked);
    hide Inspect, Finish, Unlink, CanUnlink, Harmless;
    if checked.Some? { FinishStill(c, s1, captured, relative, checked.value, linked); }
  }

  /** Capturing a leaf and putting it back leaves all names as they were. */
  lemma ThereAndBack(c: Ctx, fs: Fs, parent: Key, name: Name, captured: Name)
    requires parent != c.recovery && CanRename(fs, parent, name, c.recovery, captured)
    ensures var fs1 := Rename(fs, parent, name, c.recovery, captured);
      && CanRename(fs1, c.recovery, captured, parent, name)
      && fs1.dirs[c.recovery][captured] == fs.dirs[parent][name]
      && Rename(fs1, c.recovery, captured, parent, name).dirs == fs.dirs
  {
    var fs1 := Rename(fs, parent, name, c.recovery, captured);
    var fs2 := Rename(fs1, c.recovery, captured, parent, name);
    assert fs2.dirs[parent] == fs.dirs[parent];
    assert fs2.dirs[c.recovery] == fs.dirs[c.recovery];
  }

  /** Unlinking a captured leaf leaves all names but its own as they were. */
  lemma ThereAndGone(c: Ctx, fs: Fs, parent: Key, name: Name, captured: Name)
    requires parent != c.recovery && CanRename(fs, parent, name, c.recovery, captured)
    requires CanUnlink(Rename(fs, parent, name, c.recovery, captured), c.recovery, captured)
    ensures parent in fs.dirs && name in fs.dirs[parent]
    ensures Unlink(Rename(fs, parent, name, c.recovery, captured), c.recovery, captured).dirs
         == fs.dirs[parent := fs.dirs[parent] - {name}]
  {
    var fs1 := Rename(fs, parent, name, c.recovery, captured);
    assert fs1.dirs[c.recovery] - {captured} == fs.dirs[c.recovery];
  }

  /** A captured leaf that is kept is put back. */
  lemma ReturnStill(c: Ctx, s: State, parent: Key, name: Name, captured: Name)
    requires Harmless(s.turns) && CanRename(s.fs, c.recovery, captured, parent, name)
    ensures var (s', fate) := Return(c, s, parent, name, captured);
      && fate.PutBack? && Harmless(s'.turns) && Safety.SameBooks(s, s')
      && s'.fs == Rename(s.fs, c.recovery, captured, parent, name)
  {
    TickHarmless(c, s);
    hide Tick, Harmless, Rename, CanRename;
  }

  /**
   * The leaf is unlinked and recorded, and no other name moved; or every
   * directory has all its names and nothing is booked.
   */
  predicate LeafDone(s0: State, s1: State, v: Verdict, parent: Key, name: Name, relative: Path) {
    && Harmless(s1.turns)
    && if v == Fine || v == Stopped(GoneUnconfirmed) then
         && parent in s0.fs.dirs && name in s0.fs.dirs[parent]
         && s1.fs.dirs == s0.fs.dirs[parent := s0.fs.dirs[parent] - {name}]
         && |s1.log| == |s0.log| + 1 && s0.log <= s1.log
         && s1.log[|s0.log|].target == s0.fs.dirs[parent][name] && s1.log[|s0.log|].relative == relative
       else !v.fate.Retained? && s1.fs.dirs == s0.fs.dirs && Safety.SameBooks(s0, s1)
  }

  lemma LeafCancelled(c: Ctx, s: State, parent: Key, name: Name, relative: Path, expected: EntryMeta, linked: bool)
    requires Harmless(s.turns) && parent != c.recovery
    ensures var (s', v) := RemoveLeaf(c, s, parent, name, relative, expected, linked);
      LeafDone(s, s', v, parent, name, relative)
  {
    hide Capture, Process, Return, Rename, CanRename, Unlink, CanUnlink, Harmless;
    var captured := LeafName(c.operation, relative);
    CaptureStill(c, s, parent, name, captured, expected, linked);
    var (s1, got) := Capture(c, s, parent, name, captured, expected, linked);
    if got {
      ThereAndBack(c, s.fs, parent, name, captured);
      ProcessStill(c, s1, captured, relative, expected, linked);
      var (s2, ending) := Process(c, s1, captured, relative, expected, linked);
      if ending == Kept { ReturnStill(c, s2, parent, name, captured); }
      else { ThereAndGone(c, s.fs, parent, name, captured); }
    }
  }

  // ---- The walk ---------------------------------------------------------------------------------

  /** The name `n` of directory `d` went because its object did: an unlinked leaf, or a directory removed. */
  predicate Spent(s0: State, s1: State, d: Key, n: Name)
    requires d in s0.fs.dirs && n in s0.fs.dirs[d]
  {
    var k := s0.fs.dirs[d][n];
    || (k in s0.fs.dirs && k !in s1.fs.dirs)
    || (|s0.log| <= |s1.log| && exists i :: |s0.log| <= i < |s1.log| && s1.log[i].target == k)
  }

  predicate Has(fs: Fs, d: Key, n: Name) { d in fs.dirs && n in fs.dirs[d] }

  /** No name was moved or added, and none went but those of what was unlinked or removed. */
  ghost predicate Intact(s0: State, s1: State) {
    && Harmless(s1.turns) && s0.log <= s1.log
    && s1.fs.dirs.Keys <= s0.fs.dirs.Keys
    && (forall d, n :: Has(s1.fs, d, n) ==> Has(s0.fs, d, n) && s1.fs.dirs[d][n] == s0.fs.dirs[d][n])
    && (forall d, n :: Has(s0.fs, d, n) && !Has(s1.fs, d, n) ==> Spent(s0, s1, d, n))
  }

  lemma SpentLonger(s0: State, s1: State, s2: State, d: Key, n: Name)
    requires Intact(s0, s1) && Intact(s1, s2) && Has(s0.fs, d, n)
    ensures Spent(s0, s1, d, n) ==> Spent(s0, s2, d, n)
    ensures Has(s1.fs, d, n) && Spent(s1, s2, d, n) ==> Spent(s0, s2, d, n)
  {
    var k := s0.fs.dirs[d][n];
    if i :| |s0.log| <= i < |s1.log| && s1.log[i].target == k { assert s2.log[i].target == k; }
  }

  lemma IntactTrans(s0: State, s1: State, s2: State)
    requires Intact(s0, s1) && Intact(s1, s2)
    ensures Intact(s0, s2)
  {
    forall d, n | Has(s0.fs, d, n) && !Has(s2.fs, d, n) ensures Spent(s0, s2, d, n) { SpentLonger(s0, s1, s2, d, n); }
    hide Has, Spent, Harmless;
  }

  lemma StillIntact(s0: State, s1: State)
    requires s1.fs.dirs == s0.fs.dirs && s0.log <= s1.log && Harmless(s1.turns)
    ensures Intact(s0, s1)
  {
  }

  lemma LeafIntact(s0: State, s1: State, v: Verdict, parent: Key, name: Name, relative: Path)
    requires LeafDone(s0, s1, v, parent, name, relative)
    ensures Intact(s0, s1) && (v.Stopped? ==> !v.fate.Retained?)
  {
  }

  lemma CloseIntact(c: Ctx, s: State, parent: Key, name: Name, expected: Identity)
    requires Harmless(s.turns)
    ensures var (s', v) := CloseDirectory(c, s, parent, name, expected);
      Intact(s, s') && (v.Stopped? ==> !v.fate.Retained?)
  {
    TickHarmless(c, s);
    TickHarmless(c, Tick(c, s).0);
    hide Tick, Harmless, Stat;
  }

  /**
   * However often the user cancels: no leaf stays behind in the recovery
   * directory, and every name is where it was but those of the leaves that
   * were unlinked and of the directories that were removed.
   */
  lemma {:induction false} WalkCancelled(c: Ctx, s: State, parent: Key, name: Name, relative: Path, root: bool)
    requires Harmless(s.turns) && parent != c.recovery && !Safety.Reviewed(c, c.recovery)
    ensures var (s', v) := Remove(c, s, parent, name, relative, root);
      Intact(s, s') && (v.Stopped? ==> !v.fate.Retained?)
    decreases |s.listings|, 0, 2
  {
    hide Intact;
    TickHarmless(c, s);
    var (s1, t1) := Tick(c, s);
    StillIntact(s, s1);
    var found := Stat(s1.fs, parent, name);
    if !(t1.cancelled || relative !in c.manifest || t1.fault || found.None?) {
      var expected := c.manifest[relative];
      var current := found.value;
      if Matches(s1, expected, current, root) {
        if current.IsDir() {
          DirectoryCancelled(c, s1, parent, name, relative, expected);
          IntactTrans(s, s1, InDirectory(c, s1, parent, name, relative, expected).0);
        } else if (current.IsFile() || current.IsSymlink()) && (IsGroup(s1, current) || current.links == 1) {
          LeafCancelled(c, s1, parent, name, relative, current, IsGroup(s1, current));
          var (s2, v) := RemoveLeaf(c, s1, parent, name, relative, current, IsGroup(s1, current));
          LeafIntact(s1, s2, v, parent, name, relative);
          IntactTrans(s, s1, s2);
        }
      }
    }
  }

  /** What `Remove` does once it has found a directory. */
  function InDirectory(c: Ctx, s: State, parent: Key, name: Name, relative: Path,
                       expected: Identity): (State, Verdict) {
    var (s2, fd) := OpenDirectory(c, s, parent, name, expected);
    if fd.None? then Leaving(s2, Untouched)
    else
      var (s3, v) := if s2.listings == [] then (s2, Fine)
                     else RemoveEach(c, s2.(listings := s2.listings[1..]), fd.value, s2.listings[0], relative);
      if v.Stopped? then (s3, v) else CloseDirectory(c, s3, parent, name, expected)
  }

  lemma {:induction false} DirectoryCancelled(c: Ctx, s: State, parent: Key, name: Name, relative: Path,
                                              expected: Identity)
    requires Harmless(s.turns) && parent != c.recovery && !Safety.Reviewed(c, c.recovery)
    requires relative in c.manifest && c.manifest[relative] == expected
    ensures var (s', v) := InDirectory(c, s, parent, name, relative, expected);
      Intact(s, s') && (v.Stopped? ==> !v.fate.Retained?)
    decreases |s.listings|, 0, 1
  {
    hide Intact;
    TickHarmless(c, s);
    var (s2, fd) := OpenDirectory(c, s, parent, name, expected);
    StillIntact(s, s2);
    if fd.Some? {
      assert fd.value == expected.Object() && fd.value != c.recovery;
      var s3, v := s2, Fine;
      if s2.listings != [] {
        var popped := s2.(listings := s2.listings[1..]);
        StillIntact(s, popped);
        EachCancelled(c, popped, fd.value, s2.listings[0], relative);
        var r := RemoveEach(c, popped, fd.value, s2.listings[0], relative);
        s3, v := r.0, r.1;
        IntactTrans(s, popped, s3);
      }
      if v.Fine? {
        HarmlessAfter(s, s3);
        CloseIntact(c, s3, parent, name, expected);
        IntactTrans(s, s3, CloseDirectory(c, s3, parent, name, expected).0);
      }
    }
  }

  lemma HarmlessAfter(s0: State, s1: State)
    requires Intact(s0, s1)
    ensures Harmless(s1.turns)
  {
  }

  lemma {:induction false} EachCancelled(c: Ctx, s: State, dir: Key, names: seq<Name>, relative: Path)
    requires Harmless(s.turns) && dir != c.recovery && !Safety.Reviewed(c, c.recovery)
    ensures var (s', v) := RemoveEach(c, s, dir, names, relative);
      Intact(s, s') && (v.Stopped? ==> !v.fate.Retained?)
    decreases |s.listings|, 1, |names|
  {
    hide Intact, Remove;
    if names == [] {
      StillIntact(s, s);
    } else {
      WalkCancelled(c, s, dir, names[0], relative + [names[0]], false);
      var (s1, v) := Remove(c, s, dir, names[0], relative + [names[0]], false);
      if v.Fine? {
        HarmlessAfter(s, s1);
        EachCancelled(c, s1, dir, names[1..], relative);
        IntactTrans(s, s1, RemoveEach(c, s1, dir, names[1..], relative).0);
      }
    }
  }
}
