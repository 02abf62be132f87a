/** What a removal does to the directory that holds the staged item: at most its own name goes. */
module RemovalPlaces {
  import opened Prelude
  import opened Metadata
  import opened FileSystem
  import opened Removal
  import opened RemovalSafety

  /** A directory other processes leave alone, that is not part of the reviewed tree and is not empty. */
  predicate Pinned(c: Ctx, d: Key, fs: Fs) {
    d in c.guarded && d != c.recovery && !Reviewed(c, d) && d in fs.dirs && fs.dirs[d] != map[]
  }

  predicate SameNames(d: Key, s0: State, s1: State) {
    d in s0.fs.dirs && d in s1.fs.dirs && s1.fs.dirs[d] == s0.fs.dirs[d]
  }

  lemma TickSame(c: Ctx, d: Key, s: State)
    requires Pinned(c, d, s.fs)
    ensures SameNames(d, s, Tick(c, s).0)
  {
  }

  lemma ReturnSame(c: Ctx, d: Key, s: State, parent: Key, name: Name, captured: Name)
    requires Pinned(c, d, s.fs) && parent != d
    ensures SameNames(d, s, Return(c, s, parent, name, captured).0)
  {
    TickSame(c, d, s);
  }

  lemma CaptureSame(c: Ctx, d: Key, s: State, parent: Key, name: Name, captured: Name, expected: EntryMeta,
                    linked: bool)
    requires Pinned(c, d, s.fs) && parent != d
    ensures SameNames(d, s, Capture(c, s, parent, name, captured, expected, linked).0)
  {
    TickSame(c, d, s);
    var s1 := Tick(c, s).0;
    TickSame(c, d, s1);
    TickSame(c, d, Tick(c, s1).0);
  }

  lemma InspectSame(c: Ctx, d: Key, s: State, captured: Name, expected: EntryMeta, linked: bool)
    requires Pinned(c, d, s.fs)
    ensures SameNames(d, s, Inspect(c, s, captured, expected, linked).0)
  {
    TickSame(c, d, s);
    var s1 := Tick(c, s).0;
    TickSame(c, d, s1);
    TickSame(c, d, Tick(c, s1).0);
    hide Allowed;
  }

  lemma FinishSame(c: Ctx, d: Key, s: State, captured: Name, relative: Path, checked: Checked, linked: bool)
    requires Pinned(c, d, s.fs)
    ensures SameNames(d, s, Finish(c, s, captured, relative, checked, linked).0)
  {
    TickSame(c, d, s);
    var s1 := Tick(c, s).0;
    TickSame(c, d, s1);
    var s2 := Tick(c, s1).0;
    if CanUnlink(s2.fs, c.recovery, captured) {
      var s3 := CommitUnlink(c, s2, captured, relative, checked.current);
      assert SameNames(d, s2, s3);
      TickSame(c, d, s3);
    }
    hide Allowed;
  }

  lemma ProcessSame(c: Ctx, d: Key, s: State, captured: Name, relative: Path, expected: EntryMeta, linked: bool)
    requires Pinned(c, d, s.fs)
    ensures SameNames(d, s, Process(c, s, captured, relative, expected, linked).0)
  {
    InspectSame(c, d, s, captured, expected, linked);
    var (s1, checked) := Inspect(c, s, captured, expected, linked);
    if checked.Some? { FinishSame(c, d, s1, captured, relative, checked.value, linked); }
    hide Inspect, Finish;
  }

  lemma LeafSame(c: Ctx, d: Key, s: State, parent: Key, name: Name, relative: Path, expected: EntryMeta, linked: bool)
    requires Pinned(c, d, s.fs) && parent != d
    ensures SameNames(d, s, RemoveLeaf(c, s, parent, name, relative, expected, linked).0)
  {
    var captured := LeafName(c.operation, relative);
    CaptureSame(c, d, s, parent, name, captured, expected, linked);
    var (s1, got) := Capture(c, s, parent, name, captured, expected, linked);
    if got {
      CapturedStays(c, d, s, s1);
      ProcessSame(c, d, s1, captured, relative, expected, linked);
      var (s2, ending) := Process(c, s1, captured, relative, expected, linked);
      CapturedStays(c, d, s1, s2);
      ReturnSame(c, d, s2, parent, name, captured);
      LeafEnds(c, s, parent, name, relative, expected, linked);
    }
    hide Capture, Process, Return, Pinned;
  }

  lemma CapturedStays(c: Ctx, d: Key, s: State, s': State)
    requires Pinned(c, d, s.fs) && SameNames(d, s, s')
    ensures Pinned(c, d, s'.fs)
  {
    hide Reviewed;
  }

  /** The directories after a captured leaf's treatment are those of its processing or of its return. */
  lemma LeafEnds(c: Ctx, s: State, parent: Key, name: Name, relative: Path, expected: EntryMeta, linked: bool)
    ensures var captured := LeafName(c.operation, relative);
      var (s1, got) := Capture(c, s, parent, name, captured, expected, linked);
      var s2 := Process(c, s1, captured, relative, expected, linked).0;
      var s' := RemoveLeaf(c, s, parent, name, relative, expected, linked).0;
      got ==> s'.fs.dirs == s2.fs.dirs || s'.fs.dirs == Return(c, s2, parent, name, captured).0.fs.dirs
  {
    hide Capture, Process, Return;
  }

  lemma OpenSame(c: Ctx, d: Key, s: State, parent: Key, name: Name, expected: Identity)
    requires Pinned(c, d, s.fs)
    ensures SameNames(d, s, OpenDirectory(c, s, parent, name, expected).0)
    ensures var fd := OpenDirectory(c, s, parent, name, expected).1; fd.Some? ==> fd.value == expected.Object()
  {
    TickSame(c, d, s);
  }

  lemma CloseSame(c: Ctx, d: Key, s: State, parent: Key, name: Name, expected: Identity)
    requires Pinned(c, d, s.fs) && parent != d
    ensures SameNames(d, s, CloseDirectory(c, s, parent, name, expected).0)
  {
    TickSame(c, d, s);
    TickSame(c, d, Tick(c, s).0);
    hide Allowed;
  }

  /** The walk below another directory leaves `d`'s names alone. */
  lemma {:induction false} RemoveSame(c: Ctx, d: Key, s: State, parent: Key, name: Name, relative: Path, root: bool)
    requires Pinned(c, d, s.fs) && parent != d
    ensures SameNames(d, s, Remove(c, s, parent, name, relative, root).0)
    decreases |s.listings|, 0, 2
  {
    TickSame(c, d, s);
    var (s1, t1) := Tick(c, s);
    assert Pinned(c, d, s1.fs);
    var found := Stat(s1.fs, parent, name);
    hide Pinned, Allowed, Tick, Stat;
    if !(t1.cancelled || relative !in c.manifest || t1.fault || found.None?) {
      var expected := c.manifest[relative];
      var current := found.value;
      if Matches(s1, expected, current, root) {
        if current.IsDir() {
          OpenSame(c, d, s1, parent, name, expected);
          var (s2, fd) := OpenDirectory(c, s1, parent, name, expected);
          if fd.Some? {
            assert Reviewed(c, fd.value) && Pinned(c, d, s2.fs) by { StillPinned(c, d, s1, s2); }
            assert fd.value != d by { PinnedUnreviewed(c, d, s2); }
            InsideSame(c, d, s2, parent, name, fd.value, relative, expected);
          }
          hide OpenDirectory, CloseDirectory, RemoveEach;
        } else {
          LeafSame(c, d, s1, parent, name, relative, current, IsGroup(s1, current));
          hide RemoveLeaf;
        }
      }
    }
  }

  lemma StillPinned(c: Ctx, d: Key, s: State, s': State)
    requires Pinned(c, d, s.fs) && SameNames(d, s, s')
    ensures Pinned(c, d, s'.fs)
  {
  }

  lemma PinnedUnreviewed(c: Ctx, d: Key, s: State)
    requires Pinned(c, d, s.fs)
    ensures !Reviewed(c, d)
  {
  }

  lemma {:induction false} EntriesSame(c: Ctx, d: Key, s: State, dir: Key, relative: Path)
    requires Pinned(c, d, s.fs) && dir != d
    ensures s.listings != [] ==>
      SameNames(d, s, RemoveEach(c, s.(listings := s.listings[1..]), dir, s.listings[0], relative).0)
    decreases |s.listings|, 0, 0
  {
    if s.listings != [] {
      EachSame(c, d, s.(listings := s.listings[1..]), dir, s.listings[0], relative);
    }
  }

  lemma {:induction false} InsideSame(c: Ctx, d: Key, s: State, parent: Key, name: Name, dir: Key, relative: Path,
                                      expected: Identity)
    requires Pinned(c, d, s.fs) && dir != d && parent != d
    ensures var (s1, v) := if s.listings == [] then (s, Fine)
                           else RemoveEach(c, s.(listings := s.listings[1..]), dir, s.listings[0], relative);
      SameNames(d, s, if v.Stopped? then s1 else CloseDirectory(c, s1, parent, name, expected).0)
    decreases |s.listings|, 0, 1
  {
    EntriesSame(c, d, s, dir, relative);
    var (s1, v) := if s.listings == [] then (s, Fine)
                   else RemoveEach(c, s.(listings := s.listings[1..]), dir, s.listings[0], relative);
    CloseSame(c, d, s1, parent, name, expected);
    hide RemoveEach, CloseDirectory;
  }

  lemma {:induction false} EachSame(c: Ctx, d: Key, s: State, dir: Key, names: seq<Name>, relative: Path)
    requires Pinned(c, d, s.fs) && dir != d
    ensures SameNames(d, s, RemoveEach(c, s, dir, names, relative).0)
    decreases |s.listings|, 1, |names|
  {
    if names != [] {
      RemoveSame(c, d, s, dir, names[0], relative + [names[0]], false);
      var (s1, v) := Remove(c, s, dir, names[0], relative + [names[0]], false);
      EachSame(c, d, s1, dir, names[1..], relative);
    }
    hide Remove;
  }

  // ---- The staged item itself -------------------------------------------

  /** The item's own name is still there with its object, or gone; every other name of `d` stayed. */
  predicate OwnNameOnly(d: Key, name: Name, s0: State, s1: State) {
    && d in s0.fs.dirs && d in s1.fs.dirs
    && (s1.fs.dirs[d] == s0.fs.dirs[d] || s1.fs.dirs[d] == s0.fs.dirs[d] - {name})
  }

  /** `d` stays pinned even without the item's name. */
  predicate Anchored(c: Ctx, d: Key, name: Name, fs: Fs) {
    Pinned(c, d, fs) && fs.dirs[d] - {name} != map[] && c.recovery in c.guarded
  }

  lemma CaptureOwn(c: Ctx, d: Key, s: State, name: Name, captured: Name, expected: EntryMeta, linked: bool)
    requires Anchored(c, d, name, s.fs)
    ensures var (s', got) := Capture(c, s, d, name, captured, expected, linked);
      && (!got ==> SameNames(d, s, s'))
      && (got ==>
            && d in s'.fs.dirs && s'.fs.dirs[d] == s.fs.dirs[d] - {name}
            && name in s.fs.dirs[d] && c.recovery in s'.fs.dirs && captured in s'.fs.dirs[c.recovery]
            && s'.fs.dirs[c.recovery][captured] == s.fs.dirs[d][name])
  {
    TickSame(c, d, s);
    var s1 := Tick(c, s).0;
    TickSame(c, d, s1);
    var s2 := Tick(c, s1).0;
    TickSame(c, d, s2);
    hide Allowed, Tick;
  }

  lemma TickKeepsRecovery(c: Ctx, s: State)
    requires c.recovery in c.guarded && c.recovery in s.fs.dirs
    ensures SameNames(c.recovery, s, Tick(c, s).0)
  {
  }

  lemma InspectKeepsRecovery(c: Ctx, s: State, captured: Name, expected: EntryMeta, linked: bool)
    requires c.recovery in c.guarded && c.recovery in s.fs.dirs
    ensures SameNames(c.recovery, s, Inspect(c, s, captured, expected, linked).0)
  {
    var s1 := Tick(c, s).0;
    var s2 := Tick(c, s1).0;
    TickKeepsRecovery(c, s);
    TickKeepsRecovery(c, s1);
    TickKeepsRecovery(c, s2);
    hide Allowed, Tick;
  }

  lemma KeptSame(c: Ctx, s: State, captured: Name, relative: Path, expected: EntryMeta, linked: bool)
    requires c.recovery in c.guarded && c.recovery in s.fs.dirs
    ensures var (s', ending) := Process(c, s, captured, relative, expected, linked);
      ending == Kept ==> SameNames(c.recovery, s, s')
  {
    InspectKeepsRecovery(c, s, captured, expected, linked);
    var (i, checked) := Inspect(c, s, captured, expected, linked);
    TickKeepsRecovery(c, i);
    TickKeepsRecovery(c, Tick(c, i).0);
    hide Inspect, Allowed, Tick;
  }

  lemma ReturnOwn(c: Ctx, d: Key, s: State, name: Name, captured: Name, k: Key)
    requires Pinned(c, d, s.fs) && c.recovery in c.guarded && c.recovery in s.fs.dirs
    requires captured in s.fs.dirs[c.recovery] && s.fs.dirs[c.recovery][captured] == k
    ensures var s' := Return(c, s, d, name, captured).0;
      d in s'.fs.dirs && (s'.fs.dirs[d] == s.fs.dirs[d] || s'.fs.dirs[d] == s.fs.dirs[d][name := k])
  {
  }

  lemma LeafOwn(c: Ctx, d: Key, s: State, name: Name, relative: Path, expected: EntryMeta, linked: bool)
    requires Anchored(c, d, name, s.fs)
    ensures var (s', v) := RemoveLeaf(c, s, d, name, relative, expected, linked);
      OwnNameOnly(d, name, s, s') && (v.Fine? ==> s'.fs.dirs[d] == s.fs.dirs[d] - {name})
  {
    hide Capture, Process, Return, Allowed, Tick;
    var captured := LeafName(c.operation, relative);
    CaptureOwn(c, d, s, name, captured, expected, linked);
    var (s1, got) := Capture(c, s, d, name, captured, expected, linked);
    if got {
      ProcessSame(c, d, s1, captured, relative, expected, linked);
      KeptSame(c, s1, captured, relative, expected, linked);
      var (s2, ending) := Process(c, s1, captured, relative, expected, linked);
      if ending == Kept {
        ReturnOwn(c, d, s2, name, captured, s.fs.dirs[d][name]);
        assert (s.fs.dirs[d] - {name})[name := s.fs.dirs[d][name]] == s.fs.dirs[d];
      }
    }
  }

  lemma CloseOwn(c: Ctx, d: Key, s: State, name: Name, expected: Identity)
    requires Anchored(c, d, name, s.fs)
    ensures var (s', v) := CloseDirectory(c, s, d, name, expected);
      OwnNameOnly(d, name, s, s') && (v.Fine? ==> s'.fs.dirs[d] == s.fs.dirs[d] - {name})
  {
    TickSame(c, d, s);
    TickSame(c, d, Tick(c, s).0);
    hide Allowed;
  }

  /** Removing the staged item takes at most its own name from its directory, and takes it if it succeeds. */
  lemma StageOnly(c: Ctx, s: State, d: Key, name: Name)
    requires Anchored(c, d, name, s.fs)
    ensures var (s', v) := Remove(c, s, d, name, [], true);
      OwnNameOnly(d, name, s, s') && (v.Fine? ==> s'.fs.dirs[d] == s.fs.dirs[d] - {name})
  {
    TickSame(c, d, s);
    var (s1, t1) := Tick(c, s);
    assert Anchored(c, d, name, s1.fs);
    var found := Stat(s1.fs, d, name);
    if !(t1.cancelled || [] !in c.manifest || t1.fault || found.None?) {
      var expected := c.manifest[[]];
      var current := found.value;
      if Matches(s1, expected, current, true) {
        if current.IsDir() {
          OpenSame(c, d, s1, d, name, expected);
          var (s2, fd) := OpenDirectory(c, s1, d, name, expected);
          if fd.Some? {
            assert Reviewed(c, fd.value);
            EntriesSame(c, d, s2, fd.value, []);
            var s3 := if s2.listings == [] then s2
                      else RemoveEach(c, s2.(listings := s2.listings[1..]), fd.value, s2.listings[0], []).0;
            CloseOwn(c, d, s3, name, expected);
          }
        } else {
          LeafOwn(c, d, s1, name, [], current, IsGroup(s1, current));
        }
      }
    }
    hide OpenDirectory, CloseDirectory, RemoveEach, RemoveLeaf, Tick, Allowed;
  }
}
