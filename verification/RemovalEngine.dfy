/** The removal engine itself: the fields `remove` and `remove_leaf` update in place, against their specification. */
module RemovalEngine {
  import opened Prelude
  import opened Metadata
  import opened FileSystem
  import Spec = Removal
  import opened Removal

  /** One turn of the iteration. */
  lemma EachStep(c: Ctx, s: State, dir: Key, names: seq<Name>, i: nat, relative: Path)
    requires i <= |names|
    ensures Spec.RemoveEach(c, s, dir, names[i..], relative) ==
      if i == |names| then (s, Fine)
      else var (s1, v) := Spec.Remove(c, s, dir, names[i], relative + [names[i]], false);
           if v.Stopped? then (s1, v) else Spec.RemoveEach(c, s1, dir, names[i + 1..], relative)
  {
    hide Spec.Remove;
    if i < |names| { assert names[i..][1..] == names[i + 1..]; }
  }

  class RemovalContext {
    const c: Ctx
    // The kernel, and what other processes and directory iteration will do.
    var fs: Fs
    var turns: seq<Turn>
    var listings: seq<seq<Name>>
    // `Removed`
    var private: nat
    var privateKnown: bool
    var files: nat
    // `LinkRemovals` and `Progress`
    var groups: map<Key, LinkRemoval>
    var completed: nat
    // History
    ghost var trace: seq<Step>
    ghost var log: seq<Unlinked>

    ghost function S(): State
      reads this
    {
      State(fs, turns, listings, trace, log, Removed(private, privateKnown, files), groups, completed)
    }

    constructor (c: Ctx, fs: Fs, turns: seq<Turn>, listings: seq<seq<Name>>, groups: map<Key, LinkRemoval>)
      ensures this.c == c && S() == State(fs, turns, listings, [], [], Removed(0, true, 0), groups, 0)
    {
      this.c := c;
      this.fs, this.turns, this.listings, this.groups := fs, turns, listings, groups;
      private, privateKnown, files, completed := 0, true, 0, 0;
      trace, log := [], [];
    }

    /** Other processes run until the next kernel call. */
    method Wait() returns (t: Turn)
      modifies this
      ensures (S(), t) == Tick(c, old(S()))
    {
      t := QUIET;
      if turns != [] {
        t := turns[0];
        turns := turns[1..];
        if t.next.Some? && Allowed(c.guarded, fs, t.next.value) {
          trace := trace + [Step(false, fs, t.next.value)];
          fs := t.next.value;
        }
      }
    }

    method RenameExclusive(from: Key, name: Name, to: Key, dest: Name) returns (ok: bool)
      modifies this
      ensures var (s1, t) := Tick(c, old(S()));
        && ok == (!t.fault && CanRename(s1.fs, from, name, to, dest))
        && S() == if ok then Put(s1, Rename(s1.fs, from, name, to, dest)) else s1
    {
      var t := Wait();
      ok := !t.fault && CanRename(fs, from, name, to, dest);
      if ok {
        trace := trace + [Step(true, fs, Rename(fs, from, name, to, dest))];
        fs := Rename(fs, from, name, to, dest);
      }
    }

    method Inspect(captured: Name, expected: EntryMeta, linked: bool) returns (checked: Option<Checked>)
      modifies this
      ensures (S(), checked) == Spec.Inspect(c, old(S()), captured, expected, linked)
    {
      checked := None;
      var t := Wait();
      var found := Stat(fs, c.recovery, captured);
      if t.cancelled || t.fault || found.None? { return; }
      var current := found.value;
      if !SameLinkTransition(expected, current, expected.links) || current.uid != c.euid
         || current.IsDataless()
      {
        return;
      }
      if !current.IsFile() { return Some(Checked(current, None)); }
      t := Wait();
      var direct := Unsupported;
      if !linked && current.links == 1 {
        direct := DirectPrivate(fs, c.recovery, captured, current);
      }
      if direct.Failed? || (direct.Bytes? && t.fault) { return; }
      if direct.Bytes? { return Some(Checked(current, Some(direct.bytes))); }
      t := Wait();
      if t.fault || Stat(fs, c.recovery, captured) != Some(current) { return; }
      var private := if current.links == 1 then fs.inodes[fs.dirs[c.recovery][captured]].byFd else None;
      return Some(Checked(current, private));
    }

    method Finish(captured: Name, relative: Path, checked: Checked, linked: bool) returns (ending: Ending)
      modifies this
      ensures (S(), ending) == Spec.Finish(c, old(S()), captured, relative, checked, linked)
    {
      var current := checked.current;
      var t := Wait();
      if t.cancelled || t.fault || Stat(fs, c.recovery, captured) != Some(current) { return Kept; }
      t := Wait();
      if t.fault || !CanUnlink(fs, c.recovery, captured) { return Kept; }
      CommitUnlink(captured, relative, current);
      ending := Settle(checked, linked);
    }

    method CommitUnlink(captured: Name, relative: Path, current: EntryMeta)
      requires CanUnlink(fs, c.recovery, captured)
      modifies this
      ensures S() == Spec.CommitUnlink(c, old(S()), captured, relative, current)
    {
      log := log + [Unlinked(relative, fs.dirs[c.recovery][captured], current)];
      trace := trace + [Step(true, fs, Unlink(fs, c.recovery, captured))];
      fs := Unlink(fs, c.recovery, captured);
      if current.IsFile() {
        files := files + 1;
      }
      completed := SatAdd(completed, 1);
    }

    method Settle(checked: Checked, linked: bool) returns (ending: Ending)
      modifies this
      ensures (S(), ending) == Spec.Settle(c, old(S()), checked, linked)
    {
      var current := checked.current;
      var t := Wait();
      if linked {
        var after := FStat(fs, current.Object());
        if t.fault || after.None? || current.links == 0
           || !SameLinkTransition(current, after.value, current.links - 1)
        {
          return Gone;
        }
        if current.Object() !in groups { return Gone; }
        groups := groups[current.Object() := groups[current.Object()].(current := after.value)];
      }
      if current.IsFile() && current.links == 1 {
        private := SatAdd(private, if checked.private.Some? then checked.private.value else 0);
        privateKnown := privateKnown && checked.private.Some?;
      }
      return Complete;
    }

    method RemoveLeaf(parent: Key, name: Name, relative: Path, expected: EntryMeta, linked: bool) returns (v: Verdict)
      modifies this
      ensures (S(), v) == Spec.RemoveLeaf(c, old(S()), parent, name, relative, expected, linked)
    {
      var captured := LeafName(c.operation, relative);
      var t := Wait();
      if t.cancelled { return Stopped(Untouched); }
      t := Wait();
      if t.cancelled || (linked && (t.fault || Stat(fs, parent, name) != Some(expected))) { return Stopped(Untouched); }
      var got := RenameExclusive(parent, name, c.recovery, captured);
      if !got { return Stopped(Untouched); }
      var ending := Kept;
      var checked := Inspect(captured, expected, linked);
      if checked.Some? {
        ending := Finish(captured, relative, checked.value, linked);
      }
      match ending
      case Complete =>
        return Fine;
      case Gone =>
        privateKnown := false;
        return Stopped(GoneUnconfirmed);
      case Kept =>
        var returned := RenameExclusive(c.recovery, captured, parent, name);
        if returned { return Stopped(PutBack(fs.dirs[parent][name])); }
        return Stopped(Retained(if Named(fs, c.recovery, captured) then fs.dirs[c.recovery][captured] else c.recovery));
    }

    method Remove(parent: Key, name: Name, relative: Path, root: bool) returns (v: Verdict)
      modifies this
      ensures (S(), v) == Spec.Remove(c, old(S()), parent, name, relative, root)
      decreases |listings|, 0, 0
    {
      var t := Wait();
      var found := Stat(fs, parent, name);
      if t.cancelled || relative !in c.manifest || t.fault || found.None? { return Stopped(Untouched); }
      var expected := c.manifest[relative];
      var current := found.value;
      var linked := current.IsFile() && current.Object() in groups;
      var matches :=
        if linked then
          && groups[current.Object()].reviewed == expected && groups[current.Object()].current == current
          && current.links > 0
        else if root then SameObject(expected, current.identity)
        else expected == current.identity;
      if !matches { return Stopped(Untouched); }
      if current.IsDir() {
        t := Wait();
        found := Stat(fs, parent, name);
        if t.fault || found.None? || fs.dirs[parent][name] !in fs.dirs || !SameObject(expected, found.value.identity) {
          return Stopped(Untouched);
        }
        var fd := fs.dirs[parent][name];
        if listings != [] {
          var names := listings[0];
          listings := listings[1..];
          v := RemoveEach(fd, names, relative);
          if v.Stopped? { return; }
        }
        v := CloseDirectory(parent, name, expected);
      } else if !current.IsFile() && !current.IsSymlink() {
        return Stopped(Untouched);
      } else if !linked && current.links != 1 {
        return Stopped(Untouched);
      } else {
        v := RemoveLeaf(parent, name, relative, current, linked);
      }
    }

    /** `each_entry` with the recursive visitor. */
    method RemoveEach(dir: Key, names: seq<Name>, relative: Path) returns (v: Verdict)
      modifies this
      ensures (S(), v) == Spec.RemoveEach(c, old(S()), dir, names, relative)
      decreases |listings|, 1
    {
      hide Spec.Remove, Spec.RemoveEach;
      v := Fine;
      var i := 0;
      while i < |names|
        invariant 0 <= i <= |names| && |listings| <= |old(listings)| && v == Fine
        invariant Spec.RemoveEach(c, S(), dir, names[i..], relative) ==
          Spec.RemoveEach(c, old(S()), dir, names, relative)
      {
        EachStep(c, S(), dir, names, i, relative);
        v := Remove(dir, names[i], relative + [names[i]], false);
        if v.Stopped? { return; }
        i := i + 1;
      }
      EachStep(c, S(), dir, names, |names|, relative);
    }

    method CloseDirectory(parent: Key, name: Name, expected: Identity) returns (v: Verdict)
      modifies this
      ensures (S(), v) == Spec.CloseDirectory(c, old(S()), parent, name, expected)
    {
      var t := Wait();
      var found := Stat(fs, parent, name);
      if t.cancelled || t.fault || found.None?
         || !SameObject(expected, found.value.identity)
      {
        return Stopped(Untouched);
      }
      t := Wait();
      if t.fault || !CanRemoveDir(fs, parent, name) { return Stopped(Untouched); }
      trace := trace + [Step(true, fs, RemoveDir(fs, parent, name))];
      fs := RemoveDir(fs, parent, name);
      completed := SatAdd(completed, 1);
      return Fine;
    }
  }
}
