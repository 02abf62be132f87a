/**
 * What the guarded removal does, as functions on the whole state: the tree walk
 * of `RemovalContext::remove` and the capture, check, unlink protocol of
 * `remove_leaf`.  Before every kernel call other processes get a turn.
 */
module Removal {
  import opened Prelude
  import opened Metadata
  import opened FileSystem

  /** One turn of the environment: what it leaves behind, and what the next call meets. */
  datatype Turn = Turn(next: Option<Fs>, cancelled: bool, fault: bool)

  const QUIET: Turn := Turn(None, false, false)

  /** The turn before the call after the next `i` calls. */
  function TurnAt(turns: seq<Turn>, i: nat): Turn { if i < |turns| then turns[i] else QUIET }

  /** What stays fixed while one reviewed item is being removed. */
  datatype Ctx = Ctx(operation: string, manifest: map<Path, Identity>, recovery: Key, guarded: set<Key>, euid: nat)

  datatype LinkRemoval = LinkRemoval(reviewed: Identity, current: EntryMeta)

  datatype Removed = Removed(private: nat, privateKnown: bool, files: nat)

  /** A name the engine unlinked: the row it was removed for, its inode, and the inode's last metadata. */
  datatype Unlinked = Unlinked(relative: Path, target: Key, seen: EntryMeta)

  /** One change of the file system, by the engine or by another process. */
  datatype Step = Step(engine: bool, before: Fs, after: Fs)

  datatype State = State(
    fs: Fs,
    turns: seq<Turn>,            // the environment still to come
    listings: seq<seq<Name>>,    // what directory iteration will yield, one sequence per opened directory
    trace: seq<Step>,            // every change of the file system so far
    log: seq<Unlinked>,
    removed: Removed,
    groups: map<Key, LinkRemoval>,
    completed: nat)

  /** How `remove_leaf` fails, as its messages distinguish it; `Untouched` also stands for every other refusal. */
  datatype Fate = Untouched | PutBack(target: Key) | Retained(target: Key) | GoneUnconfirmed

  datatype Verdict = Fine | Stopped(fate: Fate)

  /**
   * The deterministic recovery name.  The hash is kept symbolic: the operation
   * cannot contain the NUL byte that separates it from the path, and path
   * components contain no slash, so the hashed text determines the path.
   */
  function LeafName(operation: string, relative: Path): Name {
    "leaf-" + operation + "\0" + Joined(relative)
  }

  function Joined(relative: Path): Name {
    if relative == [] then "" else "/" + relative[0] + Joined(relative[1..])
  }

  /** The environment's turn before a kernel call. */
  function Tick(c: Ctx, s: State): (r: (State, Turn))
    ensures |r.0.turns| <= |s.turns| && r.0.listings == s.listings
  {
    if s.turns == [] then (s, QUIET)
    else
      var t := s.turns[0];
      var rest := s.(turns := s.turns[1..]);
      if t.next.Some? && Allowed(c.guarded, s.fs, t.next.value)
      then (rest.(fs := t.next.value, trace := s.trace + [Step(false, s.fs, t.next.value)]), t)
      else (rest, t)
  }

  /** The engine's own mutation of the file system. */
  function Put(s: State, fs: Fs): State { s.(fs := fs, trace := s.trace + [Step(true, s.fs, fs)]) }

  function Leaving(s: State, fate: Fate): (State, Verdict) { (s, Stopped(fate)) }

  // ---- remove_leaf ------------------------------------------------------

  /** What the checks on a captured leaf establish: its metadata and its private bytes if this is the last link. */
  datatype Checked = Checked(current: EntryMeta, private: Option<nat>)

  /** Private bytes by name, with the metadata comparison the query makes. */
  function DirectPrivate(fs: Fs, dir: Key, name: Name, expected: EntryMeta): Direct {
    if !Named(fs, dir, name) then Failed
    else
      var k := fs.dirs[dir][name];
      var meta := MetaOf(k, fs.inodes[k]);
      if fs.inodes[k].direct.Bytes? && meta.(allocation := expected.allocation) != expected then Failed
      else fs.inodes[k].direct
  }

  /** The first half of the captured leaf's treatment: everything before the `BeforeUnlink` phase. */
  function Inspect(c: Ctx, s: State, captured: Name, expected: EntryMeta, linked: bool): (r: (State, Option<Checked>))
    ensures |r.0.turns| <= |s.turns| && r.0.listings == s.listings
  {
    var (s1, t1) := Tick(c, s);
    var found := Stat(s1.fs, c.recovery, captured);
    if t1.cancelled || t1.fault || found.None? then (s1, None)
    else
      var current := found.value;
      if !SameLinkTransition(expected, current, expected.links) || current.uid != c.euid || current.IsDataless()
      then (s1, None)
      else if !current.IsFile() then (s1, Some(Checked(current, None)))
      else
        var (s2, t2) := Tick(c, s1);
        var direct :=
          if linked || current.links != 1 then Unsupported else DirectPrivate(s2.fs, c.recovery, captured, current);
        if direct.Failed? || (direct.Bytes? && t2.fault) then (s2, None)
        else if direct.Bytes? then (s2, Some(Checked(current, Some(direct.bytes))))
        else
          var (s3, t3) := Tick(c, s2);
          if t3.fault || Stat(s3.fs, c.recovery, captured) != Some(current) then (s3, None)
          else
            var k := s3.fs.dirs[c.recovery][captured];
            (s3, Some(Checked(current, if current.links == 1 then s3.fs.inodes[k].byFd else None)))
  }

  /** The unlink itself and the checks after it; `Kept` means the leaf is still in the recovery directory. */
  datatype Ending = Complete | Kept | Gone

  function Finish(c: Ctx, s: State, captured: Name, relative: Path, checked: Checked,
                  linked: bool): (r: (State, Ending))
    ensures |r.0.turns| <= |s.turns| && r.0.listings == s.listings
  {
    var current := checked.current;
    var (s1, t1) := Tick(c, s);
    if t1.cancelled || t1.fault || Stat(s1.fs, c.recovery, captured) != Some(current) then (s1, Kept)
    else
      var (s2, t2) := Tick(c, s1);
      if t2.fault || !CanUnlink(s2.fs, c.recovery, captured) then (s2, Kept)
      else
        Settle(c, CommitUnlink(c, s2, captured, relative, current), checked, linked)
  }

  /** The name is gone even if a later check fails: record it before running any. */
  function CommitUnlink(c: Ctx, s: State, captured: Name, relative: Path, current: EntryMeta): State
    requires CanUnlink(s.fs, c.recovery, captured)
  {
    Put(s, Unlink(s.fs, c.recovery, captured)).(
      log := s.log + [Unlinked(relative, s.fs.dirs[c.recovery][captured], current)],
      removed := s.removed.(files := s.removed.files + if current.IsFile() then 1 else 0),
      completed := SatAdd(s.completed, 1))
  }

  /** After the irreversible boundary: follow the group's inode, then count its private bytes. */
  function Settle(c: Ctx, s: State, checked: Checked, linked: bool): (r: (State, Ending))
    ensures |r.0.turns| <= |s.turns| && r.0.listings == s.listings
  {
    var current := checked.current;
    var (s1, t1) := Tick(c, s);
    if !linked then (Counted(s1, checked), Complete)
    else
      var after := FStat(s1.fs, current.Object());
      if t1.fault || after.None? || current.links == 0 || !SameLinkTransition(current, after.value, current.links - 1)
      then (s1, Gone)
      else if current.Object() !in s1.groups then (s1, Gone)
      else
        var group := s1.groups[current.Object()];
        (Counted(s1.(groups := s1.groups[current.Object() := group.(current := after.value)]), checked), Complete)
  }

  function Counted(s: State, checked: Checked): State {
    if checked.current.IsFile() && checked.current.links == 1 then
      s.(removed := s.removed.(
        private := SatAdd(s.removed.private, if checked.private.Some? then checked.private.value else 0),
        privateKnown := s.removed.privateKnown && checked.private.Some?))
    else s
  }

  /** The closure run on a captured leaf. */
  function Process(c: Ctx, s: State, captured: Name, relative: Path, expected: EntryMeta,
                   linked: bool): (r: (State, Ending))
    ensures |r.0.turns| <= |s.turns| && r.0.listings == s.listings
  {
    var (s1, checked) := Inspect(c, s, captured, expected, linked);
    if checked.None? then (s1, Kept) else Finish(c, s1, captured, relative, checked.value, linked)
  }

  /** Put a kept leaf back under its name if that name is free. */
  function Return(c: Ctx, s: State, parent: Key, name: Name, captured: Name): (r: (State, Fate))
    ensures |r.0.turns| <= |s.turns| && r.0.listings == s.listings
  {
    var (s1, t1) := Tick(c, s);
    var k := if Named(s1.fs, c.recovery, captured) then s1.fs.dirs[c.recovery][captured] else c.recovery;
    if !t1.fault && CanRename(s1.fs, c.recovery, captured, parent, name)
    then (Put(s1, Rename(s1.fs, c.recovery, captured, parent, name)), PutBack(k))
    else (s1, Retained(k))
  }

  /** Everything up to and including the exclusive rename into the recovery directory. */
  function Capture(c: Ctx, s: State, parent: Key, name: Name, captured: Name, expected: EntryMeta,
                   linked: bool): (r: (State, bool))
    ensures |r.0.turns| <= |s.turns| && r.0.listings == s.listings
  {
    var (s1, t1) := Tick(c, s);
    if t1.cancelled then (s1, false)
    else
      var (s2, t2) := Tick(c, s1);
      if t2.cancelled || (linked && (t2.fault || Stat(s2.fs, parent, name) != Some(expected))) then (s2, false)
      else
        var (s3, t3) := Tick(c, s2);
        if t3.fault || !CanRename(s3.fs, parent, name, c.recovery, captured) then (s3, false)
        else (Put(s3, Rename(s3.fs, parent, name, c.recovery, captured)), true)
  }

  function RemoveLeaf(c: Ctx, s: State, parent: Key, name: Name, relative: Path, expected: EntryMeta,
                      linked: bool): (r: (State, Verdict))
    ensures |r.0.turns| <= |s.turns| && r.0.listings == s.listings
  {
    var captured := LeafName(c.operation, relative);
    var (s1, got) := Capture(c, s, parent, name, captured, expected, linked);
    if !got then Leaving(s1, Untouched)
    else
      var (s2, ending) := Process(c, s1, captured, relative, expected, linked);
      match ending
      case Complete => (s2, Fine)
      case Gone => Leaving(s2.(removed := s2.removed.(privateKnown := false)), GoneUnconfirmed)
      case Kept =>
        var (s3, fate) := Return(c, s2, parent, name, captured);
        Leaving(s3, fate)
  }

  // ---- remove -----------------------------------------------------------

  /** The three-way comparison with the manifest row. */
  predicate Matches(s: State, expected: Identity, current: EntryMeta, root: bool) {
    if IsGroup(s, current) then
      var group := s.groups[current.Object()];
      group.reviewed == expected && group.current == current && current.links > 0
    else if root then SameObject(expected, current.identity)
    else expected == current.identity
  }

  predicate IsGroup(s: State, current: EntryMeta) {
    current.IsFile() && current.Object() in s.groups
  }

  function Remove(c: Ctx, s: State, parent: Key, name: Name, relative: Path, root: bool): (r: (State, Verdict))
    ensures |r.0.turns| <= |s.turns| && |r.0.listings| <= |s.listings|
    decreases |s.listings|, 0, 0
  {
    var (s1, t1) := Tick(c, s);
    var found := Stat(s1.fs, parent, name);
    if t1.cancelled || relative !in c.manifest || t1.fault || found.None? then Leaving(s1, Untouched)
    else
      var expected := c.manifest[relative];
      var current := found.value;
      var linked := IsGroup(s1, current);
      if !Matches(s1, expected, current, root) then Leaving(s1, Untouched)
      else if current.IsDir() then
        var (s2, fd) := OpenDirectory(c, s1, parent, name, expected);
        if fd.None? then Leaving(s2, Untouched)
        else
          var (s3, v) := if s2.listings == [] then (s2, Fine)
                         else RemoveEach(c, s2.(listings := s2.listings[1..]), fd.value, s2.listings[0], relative);
          if v.Stopped? then (s3, v) else CloseDirectory(c, s3, parent, name, expected)
      else if !current.IsFile() && !current.IsSymlink() then Leaving(s1, Untouched)
      else if !linked && current.links != 1 then Leaving(s1, Untouched)
      else RemoveLeaf(c, s1, parent, name, relative, current, linked)
  }

  /** `openat` and the identity check on the descriptor. */
  function OpenDirectory(c: Ctx, s: State, parent: Key, name: Name, expected: Identity): (r: (State, Option<Key>))
    ensures |r.0.turns| <= |s.turns| && r.0.listings == s.listings
  {
    var (s1, t1) := Tick(c, s);
    var found := Stat(s1.fs, parent, name);
    if t1.fault || found.None? || s1.fs.dirs[parent][name] !in s1.fs.dirs || !SameObject(expected, found.value.identity)
    then (s1, None)
    else (s1, Some(s1.fs.dirs[parent][name]))
  }

  /** Visit the names the live directory iterator yields. */
  function RemoveEach(c: Ctx, s: State, dir: Key, names: seq<Name>, relative: Path): (r: (State, Verdict))
    ensures |r.0.turns| <= |s.turns| && |r.0.listings| <= |s.listings|
    decreases |s.listings|, 1, |names|
  {
    if names == [] then (s, Fine)
    else
      var (s1, v) := Remove(c, s, dir, names[0], relative + [names[0]], false);
      if v.Stopped? then (s1, v) else RemoveEach(c, s1, dir, names[1..], relative)
  }

  /** The last checks on an emptied directory, and its removal. */
  function CloseDirectory(c: Ctx, s: State, parent: Key, name: Name, expected: Identity): (r: (State, Verdict))
    ensures |r.0.turns| <= |s.turns| && r.0.listings == s.listings
  {
    var (s1, t1) := Tick(c, s);
    var found := Stat(s1.fs, parent, name);
    if t1.cancelled || t1.fault || found.None? || !SameObject(expected, found.value.identity)
    then Leaving(s1, Untouched)
    else
      var (s2, t2) := Tick(c, s1);
      if t2.fault || !CanRemoveDir(s2.fs, parent, name) then Leaving(s2, Untouched)
      else (Put(s2, RemoveDir(s2.fs, parent, name)).(completed := SatAdd(s2.completed, 1)), Fine)
  }

  /** `LinkRemovals::ensure_exhausted`. */
  predicate Exhausted(groups: map<Key, LinkRemoval>) {
    forall k :: k in groups ==> groups[k].current.links == 0
  }
}
