/**
 * The creation of the private recovery directory.  `mkdirat` returns no
 * descriptor, so the engine looks the name up, opens it, and compares the two;
 * a name pointed elsewhere before the first look is not noticed.
 */
module RecoveryDirectory {
  import opened Prelude
  import opened Metadata
  import opened FileSystem
  import opened Removal
  import opened RemovalSafety
  import Runs = RemovalRuns

  /** The object seen first, owned by this user, with the permissions it was made with. */
  predicate Owned(identity: Identity, meta: EntryMeta, euid: nat) {
    SameObject(identity, meta.identity) && meta.uid == euid && meta.identity.mode % 0x200 == 0x1C0
  }

  /** `create` accepts `k`: the name looked up in `seen`, opened in `opening`, its descriptor examined in `last`. */
  predicate Accepts(parent: Key, name: Name, euid: nat, seen: Fs, opening: Fs, last: Fs, k: Key) {
    && Stat(seen, parent, name).Some?
    && Named(opening, parent, name) && opening.dirs[parent][name] == k && k in opening.dirs
    && FStat(last, k).Some? && Owned(Stat(seen, parent, name).value.identity, FStat(last, k).value, euid)
  }

  /**
   * It is accepted exactly if the name led to it at the look and at the open,
   * its mode did not change since, it is this user's, and only this user has
   * permissions, all three.
   */
  lemma AcceptsExactly(parent: Key, name: Name, euid: nat, seen: Fs, opening: Fs, last: Fs, k: Key)
    ensures Accepts(parent, name, euid, seen, opening, last, k) <==>
      && Named(seen, parent, name) && seen.dirs[parent][name] == k
      && Named(opening, parent, name) && opening.dirs[parent][name] == k && k in opening.dirs
      && k in last.inodes && last.inodes[k].mode == seen.inodes[k].mode && last.inodes[k].uid == euid
      && last.inodes[k].mode / 0x40 % 8 == 7 && last.inodes[k].mode % 0x40 == 0
  {
  }

  /** Other processes lead from the new directory in `made` to its acceptance as `k`. */
  predicate Creates(c: Ctx, parent: Key, name: Name, made: Fs, seen: Fs, opening: Fs, last: Fs, k: Key) {
    && Allowed(c.guarded, made, seen) && Allowed(c.guarded, seen, opening) && Allowed(c.guarded, opening, last)
    && Accepts(parent, name, c.euid, seen, opening, last, k)
  }

  /** Whatever they do, every name in the accepted directory has a committed row. */
  ghost predicate OpensAhead(c: Ctx, parent: Key, name: Name, made: Fs) {
    forall seen, opening, last, k :: Creates(c, parent, name, made, seen, opening, last, k) ==>
      RecoveryRows(c.(recovery := k), last)
  }

  /** In a directory left alone the name still holds what was made, and nothing is in it. */
  lemma OpensMade(c: Ctx, parent: Key, name: Name, made: Fs, seen: Fs, opening: Fs, last: Fs, k: Key)
    requires parent in c.guarded && c.recovery in c.guarded
    requires Named(made, parent, name) && made.dirs[parent][name] == c.recovery
    requires c.recovery in made.dirs && made.dirs[c.recovery] == map[]
    requires Creates(c, parent, name, made, seen, opening, last, k)
    ensures k == c.recovery && last.dirs[k] == map[]
  {
  }

  const FOREIGN: Name := "x"

  /** Another process points the name at its own directory `k`, with the right owner and mode and a name in it. */
  function Diverted(made: Fs, parent: Key, name: Name, k: Key, euid: nat): Fs
    requires parent in made.dirs
  {
    var inode := Inode(KIND_DIRECTORY * 0x1000 + 0x1C0, 0, 0, 0, 0, 2, euid, 0, Unsupported, None);
    var dirs := made.dirs[parent := made.dirs[parent][name := k]][k := map[FOREIGN := parent]];
    Fs(made.inodes[k := inode], dirs, made.clock)
  }

  lemma ForeignHasNoRow(c: Ctx)
    ensures !HasRow(c, FOREIGN)
  {
    forall p | p in c.manifest ensures FOREIGN != LeafName(c.operation, p) {
      assert |LeafName(c.operation, p)| >= 5;
    }
  }

  /** Every check passes, and the first name in the recovery directory has no row. */
  lemma DivertedIsAccepted(c: Ctx, parent: Key, name: Name, made: Fs, k: Key)
    requires parent in made.dirs && parent !in c.guarded && k !in c.guarded && k != parent
    ensures var other := Diverted(made, parent, name, k, c.euid);
      && Creates(c, parent, name, made, other, other, other, k)
      && !RecoveryRows(c.(recovery := k), other)
  {
    ForeignHasNoRow(c.(recovery := k));
  }

  lemma {:induction false} UnusedKey(used: set<Key>, device: nat) returns (k: Key, bound: nat)
    ensures k !in used && k.device == device && forall u :: u in used ==> u.inode < bound
    decreases used
  {
    if used == {} { return Key(device, 0), 0; }
    var u :| u in used;
    k, bound := UnusedKey(used - {u}, device);
    bound := Max(bound, u.inode + 1);
    k := Key(device, bound);
  }

  /**
   * The write-ahead order survives the creation of the recovery directory, in
   * every run, exactly if the item's directory is one that other processes
   * leave alone.
   */
  lemma OpensAheadExactly(c: Ctx, parent: Key, name: Name, fs: Fs, inode: Inode)
    requires c.recovery in c.guarded && CanMakeDir(fs, parent, name, c.recovery)
    ensures OpensAhead(c, parent, name, MakeDir(fs, parent, name, c.recovery, inode)) <==> parent in c.guarded
  {
    var made := MakeDir(fs, parent, name, c.recovery, inode);
    if parent in c.guarded {
      forall seen, opening, last, k | Creates(c, parent, name, made, seen, opening, last, k)
        ensures RecoveryRows(c.(recovery := k), last)
      {
        OpensMade(c, parent, name, made, seen, opening, last, k);
      }
    } else {
      var k, _ := UnusedKey(c.guarded + {parent}, parent.device);
      DivertedIsAccepted(c, parent, name, made, k);
    }
  }

  /** Whichever directory was opened: the removal keeps a row for every name in it exactly if it found it so. */
  lemma RowsKeptExactly(c: Ctx, s: State, parent: Key, stage: Name)
    requires Guarded(c) && parent != c.recovery && Runs.GroupsSound(s.groups)
    ensures var (s', v) := Remove(c, s, parent, stage, [], true);
      && |s.trace| <= |s'.trace|
      && (RecoveryRows(c, s.fs) <==> forall i :: |s.trace| <= i <= |s'.trace| ==> RecoveryRows(c, Before(s, s', i)))
  {
    Runs.RemoveWalks(c, s, parent, stage, [], true);
    var (s', v) := Remove(c, s, parent, stage, [], true);
    hide Remove, RecoveryRows, Guarded, SafeStep;
    assert Run(c, s, s') && Before(s, s', |s.trace|) == s.fs;
  }
}
