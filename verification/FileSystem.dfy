/**
 * A file system value: inodes, and for every directory the names it holds.
 * A directory descriptor is the directory's key, so it keeps meaning the same
 * directory when some path to it is renamed.
 */
module FileSystem {
  import opened Prelude
  import opened Metadata

  type Name = string
  type Path = seq<Name>

  /** What the private allocation query by name answers for an inode. */
  datatype Direct = Unsupported | Failed | Bytes(bytes: nat)

  datatype Inode = Inode(
    mode: nat, size: nat, modified: int, changed: int,
    allocation: nat, links: nat, uid: nat, flags: nat,
    direct: Direct, byFd: Option<nat>)

  datatype Fs = Fs(inodes: map<Key, Inode>, dirs: map<Key, map<Name, Key>>, clock: int)

  function MetaOf(k: Key, i: Inode): EntryMeta {
    EntryMeta(Identity(k.device, k.inode, i.mode, i.size, i.modified, i.changed), i.allocation, i.links, i.uid, i.flags)
  }

  predicate Named(fs: Fs, dir: Key, name: Name) {
    dir in fs.dirs && name in fs.dirs[dir] && fs.dirs[dir][name] in fs.inodes
  }

  /** `fstatat` without following links. */
  function Stat(fs: Fs, dir: Key, name: Name): (meta: Option<EntryMeta>) {
    if Named(fs, dir, name) then FStat(fs, fs.dirs[dir][name]) else None
  }

  /** `fstat` on a descriptor for an inode. */
  function FStat(fs: Fs, k: Key): (meta: Option<EntryMeta>) {
    if k in fs.inodes then Some(MetaOf(k, fs.inodes[k])) else None
  }

  /** Every mutation stamps the moved inode's change time and the directories' times. */
  function Stamp(fs: Fs, changed: set<Key>, touched: set<Key>): map<Key, Inode> {
    map k | k in fs.inodes ::
      if k in touched then fs.inodes[k].(modified := fs.clock, changed := fs.clock)
      else if k in changed then fs.inodes[k].(changed := fs.clock)
      else fs.inodes[k]
  }

  predicate CanRename(fs: Fs, from: Key, name: Name, to: Key, dest: Name) {
    && Named(fs, from, name)
    && to in fs.dirs
    && from.device == to.device
    && dest !in fs.dirs[to]
  }

  /** `renameatx_np(RENAME_EXCL)`: moves a name, never over an existing one. */
  function Rename(fs: Fs, from: Key, name: Name, to: Key, dest: Name): Fs
    requires CanRename(fs, from, name, to, dest)
  {
    var k := fs.dirs[from][name];
    var without := fs.dirs[from := fs.dirs[from] - {name}];
    Fs(Stamp(fs, {k}, {from, to}), without[to := without[to][dest := k]], fs.clock + 1)
  }

  predicate CanUnlink(fs: Fs, dir: Key, name: Name) {
    Named(fs, dir, name) && fs.dirs[dir][name] !in fs.dirs
  }

  /** `unlinkat` of something that is not a directory. */
  function Unlink(fs: Fs, dir: Key, name: Name): Fs
    requires CanUnlink(fs, dir, name)
  {
    var k := fs.dirs[dir][name];
    var stamped := Stamp(fs, {k}, {dir});
    var links := stamped[k].links;
    Fs(stamped[k := stamped[k].(links := SatSub(links, 1))], fs.dirs[dir := fs.dirs[dir] - {name}], fs.clock + 1)
  }

  predicate CanRemoveDir(fs: Fs, dir: Key, name: Name) {
    && Named(fs, dir, name)
    && fs.dirs[dir][name] in fs.dirs
    && fs.dirs[dir][name] != dir
    && fs.dirs[fs.dirs[dir][name]] == map[]
  }

  /** `unlinkat(AT_REMOVEDIR)`: only an empty directory goes. */
  function RemoveDir(fs: Fs, dir: Key, name: Name): Fs
    requires CanRemoveDir(fs, dir, name)
  {
    var k := fs.dirs[dir][name];
    Fs(Stamp(fs, {}, {dir}) - {k}, fs.dirs[dir := fs.dirs[dir] - {name}] - {k}, fs.clock + 1)
  }

  /** `mkdirat` with a key the kernel chose. */
  predicate CanMakeDir(fs: Fs, dir: Key, name: Name, k: Key) {
    dir in fs.dirs && name !in fs.dirs[dir] && k !in fs.dirs && k !in fs.inodes && k.device == dir.device
  }

  function MakeDir(fs: Fs, dir: Key, name: Name, k: Key, made: Inode): Fs
    requires CanMakeDir(fs, dir, name, k)
  {
    Fs(Stamp(fs, {}, {dir})[k := made], fs.dirs[dir := fs.dirs[dir][name := k]][k := map[]], fs.clock + 1)
  }

  /**
   * The interference the engine is proved against: any change whatsoever,
   * except that the names inside the guarded directories stay as they are.
   * Their inodes may still be written, relinked or restamped, but an inode
   * with a name does not vanish.  A guarded directory is held open, so its key
   * is not reused once it is gone.
   */
  predicate Allowed(guarded: set<Key>, before: Fs, after: Fs) {
    forall d :: d in guarded ==>
      && (d in before.dirs <==> d in after.dirs)
      && (d in before.dirs ==> after.dirs[d] == before.dirs[d])
      && (d in before.dirs ==>
            forall n :: n in before.dirs[d] && before.dirs[d][n] in before.inodes ==> before.dirs[d][n] in after.inodes)
  }
}
