/** Object identities and metadata, as `stat` reports them to the engine. */
module Metadata {
  datatype Key = Key(device: nat, inode: nat)

  datatype Identity = Identity(device: nat, inode: nat, mode: nat, size: nat, modified: int, changed: int) {
    function Object(): Key { Key(device, inode) }
  }

  const KIND_DIRECTORY := 4
  const KIND_REGULAR := 8
  const KIND_SYMLINK := 10
  const DATALESS_FLAG := 0x4000_0000

  /** The file type bits `mode & S_IFMT`, shifted down. */
  function Kind(mode: nat): nat { mode / 0x1000 % 0x10 }

  datatype EntryMeta = EntryMeta(identity: Identity, allocation: nat, links: nat, uid: nat, flags: nat) {
    predicate IsDir() { Kind(identity.mode) == KIND_DIRECTORY }
    predicate IsFile() { Kind(identity.mode) == KIND_REGULAR }
    predicate IsSymlink() { Kind(identity.mode) == KIND_SYMLINK }
    predicate IsDataless() { flags / DATALESS_FLAG % 2 == 1 }
    function Object(): Key { identity.Object() }
  }

  predicate SameObject(a: Identity, b: Identity) {
    a.device == b.device && a.inode == b.inode && a.mode == b.mode
  }

  predicate SameAfterRename(expected: Identity, current: Identity) {
    SameObject(expected, current) && expected.size == current.size && expected.modified == current.modified
  }

  /** Nothing but the change time and the link count moved, and the count is the given one. */
  predicate SameLinkTransition(before: EntryMeta, after: EntryMeta, remaining: nat) {
    && after.links == remaining
    && after.(identity := after.identity.(changed := before.identity.changed), links := before.links) == before
  }
}
