/**
 The archive's files on a crash-prone disk: one directory per stream, one file per reception day.
 A name may revert to any meaning it had since its directory was last synced.
 */
module ArchiveDisk {
  import opened Wrappers
  import F = FileSystem

  type Bytes = F.Bytes
  type File = F.File

  datatype Key = Key(stream: nat, day: nat)

  /** `dirs` says of each stream directory whether it is durable. */
  datatype Disk = Disk(dirs: map<nat, bool>, files: map<Key, File>, olds: set<(Key, Option<File>)>)

  datatype Call =
    | MakeDir(stream: nat)
    | SyncRoot
    | CreateFile(key: Key)
    | Append(key: Key, bytes: Bytes)
    | SyncData(key: Key)
    | SyncDir(stream: nat)
    | SetLen(key: Key, len: nat)
    | Remove(key: Key)
    | RemoveDir(stream: nat)

  function Lookup(d: Disk, k: Key): Option<File> { if k in d.files then Some(d.files[k]) else None }

  predicate Possible(d: Disk, c: Call)
  {
    match c
    case MakeDir(st) => st !in d.dirs
    case SyncRoot => true
    case CreateFile(k) => k !in d.files && k.stream in d.dirs
    case Append(k, _) => k in d.files
    case SyncData(k) => k in d.files
    case SyncDir(st) => st in d.dirs
    case SetLen(k, len) => k in d.files && len <= |d.files[k].bytes|
    case Remove(k) => k in d.files
    case RemoveDir(st) => st in d.dirs && forall k | k in d.files :: k.stream != st
  }

  function Do(d: Disk, c: Call): Disk
    requires Possible(d, c)
  {
    match c
    case MakeDir(st) => d.(dirs := d.dirs[st := false])
    case SyncRoot => d.(dirs := map st | st in d.dirs :: true)
    case CreateFile(k) => d.(files := d.files[k := F.EmptyFile], olds := d.olds + {(k, None)})
    case Append(k, bytes) => d.(files := d.files[k := F.WriteFile(d.files[k], bytes)])
    case SyncData(k) => d.(files := d.files[k := F.SyncFile(d.files[k])])
    case SyncDir(st) => d.(olds := set o | o in d.olds && o.0.stream != st)
    case SetLen(k, len) => d.(files := d.files[k := F.TruncateFile(d.files[k], len)])
    case Remove(k) => d.(files := d.files - {k}, olds := d.olds + {(k, Some(d.files[k]))})
    case RemoveDir(st) => d.(dirs := d.dirs - {st})
  }

  /** How far a call may have got when it failed or was interrupted. */
  ghost predicate Partly(d: Disk, c: Call, d': Disk)
    requires Possible(d, c)
  {
    || d' == d
    || d' == Do(d, c)
    || (c.Append? && exists n: nat | n <= |c.bytes| :: d' == Do(d, Append(c.key, c.bytes[..n])))
  }

  /** Files are as long as what is synced of them, and stand in durable directories. */
  predicate Sound(d: Disk)
  {
    forall k | k in d.files :: F.FileOk(d.files[k]) && k.stream in d.dirs && d.dirs[k.stream]
  }

  /** What a machine crash may make of the disk. Directories whose removal was not synced may be back, empty. */
  ghost predicate Crash(d: Disk, d': Disk)
  {
    && d'.olds == {}
    && (forall st | st in d'.dirs :: d'.dirs[st])
    && (forall st | st in d.dirs && d.dirs[st] :: st in d'.dirs)
    && (forall k | k in d'.files :: k.stream in d'.dirs && From(d, k, d'.files[k]))
    && (forall k | k in d.files && k !in d'.files :: (k, None) in d.olds || k.stream !in d'.dirs)
  }

  ghost predicate From(d: Disk, k: Key, f': File)
  {
    exists f :: ((k in d.files && f == d.files[k]) || (k, Some(f)) in d.olds) && F.CrashFile(f, f')
  }
}
