/**
 A directory on a crash-prone disk, as one journal sees it.

 A name maps to an inode. Every change of a name that has not been followed by a directory sync is
 remembered as an alternative: at a machine crash each name independently takes its current value or any
 value it had since the last directory sync, which is what keeping or losing any subset of the unsynced
 directory changes can produce. An inode keeps a synced prefix; at a machine crash its content is any
 prefix, at least that long, of everything that may have reached the disk.
 */
module FileSystem {
  import opened Wrappers

  type Bytes = seq<char>
  type Ino = nat

  datatype Name =
    | NextSegment            // next-segment
    | NextSegmentPending     // next-segment.pending
    | ReservationMarker      // segment-reservation-v1
    | Incarnation            // incarnation
    | IncarnationPending     // incarnation.pending
    | Segment(number: nat)   // events-<number>.jsonl

  /** `lost` holds bytes cut off by a truncation that is not synced yet: a crash may bring them back. */
  datatype File = File(bytes: Bytes, synced: nat, lost: Bytes)

  const EmptyFile := File([], 0, [])

  datatype Fs = Fs(dir: map<Name, Ino>, alt: set<(Name, Option<Ino>)>, files: seq<File>)

  /** One system call that changes the directory or makes a change durable. */
  datatype Cmd =
    | SyncDir
    | Create(name: Name)               // O_CREAT | O_EXCL
    | Link(from: Name, to: Name)
    | Unlink(name: Name)
    | Write(name: Name, text: Bytes)
    | Fsync(name: Name)
    | SetLen(name: Name, len: nat)

  function Lookup(fs: Fs, n: Name): Option<Ino>
  {
    if n in fs.dir then Some(fs.dir[n]) else None
  }

  /** The values `n` may have after a machine crash. */
  ghost predicate May(fs: Fs, n: Name, e: Option<Ino>)
  {
    e == Lookup(fs, n) || (n, e) in fs.alt
  }

  predicate FileOk(f: File)
  {
    f.synced <= |f.bytes|
  }

  ghost predicate WellFormed(fs: Fs)
  {
    && (forall i | 0 <= i < |fs.files| :: FileOk(fs.files[i]))
    && (forall n | n in fs.dir :: fs.dir[n] < |fs.files|)
    && (forall a | a in fs.alt && a.1.Some? :: a.1.value < |fs.files|)
  }

  /** The file that `n` names. */
  function FileOf(fs: Fs, n: Name): File
    requires WellFormed(fs) && n in fs.dir
  {
    fs.files[fs.dir[n]]
  }

  /** The names of one inode; their number is its link count. */
  function Links(fs: Fs, i: Ino): set<Name>
  {
    set n | n in fs.dir && fs.dir[n] == i
  }

  /** The calls that the kernel does not refuse. */
  predicate Enabled(fs: Fs, c: Cmd)
  {
    match c
    case SyncDir => true
    case Create(n) => n !in fs.dir
    case Link(from, to) => from in fs.dir && to !in fs.dir
    case Unlink(n) => n in fs.dir
    case Write(n, _) => n in fs.dir
    case Fsync(n) => n in fs.dir
    case SetLen(n, len) => n in fs.dir && fs.dir[n] < |fs.files| && len <= |fs.files[fs.dir[n]].bytes|
  }

  function WriteFile(f: File, text: Bytes): File
  {
    f.(bytes := f.bytes + text, lost := [])
  }

  function SyncFile(f: File): File
  {
    File(f.bytes, |f.bytes|, [])
  }

  function TruncateFile(f: File, len: nat): File
    requires len <= |f.bytes|
  {
    File(f.bytes[..len], if f.synced <= len then f.synced else len, f.bytes[len..] + f.lost)
  }

  function Exec(fs: Fs, c: Cmd): (fs': Fs)
    requires WellFormed(fs) && Enabled(fs, c)
    ensures WellFormed(fs')
  {
    match c
    case SyncDir => fs.(alt := {})
    case Create(n) =>
      fs.(dir := fs.dir[n := |fs.files|], alt := fs.alt + {(n, Lookup(fs, n))}, files := fs.files + [EmptyFile])
    case Link(from, to) =>
      fs.(dir := fs.dir[to := fs.dir[from]], alt := fs.alt + {(to, Lookup(fs, to))})
    case Unlink(n) =>
      fs.(dir := fs.dir - {n}, alt := fs.alt + {(n, Lookup(fs, n))})
    case Write(n, text) =>
      fs.(files := fs.files[fs.dir[n] := WriteFile(FileOf(fs, n), text)])
    case Fsync(n) =>
      fs.(files := fs.files[fs.dir[n] := SyncFile(FileOf(fs, n))])
    case SetLen(n, len) =>
      fs.(files := fs.files[fs.dir[n] := TruncateFile(FileOf(fs, n), len)])
  }

  /**
   What an interrupted or failed call may leave behind: nothing, the whole effect, or part of a write.
   A failed sync promises nothing, so it leaves the state as it was.
   */
  ghost predicate Torn(fs: Fs, c: Cmd, fs': Fs)
    requires WellFormed(fs) && Enabled(fs, c)
  {
    || fs' == fs
    || fs' == Exec(fs, c)
    || (c.Write? && exists k: nat | k <= |c.text| :: fs' == Exec(fs, Write(c.name, c.text[..k])))
  }

  /** What may be found of one file after a machine crash. */
  ghost predicate CrashFile(f: File, f': File)
  {
    && f'.lost == []
    && f.synced <= f'.synced == |f'.bytes|
    && f'.bytes <= f.bytes + f.lost
  }

  /** A machine crash. A process crash is no change at all. */
  ghost predicate Crash(fs: Fs, fs': Fs)
  {
    && fs'.alt == {}
    && (forall n :: May(fs, n, Lookup(fs', n)))
    && |fs'.files| == |fs.files|
    && (forall i | 0 <= i < |fs.files| :: CrashFile(fs.files[i], fs'.files[i]))
  }

  lemma CrashWellFormed(fs: Fs, fs': Fs)
    requires WellFormed(fs) && Crash(fs, fs')
    ensures WellFormed(fs')
  {
    forall n | n in fs'.dir ensures fs'.dir[n] < |fs'.files| {
      assert May(fs, n, Lookup(fs', n));
    }
  }

  /** Running a list of calls to its end. */
  ghost predicate AllEnabled(fs: Fs, cs: seq<Cmd>)
    requires WellFormed(fs)
    decreases |cs|
  {
    cs == [] || (Enabled(fs, cs[0]) && AllEnabled(Exec(fs, cs[0]), cs[1..]))
  }

  ghost function ExecAll(fs: Fs, cs: seq<Cmd>): (fs': Fs)
    requires WellFormed(fs) && AllEnabled(fs, cs)
    ensures WellFormed(fs')
    decreases |cs|
  {
    if cs == [] then fs else ExecAll(Exec(fs, cs[0]), cs[1..])
  }
}
