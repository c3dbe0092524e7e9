/**
 Collection workers, the archive they append to and the ledger they commit to, as one step machine. Workers run
 concurrently; the archive's lock admits one job at a time; each ledger transaction is one step; and the process
 or the machine may stop between any two steps, or inside one.
 */
module ArchiveLedger {
  import opened Sums
  import opened ArchiveDisk
  import F = FileSystem

  const MAX_COMPRESSED_FRAME_BYTES: nat := 1024 * 1024

  type Digest = nat

  /** One committed frame. */
  datatype Row = Row(start: nat, end: nat, hash: Digest, data: Bytes)

  /** The frames of a stream and day, in commit order. */
  type Ledger = map<Key, seq<Row>>

  function Text(rows: seq<Row>): Bytes
  {
    if rows == [] then [] else Text(rows[..|rows| - 1]) + rows[|rows| - 1].data
  }

  function RowsOf(ledger: Ledger, k: Key): seq<Row> { if k in ledger then ledger[k] else [] }

  function Committed(ledger: Ledger, k: Key): Bytes { Text(RowsOf(ledger, k)) }

  /** What is fixed for a run: who polls a stream, the digest, and the quota. */
  datatype World = World(owner: nat -> nat, digest: Bytes -> Digest, quota: nat)

  /** A frame that was appended and is not committed yet. */
  datatype Frame = Frame(key: Key, start: nat, data: Bytes)

  datatype Worker =
    | Idle
    | Appending
    | Holding(frame: Frame)   // appended and synced, the commit comes next
    | Refused(frame: Frame)   // the commit was stale, the truncation comes next
    | Cutting
    | Dead                    // stopped by a fatal error until the process restarts

  /** What the archive's lock is held for. */
  datatype Job =
    | Free
    | AppendJob(target: nat, frame: Frame)
    | CutJob(target: nat, frame: Frame)
    | PruneJob(cutoff: nat, freed: nat)
    | RecoverJob(left: set<Key>)

  datatype Process = Off | Starting | Running | Failed

  /**
   `used` and `poisoned` are the archive's own state. `failed` remembers whether any archive operation has failed
   since the last scan.
   */
  datatype Sys = Sys(disk: Disk, ledger: Ledger, process: Process, workers: map<nat, Worker>,
                     job: Job, todo: seq<Call>, used: nat, poisoned: bool, failed: bool)

  function WorkerOf(s: Sys, t: nat): Worker { if t in s.workers then s.workers[t] else Idle }

  function Put(s: Sys, t: nat, w: Worker): Sys { s.(workers := s.workers[t := w]) }

  // ----- append -----

  /** The calls of `append_reserved`. */
  function AppendCalls(d: Disk, k: Key, data: Bytes): seq<Call>
  {
    (if k.stream in d.dirs then [] else [MakeDir(k.stream), SyncRoot])
    + (if k in d.files then [] else [CreateFile(k)])
    + [Append(k, data), SyncData(k)]
    + (if k in d.files then [] else [SyncDir(k.stream)])
  }

  function StartOf(d: Disk, k: Key): nat { if k in d.files then |d.files[k].bytes| else 0 }

  /** `append` up to its reservation of the bytes: refused by a poisoned archive and by the limits. */
  ghost predicate BeginAppend(world: World, s: Sys, s': Sys, t: nat, k: Key, data: Bytes)
  {
    && s.process.Running? && s.job.Free?
    && WorkerOf(s, t).Idle? && world.owner(k.stream) == t && data != []
    && s' == if s.poisoned then Put(s, t, Dead)
             else if |data| > MAX_COMPRESSED_FRAME_BYTES || s.used + |data| > world.quota then s
             else Put(s, t, Appending).(job := AppendJob(t, Frame(k, StartOf(s.disk, k), data)),
                                        todo := AppendCalls(s.disk, k, data), used := s.used + |data|)
  }

  // ----- commit -----

  function Insert(world: World, ledger: Ledger, f: Frame): Ledger
  {
    ledger[f.key := RowsOf(ledger, f.key) + [Row(f.start, f.start + |f.data|, world.digest(f.data), f.data)]]
  }

  /** `commit_journal_batch` of a frame: committed with its cursor, stale, or a database error. */
  ghost predicate Commit(world: World, s: Sys, s': Sys, t: nat)
  {
    && s.process.Running? && WorkerOf(s, t).Holding?
    && var f := WorkerOf(s, t).frame;
       || s' == Put(s, t, Idle).(ledger := Insert(world, s.ledger, f))
       || s' == Put(s, t, Refused(f))
       || s' == Put(s, t, Dead)
       || s' == Put(s, t, Dead).(ledger := Insert(world, s.ledger, f))
  }

  /** `truncate_uncommitted` */
  ghost predicate BeginCut(s: Sys, s': Sys, t: nat)
  {
    && s.process.Running? && s.job.Free? && WorkerOf(s, t).Refused?
    && var f := WorkerOf(s, t).frame;
       s' == Put(s, t, Cutting).(job := CutJob(t, f), todo := [SetLen(f.key, f.start), SyncData(f.key)])
  }

  // ----- retention -----

  function Retained(ledger: Ledger, cutoff: nat): Ledger { map k | k in ledger && k.day >= cutoff :: ledger[k] }

  /** Between polls, when no worker runs: the ledger forgets old days, then `prune_before` takes the lock. */
  ghost predicate BeginPrune(s: Sys, s': Sys, cutoff: nat)
  {
    && s.process.Running? && s.job.Free? && (forall t :: WorkerOf(s, t).Idle?)
    && s' == s.(ledger := Retained(s.ledger, cutoff), job := PruneJob(cutoff, 0))
  }

  /** `prune_before` turns to an old file. */
  ghost predicate PruneFile(s: Sys, s': Sys, k: Key)
  {
    && s.process.Running? && s.job.PruneJob? && s.todo == [] && s.job.freed == 0
    && k in s.disk.files && k.day < s.job.cutoff
    && s' == s.(job := PruneJob(s.job.cutoff, |s.disk.files[k].bytes|), todo := [Remove(k), SyncDir(k.stream)])
  }

  /** An empty stream directory is removed, when pruning and when recovering. */
  ghost predicate DropDir(s: Sys, s': Sys, st: nat)
  {
    && s.todo == [] && ((s.process.Running? && s.job.PruneJob? && s.job.freed == 0)
                        || (s.process.Starting? && s.job.RecoverJob?))
    && Possible(s.disk, RemoveDir(st)) && s' == s.(todo := [RemoveDir(st), SyncRoot])
  }

  ghost predicate EndPrune(s: Sys, s': Sys)
  {
    && s.process.Running? && s.job.PruneJob? && s.todo == [] && s.job.freed == 0
    && (forall k | k in s.disk.files :: k.day >= s.job.cutoff)
    && s' == s.(job := Free)
  }

  // ----- startup -----

  /** The process starts: the ledger forgets old days, and recovery lists the files. */
  ghost predicate Restart(s: Sys, s': Sys, cutoff: nat)
  {
    && s.process.Off?
    && s' == s.(process := Starting, ledger := Retained(s.ledger, cutoff), workers := map[],
                job := RecoverJob(s.disk.files.Keys), todo := [])
  }

  /** What `verify_and_truncate` checks before it cuts. */
  predicate Verified(world: World, f: F.File, row: Row)
  {
    && row.start < row.end && row.end - row.start <= MAX_COMPRESSED_FRAME_BYTES
    && row.end <= |f.bytes|
    && world.digest(f.bytes[row.start..row.end]) == row.hash
  }

  /** The row that `final_frame_boundaries` selects: the one with the greatest end. */
  ghost predicate Final(rows: seq<Row>, row: Row)
  {
    row in rows && forall r | r in rows :: r.end <= row.end
  }

  /** `recover_locked` turns to a file: one that the ledger does not know is removed, others are checked and cut. */
  ghost predicate RecoverFile(world: World, s: Sys, s': Sys, k: Key, row: Row)
  {
    && s.process.Starting? && s.job.RecoverJob? && s.todo == [] && k in s.job.left && k in s.disk.files
    && if RowsOf(s.ledger, k) == []
       then s' == s.(job := RecoverJob(s.job.left - {k}), todo := [Remove(k), SyncDir(k.stream)])
       else Final(RowsOf(s.ledger, k), row)
            && s' == if Verified(world, s.disk.files[k], row)
                     then s.(job := RecoverJob(s.job.left - {k}), todo := [SetLen(k, row.end), SyncData(k)])
                     else s.(process := Failed)
  }

  /** Recovery ends: every boundary must have found its file. */
  ghost predicate EndRecover(s: Sys, s': Sys)
  {
    && s.process.Starting? && s.job.RecoverJob? && s.todo == [] && s.job.left == {}
    && (forall st | st in s.disk.dirs :: !Possible(s.disk, RemoveDir(st)))
    && s' == if forall k | k in s.ledger :: RowsOf(s.ledger, k) == [] || k in s.disk.files
             then s.(process := Running, job := Free, used := Total(s.disk.files), poisoned := false, failed := false)
             else s.(process := Failed)
  }

  /** The sum of all file lengths. */
  ghost function Total(files: map<Key, F.File>): nat { Sum(files, Size) }

  function Size(f: F.File): nat { |f.bytes| }

  // ----- calls -----

  ghost predicate Proceed(s: Sys, s': Sys)
  {
    && s.todo != [] && Possible(s.disk, s.todo[0])
    && s' == s.(disk := Do(s.disk, s.todo[0]), todo := s.todo[1..])
  }

  /** A job's calls are done. */
  ghost predicate Finish(s: Sys, s': Sys)
  {
    && s.process.Running? && s.todo == []
    && match s.job
       case AppendJob(t, f) => s' == Put(s, t, Holding(f)).(job := Free)
       case CutJob(t, f) =>
         s' == if |f.data| <= s.used then Put(s, t, Idle).(job := Free, used := s.used - |f.data|)
               else Put(s, t, Dead).(job := Free, failed := true)
       case PruneJob(cutoff, freed) =>
         s' == if freed <= s.used then s.(job := PruneJob(cutoff, 0), used := s.used - freed)
               else s.(process := Failed)
       case _ => false
  }

  ghost predicate Stopped(s: Sys, d: Disk)
  {
    d == s.disk || (s.todo != [] && Possible(s.disk, s.todo[0]) && Partly(s.disk, s.todo[0], d))
  }

  /** A call fails. A failed append poisons the archive; a failed prune or recovery ends the process. */
  ghost predicate Fail(s: Sys, s': Sys)
  {
    && s.todo != []
    && exists d :: Stopped(s, d) && s' == AfterFailure(s).(disk := d)
  }

  function AfterFailure(s: Sys): Sys
  {
    match s.job
    case AppendJob(t, _) => Put(s, t, Dead).(job := Free, todo := [], poisoned := true, failed := true)
    case CutJob(t, _) => Put(s, t, Dead).(job := Free, todo := [], failed := true)
    case _ => Ended(s)
  }

  function Ended(s: Sys): Sys { s.(process := Off, workers := map[], job := Free, todo := [], failed := true) }

  ghost predicate Exit(s: Sys, s': Sys)
  {
    exists d :: Stopped(s, d) && s' == Ended(s).(disk := d)
  }

  ghost predicate PowerLoss(s: Sys, s': Sys)
  {
    exists d :: Stopped(s, d) && Crash(d, s'.disk) && s' == Ended(s).(disk := s'.disk)
  }

  ghost predicate Next(world: World, s: Sys, s': Sys)
  {
    || (exists t, k, data :: BeginAppend(world, s, s', t, k, data))
    || (exists t :: Commit(world, s, s', t)) || (exists t :: BeginCut(s, s', t))
    || (exists cutoff :: BeginPrune(s, s', cutoff)) || (exists k :: PruneFile(s, s', k)) || EndPrune(s, s')
    || (exists st :: DropDir(s, s', st))
    || (exists cutoff :: Restart(s, s', cutoff)) || (exists k, row :: RecoverFile(world, s, s', k, row)) || EndRecover(s, s')
    || Proceed(s, s') || Finish(s, s') || Fail(s, s') || Exit(s, s') || PowerLoss(s, s')
  }

  ghost predicate Init(s: Sys)
  {
    s == Sys(Disk(map[], map[], {}), map[], Off, map[], Free, [], 0, false, false)
  }

  ghost predicate Run(world: World, run: seq<Sys>)
  {
    && run != [] && Init(run[0])
    && forall i | 0 <= i < |run| - 1 :: Next(world, run[i], run[i + 1])
  }
}
