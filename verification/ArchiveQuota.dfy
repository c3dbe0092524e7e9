/** The archive's own count of its bytes, over every run. */
module ArchiveQuota {
  import opened Sums
  import opened ArchiveDisk
  import opened ArchiveLedger
  import opened ArchiveSafety
  import opened ArchiveWork
  import opened ArchiveRuns
  import F = FileSystem

  /** How the sum of lengths changes with one call. */
  function Growth(d: Disk, c: Call): int
    requires Possible(d, c)
  {
    match c
    case Append(_, bytes) => |bytes|
    case SetLen(k, len) => len - |d.files[k].bytes|
    case Remove(k) => -|d.files[k].bytes|
    case _ => 0
  }

  lemma CallTotal(d: Disk, c: Call)
    requires Possible(d, c)
    ensures Total(Do(d, c).files) == Total(d.files) + Growth(d, c)
  {
    match c
    case CreateFile(k) => SumPut(d.files, Size, k, F.EmptyFile);
    case Append(k, bytes) => SumPut(d.files, Size, k, F.WriteFile(d.files[k], bytes));
    case SyncData(k) => SumPut(d.files, Size, k, F.SyncFile(d.files[k]));
    case SetLen(k, len) => SumPut(d.files, Size, k, F.TruncateFile(d.files[k], len));
    case Remove(k) => SumSplit(d.files, Size, k);
    case _ =>
  }

  // ----- the count -----

  /** By how much the count is ahead of the files while a job runs, if nothing went wrong. */
  function Lead(s: Sys): int
  {
    match s.job
    case AppendJob(_, f) => f.start + |f.data| - StartOf(s.disk, f.key)
    case CutJob(_, f) => f.start + |f.data| - StartOf(s.disk, f.key)
    case PruneJob(_, freed) => if s.todo != [] && s.todo[0].Remove? then 0 else freed
    case _ => 0
  }

  /** The count is never below the files, and exact when nothing has failed since the last scan. */
  ghost predicate CountInv(world: World, s: Sys)
  {
    s.process.Running? ==>
      && s.used >= Total(s.disk.files) + Lead(s) && Lead(s) >= 0
      && (!s.failed ==> s.used == Total(s.disk.files) + Lead(s))
      && (s.job.AppendJob? ==> s.used <= world.quota)
  }

  lemma CountCall(world: World, s: Sys, s': Sys)
    requires SysInv(world, s) && CountInv(world, s) && Proceed(s, s')
    ensures CountInv(world, s')
  {
    if s.process.Running? {
      CallTotal(s.disk, s.todo[0]);
      LeadCall(world, s, s');
    }
  }

  lemma LeadCall(world: World, s: Sys, s': Sys)
    requires SysInv(world, s) && s.process.Running? && Proceed(s, s')
    ensures Lead(s') == Lead(s) - Growth(s.disk, s.todo[0]) && Lead(s') >= 0
  {
    hide BaseInv;
    match s.job
    case AppendJob(t, f) => AppendLead(world, s, s', t, f) by { StartKnown(world, s, f.key); }
    case CutJob(t, f) => OwnerOf(world, s.ledger, t, f);
    case PruneJob(_, _) =>
    case _ =>
  }

  lemma StartKnown(world: World, s: Sys, k: Key)
    requires BaseInv(world, s.disk, s.ledger)
    ensures k !in s.disk.files ==> Committed(s.ledger, k) == []
  {
    Uncommitted(world, s.disk, s.ledger, k);
  }

  lemma AppendLead(world: World, s: Sys, s': Sys, t: nat, f: Frame)
    requires s.job == AppendJob(t, f) && AppendStage(s.disk, s.ledger, f, s.todo) && FrameOk(world, s.ledger, t, f)
    requires Proceed(s, s') && (f.key !in s.disk.files ==> Committed(s.ledger, f.key) == [])
    ensures Lead(s') == Lead(s) - Growth(s.disk, s.todo[0]) && Lead(s') >= 0
  {
    var c := s.todo[0];
    assert c.Append? ==> s'.disk.files[f.key].bytes == s.disk.files[f.key].bytes + f.data;
    assert c == Append(f.key, f.data) || c == SyncRoot || c == SyncData(f.key) || c == SyncDir(f.key.stream)
           || c == MakeDir(f.key.stream) || c == CreateFile(f.key);
  }

  lemma CountStopped(world: World, s: Sys, d: Disk)
    requires SysInv(world, s) && CountInv(world, s) && s.process.Running? && Stopped(s, d)
    requires s.job.AppendJob? || s.job.CutJob?
    ensures s.used >= Total(d.files)
  {
    if d != s.disk {
      var c := s.todo[0];
      LeadCall(world, s, s.(disk := Do(s.disk, c), todo := s.todo[1..]));
      CallTotal(s.disk, c);
      if d != Do(s.disk, c) {
        var n: nat :| n <= |c.bytes| && d == Do(s.disk, Append(c.key, c.bytes[..n]));
        CallTotal(s.disk, Append(c.key, c.bytes[..n]));
      }
    }
  }

  // ----- failures -----

  lemma FileFailure(world: World, s: Sys, s': Sys, d: Disk)
    requires SysInv(world, s) && s.process.Running? && s.todo != [] && Stopped(s, d)
    requires (s.job.AppendJob? || s.job.CutJob?) && s' == AfterFailure(s).(disk := d)
    ensures SysInv(world, s')
  {
    var t, f := s.job.target, s.job.frame;
    StoppedKeeps(world, s, d);
    OwnerOf(world, s.ledger, t, f);
    assert forall k | k != f.key :: !Touches(s.todo[0], k) by {
      if s.job.AppendJob? { AppendTouches(s.disk, s.ledger, f, s.todo); } else { CutTouches(s.disk, s.ledger, f, s.todo); }
    }
    assert s.job.CutJob? ==> s.todo[0].SetLen? || s.todo[0].SyncData?;
    var c := if d == s.disk then SyncRoot else DoneOf(s, d);
    hide BaseInv, AppendStage, CutStage, FrameOk, KeyInv, WorkerInv, Stopped, Touches;
    forall k ensures KeyInv(world, s', k) {
      FailedKey(world, s, s', d, c, k);
    }
    forall u ensures WorkerInv(world, s', u) {
      FailedWorker(world, s, s', d, c, u);
    }
  }

  lemma FailedWorker(world: World, s: Sys, s': Sys, d: Disk, c: Call, u: nat)
    requires WorkerInv(world, s, u) && (s.job.AppendJob? || s.job.CutJob?) && s' == AfterFailure(s).(disk := d)
    requires world.owner(s.job.frame.key.stream) == s.job.target
    requires d != s.disk ==> Possible(s.disk, c) && d == Do(s.disk, c) && forall j | j != s.job.frame.key :: !Touches(c, j)
    ensures WorkerInv(world, s', u)
  {
    hide Appended;
    if d != s.disk && u != s.job.target && (WorkerOf(s, u).Holding? || WorkerOf(s, u).Refused?) {
      AppendedElsewhere(s.disk, s.ledger, c, WorkerOf(s, u).frame);
    }
  }

  ghost function DoneOf(s: Sys, d: Disk): (c: Call)
    requires Stopped(s, d) && d != s.disk
    ensures Possible(s.disk, c) && d == Do(s.disk, c) && forall k :: Touches(c, k) <==> Touches(s.todo[0], k)
    ensures s.todo[0].SetLen? || s.todo[0].SyncData? ==> c == s.todo[0]
  {
    var c := s.todo[0];
    if d == Do(s.disk, c) then c else
    var n: nat :| n <= |c.bytes| && d == Do(s.disk, Append(c.key, c.bytes[..n]));
    Append(c.key, c.bytes[..n])
  }

  lemma FailedKey(world: World, s: Sys, s': Sys, d: Disk, c: Call, k: Key)
    requires KeyInv(world, s, k) && (s.job.AppendJob? || s.job.CutJob?) && s' == AfterFailure(s).(disk := d)
    requires world.owner(s.job.frame.key.stream) == s.job.target
    requires WorkerOf(s, s.job.target).Appending? || WorkerOf(s, s.job.target).Cutting?
    requires d != s.disk ==> Possible(s.disk, c) && d == Do(s.disk, c) && forall j | j != s.job.frame.key :: !Touches(c, j)
    ensures KeyInv(world, s', k)
  {
    hide Exactly;
    if k in d.files && k != s.job.frame.key && d != s.disk {
      Elsewhere(s.disk, s.ledger, c, k);
    }
  }

  lemma FailStep(world: World, s: Sys, s': Sys)
    requires SysInv(world, s) && CountInv(world, s) && Fail(s, s')
    ensures SysInv(world, s') && CountInv(world, s')
  {
    hide BaseInv, RunningInv, RecoverStage, Stopped;
    var d :| Stopped(s, d) && s' == AfterFailure(s).(disk := d);
    if s.job.AppendJob? || s.job.CutJob? {
      JobMeansRunning(world, s);
      FileFailure(world, s, s', d);
      CountStopped(world, s, d);
    } else {
      StoppedKeeps(world, s, d);
    }
  }

  lemma JobMeansRunning(world: World, s: Sys)
    requires SysInv(world, s) && (s.job.AppendJob? || s.job.CutJob?) && s.todo != []
    ensures s.process.Running?
  {}

  lemma StopStep(world: World, s: Sys, s': Sys)
    requires SysInv(world, s) && (Exit(s, s') || PowerLoss(s, s'))
    ensures SysInv(world, s') && CountInv(world, s')
  {
    hide BaseInv, RunningInv, RecoverStage, Stopped;
    if Exit(s, s') {
      var d :| Stopped(s, d) && s' == Ended(s).(disk := d);
      StoppedKeeps(world, s, d);
    } else {
      var d :| Stopped(s, d) && Crash(d, s'.disk) && s' == Ended(s).(disk := s'.disk);
      StoppedKeeps(world, s, d);
      CrashKeeps(world, d, s.ledger, s'.disk);
    }
  }

  // ----- every step -----

  lemma ProceedStep(world: World, s: Sys, s': Sys)
    requires SysInv(world, s) && CountInv(world, s) && Proceed(s, s')
    ensures SysInv(world, s') && CountInv(world, s')
  {
    CountCall(world, s, s');
    hide RunningInv, BaseInv, RecoverStage;
    if s.process.Running? {
      if s.job.AppendJob? { AppendCallStep(world, s, s');
      } else if s.job.CutJob? { CutCallStep(world, s, s');
      } else { OnlyPruneLeft(world, s); PruneCallStep(world, s, s'); }
    } else {
      RecoverCallStep(world, s, s');
    }
  }

  lemma OnlyPruneLeft(world: World, s: Sys)
    requires SysInv(world, s) && s.process.Running? && s.todo != [] && !s.job.AppendJob? && !s.job.CutJob?
    ensures s.job.PruneJob?
  {}

  lemma FinishStep(world: World, s: Sys, s': Sys)
    requires SysInv(world, s) && CountInv(world, s) && Finish(s, s')
    ensures SysInv(world, s') && CountInv(world, s')
    ensures s.job.AppendJob? ==> Total(s'.disk.files) <= world.quota
  {
    FinishLead(world, s);
    if s.job.PruneJob? {
      FinishPrune(world, s, s');
    } else {
      FinishFile(world, s, s');
    }
    hide SysInv;
  }

  lemma FinishLead(world: World, s: Sys)
    requires SysInv(world, s) && s.process.Running? && s.todo == []
    ensures s.job.AppendJob? ==> Lead(s) == 0
    ensures s.job.CutJob? ==> Lead(s) == |s.job.frame.data|
    ensures s.job.PruneJob? ==> Lead(s) == s.job.freed
  {
    hide BaseInv;
  }

  lemma BeginStep(world: World, s: Sys, s': Sys, t: nat, k: Key, data: Bytes, cutoff: nat, st: nat)
    requires SysInv(world, s) && CountInv(world, s)
    requires || BeginAppend(world, s, s', t, k, data) || Commit(world, s, s', t) || BeginCut(s, s', t)
             || BeginPrune(s, s', cutoff) || PruneFile(s, s', k) || EndPrune(s, s')
             || (DropDir(s, s', st) && s.process.Running?)
    ensures SysInv(world, s') && CountInv(world, s')
  {
    hide SysInv, CountInv, BeginAppend, Commit, BeginCut, BeginPrune, PruneFile, EndPrune, DropDir;
    if BeginAppend(world, s, s', t, k, data) {
      AppendBegins(world, s, s', t, k, data);
      BeginAppendStep(world, s, s', t, k, data);
    } else if Commit(world, s, s', t) {
      CommitCount(world, s, s', t);
      CommitStep(world, s, s', t);
    } else if BeginCut(s, s', t) {
      CutBegins(world, s, s', t);
      BeginCutStep(world, s, s', t);
    } else {
      PruneBegins(world, s, s', k, cutoff, st);
      if BeginPrune(s, s', cutoff) { BeginPruneStep(world, s, s', cutoff); } else { PruneDecides(world, s, s', k, st); }
    }
  }

  lemma AppendBegins(world: World, s: Sys, s': Sys, t: nat, k: Key, data: Bytes)
    requires CountInv(world, s) && BeginAppend(world, s, s', t, k, data)
    ensures CountInv(world, s')
  {
    hide AppendCalls;
  }

  lemma CommitCount(world: World, s: Sys, s': Sys, t: nat)
    requires CountInv(world, s) && Commit(world, s, s', t)
    ensures CountInv(world, s')
  {
    hide Insert;
  }

  lemma CutBegins(world: World, s: Sys, s': Sys, t: nat)
    requires SysInv(world, s) && CountInv(world, s) && BeginCut(s, s', t)
    ensures CountInv(world, s')
  {
    RefusedEnd(world, s, t);
    hide SysInv;
  }

  lemma PruneBegins(world: World, s: Sys, s': Sys, k: Key, cutoff: nat, st: nat)
    requires CountInv(world, s)
    requires BeginPrune(s, s', cutoff) || PruneFile(s, s', k) || EndPrune(s, s') || (DropDir(s, s', st) && s.process.Running?)
    ensures CountInv(world, s')
  {
    hide Retained;
  }

  lemma RefusedEnd(world: World, s: Sys, t: nat)
    requires SysInv(world, s) && s.process.Running? && WorkerOf(s, t).Refused?
    ensures var f := WorkerOf(s, t).frame; f.start + |f.data| == StartOf(s.disk, f.key)
  {
    hide BaseInv, JobInv;
    assert WorkerInv(world, s, t);
  }

  lemma StepKeeps(world: World, s: Sys, s': Sys)
    requires SysInv(world, s) && CountInv(world, s) && Next(world, s, s')
    ensures SysInv(world, s') && CountInv(world, s')
  {
    hide SysInv, CountInv, BeginAppend, Commit, BeginCut, BeginPrune, PruneFile, EndPrune, DropDir, Restart,
         RecoverFile, EndRecover, Proceed, Finish, Fail, Exit, PowerLoss;
    if t, k, data :| BeginAppend(world, s, s', t, k, data) { BeginStep(world, s, s', t, k, data, 0, 0);
    } else if t :| Commit(world, s, s', t) { BeginStep(world, s, s', t, Key(0, 0), [], 0, 0);
    } else if t :| BeginCut(s, s', t) { BeginStep(world, s, s', t, Key(0, 0), [], 0, 0);
    } else if cutoff :| BeginPrune(s, s', cutoff) { BeginStep(world, s, s', 0, Key(0, 0), [], cutoff, 0);
    } else if k :| PruneFile(s, s', k) { BeginStep(world, s, s', 0, k, [], 0, 0);
    } else if EndPrune(s, s') { BeginStep(world, s, s', 0, Key(0, 0), [], 0, 0);
    } else if st :| DropDir(s, s', st) { DropStep(world, s, s', st);
    } else if cutoff :| Restart(s, s', cutoff) { RestartStep(world, s, s', cutoff);
    } else if k, row :| RecoverFile(world, s, s', k, row) { RecoverStep(world, s, s', k, row);
    } else if EndRecover(s, s') { EndRecoverCount(world, s, s');
    } else if Proceed(s, s') { ProceedStep(world, s, s');
    } else if Finish(s, s') { FinishStep(world, s, s');
    } else if Fail(s, s') { FailStep(world, s, s');
    } else { StopStep(world, s, s'); }
  }

  lemma DropStep(world: World, s: Sys, s': Sys, st: nat)
    requires SysInv(world, s) && CountInv(world, s) && DropDir(s, s', st)
    ensures SysInv(world, s') && CountInv(world, s')
  {
    hide SysInv;
    if s.process.Running? {
      BeginStep(world, s, s', 0, Key(0, 0), [], 0, st);
    } else {
      RecoverDecides(world, s, s', Key(0, 0), Row(0, 0, 0, []), st);
    }
  }

  lemma RestartStep(world: World, s: Sys, s': Sys, cutoff: nat)
    requires SysInv(world, s) && Restart(s, s', cutoff)
    ensures SysInv(world, s') && CountInv(world, s')
  {
    RetainedKeeps(world, s.disk, s.ledger, cutoff);
  }

  lemma RecoverStep(world: World, s: Sys, s': Sys, k: Key, row: Row)
    requires SysInv(world, s) && RecoverFile(world, s, s', k, row)
    ensures SysInv(world, s') && CountInv(world, s')
  {
    RecoverDecides(world, s, s', k, row, 0);
    hide SysInv;
  }

  lemma EndRecoverCount(world: World, s: Sys, s': Sys)
    requires SysInv(world, s) && EndRecover(s, s')
    ensures SysInv(world, s') && CountInv(world, s')
  {
    EndRecoverStep(world, s, s');
    hide SysInv;
  }

  lemma {:induction false} RunHolds(world: World, run: seq<Sys>, i: nat)
    requires Run(world, run) && i < |run|
    ensures SysInv(world, run[i]) && CountInv(world, run[i])
  {
    if i > 0 {
      hide Next, SysInv, CountInv;
      RunHolds(world, run, i - 1);
      StepKeeps(world, run[i - 1], run[i]);
    }
  }

  // ----- what it means -----

  /** Recovery never finds the archive damaged, and a prune or truncation never miscounts. */
  lemma RecoverySucceeds(world: World, run: seq<Sys>, i: nat)
    requires Run(world, run) && i < |run|
    ensures !run[i].process.Failed?
  {
    RunHolds(world, run, i);
  }

  /**
   When recovery is done, the files are exactly those with committed frames, and each is the concatenation of its
   committed frames in commit order.
   */
  lemma RecoveryRestores(world: World, run: seq<Sys>, i: nat)
    requires Run(world, run) && i + 1 < |run| && EndRecover(run[i], run[i + 1])
    ensures var s := run[i + 1];
            && s.process.Running?
            && (forall k :: k in s.disk.files <==> RowsOf(s.ledger, k) != [])
            && (forall k | k in s.disk.files :: s.disk.files[k].bytes == Committed(s.ledger, k))
            && s.used == Total(s.disk.files)
  {
    RunHolds(world, run, i);
    EndRecoverStep(world, run[i], run[i + 1]);
  }

  /** At every moment the committed frames are on disk, whatever a crash does next. */
  lemma CommittedSurvives(world: World, run: seq<Sys>, i: nat, d: Disk, k: Key)
    requires Run(world, run) && i < |run| && Crash(run[i].disk, d) && RowsOf(run[i].ledger, k) != []
    ensures k in d.files && Committed(run[i].ledger, k) <= d.files[k].bytes
  {
    RunHolds(world, run, i);
    CrashKeeps(world, run[i].disk, run[i].ledger, d);
    assert Durable(d, run[i].ledger, k);
  }

  /** Between jobs, a file that no worker has in hand holds exactly its committed frames. */
  lemma FilesMatchLedger(world: World, run: seq<Sys>, i: nat, k: Key)
    requires Run(world, run) && i < |run| && run[i].process.Running? && run[i].job.Free? && k in run[i].disk.files
    requires WorkerOf(run[i], world.owner(k.stream)).Idle?
    ensures run[i].disk.files[k].bytes == Committed(run[i].ledger, k)
  {
    RunHolds(world, run, i);
    assert KeyInv(world, run[i], k);
  }

  /** The count is never below the real size, and exact between jobs when nothing has failed since the last scan. */
  lemma CountIsSafe(world: World, run: seq<Sys>, i: nat)
    requires Run(world, run) && i < |run| && run[i].process.Running?
    ensures run[i].used >= Total(run[i].disk.files)
    ensures run[i].job.Free? && !run[i].failed ==> run[i].used == Total(run[i].disk.files)
  {
    RunHolds(world, run, i);
  }

  /** No append that succeeds leaves the archive above its quota. */
  lemma QuotaHolds(world: World, run: seq<Sys>, i: nat)
    requires Run(world, run) && i + 1 < |run| && run[i].job.AppendJob? && Finish(run[i], run[i + 1])
    ensures Total(run[i + 1].disk.files) <= world.quota
  {
    RunHolds(world, run, i);
    FinishStep(world, run[i], run[i + 1]);
  }
}
