/** The limits of a configuration, from the moment an appender was opened with it. */
module JournalLimits {
  import opened Wrappers
  import opened FileSystem
  import opened CrashViews
  import opened Procedures
  import opened Reservation
  import opened ReservationSafety
  import opened Journal
  import opened JournalNumbers
  import opened JournalSegments
  import opened JournalStorage
  import opened JournalStorageSteps

  /** Whatever a crash makes of a segment, it is within the limit. */
  ghost predicate AllWithin(cfg: Config, s: Sys)
  {
    forall n: nat, i: Ino | Holds(s.fs, n, i) :: i < |s.fs.files| && |Reach(s.fs.files[i])| <= cfg.maxFileBytes
  }

  ghost predicate KeptWithin(cfg: Config, s: Sys, kept: set<nat>)
    requires WellFormed(s.fs)
  {
    && |kept| <= cfg.maxFiles
    && forall n | n in kept && Segment(n) in s.fs.dir :: |FileOf(s.fs, Segment(n)).bytes| <= cfg.maxFileBytes
  }

  /** The record of an append fits the active segment, or a new one. */
  predicate Room(cfg: Config, p: Phase)
  {
    match p
    case Rotating(w, r) => |r| <= cfg.maxFileBytes
    case Pruning(w, r, _) => |r| <= cfg.maxFileBytes
    case Reserving(w, r) => |r| <= cfg.maxFileBytes && |w.tracked| < cfg.maxFiles
    case Creating(w, r, _) => |r| <= cfg.maxFileBytes && |w.tracked| < cfg.maxFiles
    case Writing(w, r) => w.active.Some? ==> w.active.value.bytes + |r| <= cfg.maxFileBytes
    case Syncing(w, r) => w.active.Some? ==> w.active.value.bytes + |r| <= cfg.maxFileBytes
    case _ => true
  }

  /** How far the journal has been cut down to the configuration it is opened with. */
  ghost predicate Trimmed(cfg: Config, s: Sys)
    requires WellFormed(s.fs)
  {
    match s.phase
    case Down => true
    case Opening(_) => ValidConfig(cfg)
    case Cleaning(_, _) => ValidConfig(cfg)
    case Dropping(_, _, _) => ValidConfig(cfg)
    case Repairing(_, kept) => KeptWithin(cfg, s, kept)
    case Sealing(_, kept, _) => KeptWithin(cfg, s, kept)
    case Finishing(_, kept) => KeptWithin(cfg, s, kept)
    case _ =>
      AllWithin(cfg, s) && Room(cfg, s.phase) && |OpenWriter(s.phase).value.tracked| <= cfg.maxFiles
  }

  // ----- calls -----

  lemma MetadataWithin(cfg: Config, s: Sys, c: Cmd)
    requires Core(s) && AllWithin(cfg, s) && MetadataCmd(c) && Enabled(s.fs, c)
    ensures AllWithin(cfg, Called(s, c))
  {
    MetadataHolders(s, c);
    hide Exec, Holds, Core;
  }

  /** A call on the file of a segment that does not make it too long. */
  lemma FileWithin(cfg: Config, s: Sys, n: nat, f: File)
    requires WellFormed(s.fs) && AllWithin(cfg, s) && Segment(n) in s.fs.dir && |Reach(f)| <= cfg.maxFileBytes
    ensures AllWithin(cfg, s.(fs := s.fs.(files := s.fs.files[s.fs.dir[Segment(n)] := f])))
  {
    hide Reach;
    var s' := s.(fs := s.fs.(files := s.fs.files[s.fs.dir[Segment(n)] := f]));
    forall m: nat, i: Ino | Holds(s'.fs, m, i) ensures Holds(s.fs, m, i) {}
  }

  lemma SegmentWithin(cfg: Config, s: Sys, c: Cmd, n: nat)
    requires WellFormed(s.fs) && AllWithin(cfg, s) && Enabled(s.fs, c)
    requires c == Fsync(Segment(n)) || (c.SetLen? && c.name == Segment(n))
             || (c.Write? && c.name == Segment(n) && |FileOf(s.fs, Segment(n)).bytes| + |c.text| <= cfg.maxFileBytes)
    ensures AllWithin(cfg, Called(s, c))
  {
    var f := FileOf(s.fs, Segment(n));
    assert Holds(s.fs, n, s.fs.dir[Segment(n)]);
    var f' := if c.Fsync? then SyncFile(f) else if c.SetLen? then TruncateFile(f, c.len) else WriteFile(f, c.text);
    FileWithin(cfg, s, n, f');
  }

  lemma NamesWithin(cfg: Config, s: Sys, c: Cmd, n: nat)
    requires WellFormed(s.fs) && AllWithin(cfg, s) && Enabled(s.fs, c)
    requires c == Create(Segment(n)) || c == Unlink(Segment(n)) || c == SyncDir
    ensures AllWithin(cfg, Called(s, c))
  {
    var s' := Called(s, c);
    forall m: nat, i: Ino | Holds(s'.fs, m, i) ensures Holds(s.fs, m, i) || (c.Create? && i == |s.fs.files|) {}
  }

  /** However far the next call gets, segments that were within the limit stay there. */
  lemma BegunWithin(cfg: Config, s: Sys, d: Cmd)
    requires StorageInv(s) && Trimmed(cfg, s) && AllWithin(cfg, s) && Begun(s, d)
    ensures AllWithin(cfg, Called(s, d))
  {
    hide Core, AllWithin, Called, Exec, Safe, Inv, Published;
    match s.phase
    case Opening(_) => assert MetadataCmd(s.todo[0]); MetadataWithin(cfg, s, d);
    case Reserving(_, _) => assert MetadataCmd(s.todo[0]); MetadataWithin(cfg, s, d);
    case Dropping(_, _, g) => NamesWithin(cfg, s, d, g);
    case Pruning(_, _, g) => NamesWithin(cfg, s, d, g);
    case Creating(_, _, n) => NamesWithin(cfg, s, d, n);
    case Finishing(_, _) => NamesWithin(cfg, s, d, 0);
    case Repairing(_, _) => SegmentWithin(cfg, s, d, d.name.number);
    case Sealing(_, _, _) => SegmentWithin(cfg, s, d, d.name.number);
    case Writing(w, _) => SegmentWithin(cfg, s, d, w.active.value.number);
    case Truncating(w) => SegmentWithin(cfg, s, d, w.active.value.number);
    case Syncing(w, _) => SegmentWithin(cfg, s, d, w.active.value.number);
    case _ =>
  }

  lemma StoppedWithin(cfg: Config, s: Sys, m: Sys)
    requires StorageInv(s) && Trimmed(cfg, s) && AllWithin(cfg, s) && Stopped(s, m)
    ensures AllWithin(cfg, m)
  {
    hide StorageInv, Trimmed, AllWithin, Called;
    if m != s {
      var c := s.todo[0];
      var d := if m == Called(s, c) then c else
        var k: nat :| k <= |c.text| && m == Called(s, Write(c.name, c.text[..k])); Write(c.name, c.text[..k]);
      BegunWithin(cfg, s, d);
    }
  }

  lemma CrashWithin(cfg: Config, s: Sys, fs': Fs)
    requires AllWithin(cfg, s) && WellFormed(s.fs) && Crash(s.fs, fs')
    ensures AllWithin(cfg, s.(fs := fs'))
  {
    CrashWellFormed(s.fs, fs');
    forall n: nat, i: Ino | Holds(fs', n, i) ensures i < |fs'.files| && |Reach(fs'.files[i])| <= cfg.maxFileBytes {
      assert May(s.fs, Segment(n), Lookup(fs', Segment(n)));
      assert Holds(s.fs, n, i) && CrashFile(s.fs.files[i], fs'.files[i]);
      SettledSurvives(s.fs.files[i], fs'.files[i]);
    }
  }

  lemma SameWithin(cfg: Config, s: Sys, s': Sys)
    requires AllWithin(cfg, s) && s'.fs == s.fs
    ensures AllWithin(cfg, s')
  {}

  /** Once all segments are within the limit, they stay so. */
  lemma StepWithin(cfg: Config, s: Sys, s': Sys)
    requires StorageInv(s) && Trimmed(cfg, s) && AllWithin(cfg, s) && Next(cfg, s, s')
    ensures AllWithin(cfg, s')
  {
    hide StorageInv, Trimmed, AllWithin, Decide, OpenCall, AppendCall, Stopped, Called;
    if Call(s, s') {
      BegunWithin(cfg, s, s.todo[0]);
      SameWithin(cfg, Called(s, s.todo[0]), s');
    } else if Fault(s, s') {
      var m :| Stopped(s, m) && s' == m.(todo := ErrorCalls(s.phase), phase := AfterError(s.phase));
      StoppedWithin(cfg, s, m);
      SameWithin(cfg, m, s');
    } else if Exit(s, s') {
      var m :| Stopped(s, m) && s' == m.(todo := [], phase := Down);
      StoppedWithin(cfg, s, m);
      SameWithin(cfg, m, s');
    } else if PowerLoss(s, s') {
      var m :| Stopped(s, m) && Crash(m.fs, s'.fs) && s' == m.(fs := s'.fs, todo := [], phase := Down);
      StoppedWithin(cfg, s, m);
      StoppedOk(s, m);
      CrashWithin(cfg, m, s'.fs);
      SameWithin(cfg, m.(fs := s'.fs), s');
    } else {
      DecisionKeepsFs(cfg, s, s');
      SameWithin(cfg, s, s');
    }
  }

  lemma DecisionKeepsFs(cfg: Config, s: Sys, s': Sys)
    requires Decide(cfg, s, s') || OpenCall(cfg, s, s') || AppendCall(cfg, s, s')
    ensures s'.fs == s.fs
  {
    if Decide(cfg, s, s') && !s.phase.Syncing? {
      DecideSameFiles(cfg, s, s');
    }
    hide Decide;
  }

  // ----- phases -----

  /** A call on a kept segment while the journal is repaired and sealed. */
  lemma SealingTrims(cfg: Config, s: Sys, s': Sys)
    requires StorageInv(s) && Trimmed(cfg, s) && Call(s, s') && WellFormed(s'.fs)
    requires s.phase.Repairing? || s.phase.Sealing? || s.phase.Finishing?
    ensures Trimmed(cfg, s')
  {
    hide Core, NumbersInv, ValidLen;
    var kept := s.phase.kept;
    if !s.phase.Finishing? {
      var n := s.todo[0].name.number;
      UnchangedOthers(s, s.todo[0], n) by { KeepsUnshared(s); }
      forall m | m in kept && Segment(m) in s'.fs.dir
        ensures |FileOf(s'.fs, Segment(m)).bytes| <= |FileOf(s.fs, Segment(m)).bytes|
      {}
    }
  }

  lemma CallTrims(cfg: Config, s: Sys, s': Sys)
    requires StorageInv(s) && Trimmed(cfg, s) && Call(s, s')
    ensures WellFormed(s'.fs) && Trimmed(cfg, s')
  {
    CallKeepsStorage(s, s');
    if s.phase.Repairing? || s.phase.Sealing? || s.phase.Finishing? {
      hide StorageInv;
      SealingTrims(cfg, s, s');
    } else if OpenWriter(s.phase).Some? {
      hide StorageInv, AllWithin, Called;
      BegunWithin(cfg, s, s.todo[0]);
      SameWithin(cfg, Called(s, s.todo[0]), s');
    }
  }

  lemma InterruptTrims(cfg: Config, s: Sys, s': Sys)
    requires StorageInv(s) && Trimmed(cfg, s) && (Fault(s, s') || Exit(s, s') || PowerLoss(s, s'))
    ensures WellFormed(s'.fs) && Trimmed(cfg, s')
  {
    InterruptKeepsStorage(s, s');
    StorageWellFormed(s');
    hide StorageInv, AllWithin, Stopped;
    if Fault(s, s') {
      var m :| Stopped(s, m) && s' == m.(todo := ErrorCalls(s.phase), phase := AfterError(s.phase));
      if OpenWriter(s.phase).Some? {
        OpenIsWithin(cfg, s);
        StoppedWithin(cfg, s, m);
        SameWithin(cfg, m, s');
      }
      FaultTrims(cfg, s, s');
    }
  }

  lemma FaultTrims(cfg: Config, s: Sys, s': Sys)
    requires WellFormed(s.fs) && Trimmed(cfg, s) && WellFormed(s'.fs) && s'.phase == AfterError(s.phase)
    requires OpenWriter(s.phase).Some? ==> AllWithin(cfg, s')
    ensures Trimmed(cfg, s')
  {
    hide AllWithin, KeptWithin;
  }

  lemma DecideTrims(cfg: Config, s: Sys, s': Sys)
    requires StorageInv(s) && Trimmed(cfg, s) && Decide(cfg, s, s')
    ensures WellFormed(s'.fs) && Trimmed(cfg, s')
  {
    DecisionKeepsFs(cfg, s, s');
    if OpenWriter(s.phase).None? {
      OpeningTrims(cfg, s, s');
    } else {
      hide StorageInv, AllWithin;
      SameWithin(cfg, s, s');
      WriterTrims(cfg, s, s');
    }
  }

  lemma WriterTrims(cfg: Config, s: Sys, s': Sys)
    requires WellFormed(s.fs) && Trimmed(cfg, s) && Decide(cfg, s, s') && OpenWriter(s.phase).Some?
    requires s'.fs == s.fs && AllWithin(cfg, s')
    ensures Trimmed(cfg, s')
  {
    OpenIsWithin(cfg, s);
    hide AllWithin, KeptWithin, Decide;
    if s.phase.Rotating? {
      RotatingTrims(cfg, s, s');
    } else {
      DecidesWriter(cfg, s, s');
      PhaseTrims(cfg, s.phase, s'.phase);
    }
  }

  lemma PhaseTrims(cfg: Config, p: Phase, p': Phase)
    requires OpenWriter(p).Some? && Room(cfg, p) && |OpenWriter(p).value.tracked| <= cfg.maxFiles && Follows(p, p')
    ensures OpenWriter(p').Some? && Room(cfg, p') && |OpenWriter(p').value.tracked| <= cfg.maxFiles
  {
    match p
    case Pruning(w, _, g) => assert |w.tracked - {g}| <= |w.tracked|;
    case Creating(w, _, n) => assert |w.tracked + {n}| <= |w.tracked| + 1;
    case _ =>
  }

  lemma RotatingTrims(cfg: Config, s: Sys, s': Sys)
    requires Decide(cfg, s, s') && s.phase.Rotating? && Room(cfg, s.phase) && |s.phase.w.tracked| <= cfg.maxFiles
    ensures OpenWriter(s'.phase).Some? && Room(cfg, s'.phase) && |OpenWriter(s'.phase).value.tracked| <= cfg.maxFiles
  {
    hide ReservePlan;
  }

  /** What comes after each phase of an append. */
  predicate Follows(p: Phase, p': Phase)
  {
    match p
    case Pruning(w, r, g) => p' == Rotating(w.(tracked := w.tracked - {g}), r)
    case Reserving(w, r) => p' == Creating(w.(next := w.next + 1), r, w.next)
    case Creating(w, r, n) => p' == Writing(w.(tracked := w.tracked + {n}, active := Some(Active(n, 0))), r)
    case Writing(w, r) => w.active.Some? && p' == Syncing(w, r)
    case Truncating(w) => p' == Ready(w)
    case Syncing(w, r) => p'.Ready? && p'.w.tracked == w.tracked
    case _ => false
  }

  lemma DecidesWriter(cfg: Config, s: Sys, s': Sys)
    requires Decide(cfg, s, s') && OpenWriter(s.phase).Some? && !s.phase.Rotating?
    ensures Follows(s.phase, s'.phase)
  {}

  lemma OpeningTrims(cfg: Config, s: Sys, s': Sys)
    requires StorageInv(s) && Trimmed(cfg, s) && Decide(cfg, s, s') && OpenWriter(s.phase).None? && s'.fs == s.fs
    ensures Trimmed(cfg, s')
  {
    hide NumbersInv, Core, ValidLen, Repairs, Found, AllWithin;
    if s.phase.Finishing? {
      FinishedWithin(cfg, s, s.phase.kept);
      SameWithin(cfg, s, s');
    }
  }

  /** With every kept segment synced and no removal pending, nothing longer can come back. */
  lemma FinishedWithin(cfg: Config, s: Sys, kept: set<nat>)
    requires WellFormed(s.fs) && Surveyed(s, kept) && SettledBut(s, None) && KeptWithin(cfg, s, kept)
    ensures AllWithin(cfg, s)
  {
    forall n: nat, i: Ino | Holds(s.fs, n, i) ensures i < |s.fs.files| && |Reach(s.fs.files[i])| <= cfg.maxFileBytes {
      assert Segment(n) in s.fs.dir && n in kept;
      assert Settled(s.fs.files[i]);
    }
  }

  lemma StartTrims(cfg: Config, s: Sys, s': Sys)
    requires StorageInv(s) && Trimmed(cfg, s) && (OpenCall(cfg, s, s') || AppendCall(cfg, s, s'))
    ensures WellFormed(s'.fs) && Trimmed(cfg, s')
  {
    hide NumbersInv, Core, AllWithin, OpenPlan;
    if AppendCall(cfg, s, s') {
      SameWithin(cfg, s, s');
    }
  }

  lemma StepTrims(cfg: Config, s: Sys, s': Sys)
    requires StorageInv(s) && Trimmed(cfg, s) && Next(cfg, s, s')
    ensures WellFormed(s'.fs) && Trimmed(cfg, s')
  {
    hide StorageInv, Trimmed, Call, Fault, Exit, PowerLoss, Decide, OpenCall, AppendCall;
    if Call(s, s') {
      CallTrims(cfg, s, s');
    } else if Fault(s, s') || Exit(s, s') || PowerLoss(s, s') {
      InterruptTrims(cfg, s, s');
    } else if OpenCall(cfg, s, s') || AppendCall(cfg, s, s') {
      StartTrims(cfg, s, s');
    } else {
      DecideTrims(cfg, s, s');
    }
  }

  // ----- runs -----

  /** From state `i` on, where no appender was open, every step is under `cfg`. */
  ghost predicate OpenedWith(cfg: Config, run: seq<Sys>, i: nat)
  {
    i < |run| && run[i].phase.Down? && forall j | i <= j < |run| - 1 :: Next(cfg, run[j], run[j + 1])
  }

  lemma {:induction false} TrimmedHolds(cfg: Config, run: seq<Sys>, i: nat, k: nat)
    requires Run(run) && InitStorage(run[0]) && OpenedWith(cfg, run, i) && i <= k < |run|
    ensures WellFormed(run[k].fs) && Trimmed(cfg, run[k])
    decreases k - i
  {
    hide StorageInv, Next, Init, InitStorage, Advances;
    StorageHolds(run, k);
    StorageWellFormed(run[k]);
    if i < k {
      StorageHolds(run, k - 1);
      StorageWellFormed(run[k - 1]);
      TrimmedHolds(cfg, run, i, k - 1);
      StepTrims(cfg, run[k - 1], run[k]);
    }
  }

  lemma StorageWellFormed(s: Sys)
    requires StorageInv(s)
    ensures WellFormed(s.fs)
  {}

  lemma {:induction false} WithinHolds(cfg: Config, run: seq<Sys>, i: nat, j: nat, k: nat)
    requires Run(run) && InitStorage(run[0]) && OpenedWith(cfg, run, i) && i <= j <= k < |run| && AllWithin(cfg, run[j])
    ensures AllWithin(cfg, run[k])
    decreases k - j
  {
    hide StorageInv, Next, Init, InitStorage, Advances, AllWithin, Trimmed;
    if j < k {
      StorageHolds(run, k - 1);
      TrimmedHolds(cfg, run, i, k - 1);
      WithinHolds(cfg, run, i, j, k - 1);
      StepWithin(cfg, run[k - 1], run[k]);
    }
  }

  lemma OpenIsWithin(cfg: Config, s: Sys)
    requires WellFormed(s.fs) && Trimmed(cfg, s) && OpenWriter(s.phase).Some?
    ensures AllWithin(cfg, s) && |OpenWriter(s.phase).value.tracked| <= cfg.maxFiles
  {}

  /**
   Whatever configurations a journal was used with before: once an open with `cfg` has returned, or if all segments
   were within its limit anyway, a segment holds at most `maxFileBytes` bytes at every later moment, inside a write
   too and whatever a crash makes of it; and an open appender tracks at most `maxFiles` segments.
   */
  lemma LimitsHold(cfg: Config, run: seq<Sys>, i: nat, j: nat, k: nat, n: nat)
    requires Run(run) && InitStorage(run[0]) && OpenedWith(cfg, run, i) && i <= j <= k < |run|
    requires OpenWriter(run[j].phase).Some? || AllWithin(cfg, run[j])
    ensures WellFormed(run[k].fs)
    ensures Segment(n) in run[k].fs.dir ==> |Reach(FileOf(run[k].fs, Segment(n)))| <= cfg.maxFileBytes
    ensures OpenWriter(run[k].phase).Some? ==> |OpenWriter(run[k].phase).value.tracked| <= cfg.maxFiles
  {
    hide Run, InitStorage, OpenedWith, Trimmed;
    TrimmedHolds(cfg, run, i, j);
    TrimmedHolds(cfg, run, i, k);
    if OpenWriter(run[j].phase).Some? { OpenIsWithin(cfg, run[j]); }
    if OpenWriter(run[k].phase).Some? { OpenIsWithin(cfg, run[k]); }
    WithinHolds(cfg, run, i, j, k);
    if Segment(n) in run[k].fs.dir {
      assert Holds(run[k].fs, n, run[k].fs.dir[Segment(n)]);
    }
  }
}
