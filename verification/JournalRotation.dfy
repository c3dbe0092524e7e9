/** Segments are started and removed only when a limit calls for it. */
module JournalRotation {
  import opened Wrappers
  import opened FileSystem
  import opened Reservation
  import opened Journal
  import opened JournalNumbers
  import opened JournalSegments
  import opened JournalStorage
  import opened JournalStorageSteps
  import opened JournalOrder

  /** The record has room in the active segment; an empty one takes any record. */
  predicate Fits(cfg: Config, active: Option<Active>, record: Bytes)
  {
    active.Some? && (active.value.bytes == 0 || active.value.bytes + |record| <= cfg.maxFileBytes)
  }

  predicate InRotation(p: Phase) { p.Rotating? || p.Pruning? || p.Reserving? || p.Creating? }

  /** The append that is under way at `i` began at `j`, with a record that did not fit. */
  ghost predicate RotatesSince(run: seq<Sys>, j: nat, i: nat)
  {
    && j < i < |run| && run[j].phase.Ready? && InRotation(run[i].phase)
    && (exists cfg :: AppendCall(cfg, run[j], run[j + 1]) && !Fits(cfg, run[j].phase.w.active, run[i].phase.record))
    && forall k | j < k <= i :: InRotation(run[k].phase) && run[k].phase.record == run[i].phase.record
  }

  lemma RotationStep(cfg: Config, s: Sys, s': Sys)
    requires Next(cfg, s, s') && InRotation(s'.phase)
    ensures || (InRotation(s.phase) && s.phase.record == s'.phase.record)
            || (s.phase.Ready? && AppendCall(cfg, s, s') && !Fits(cfg, s.phase.w.active, s'.phase.record))
  {
    hide Decide, AppendCall, Stopped, OpenPlan, Exec, Noted;
    if Decide(cfg, s, s') {
      RotationDecided(cfg, s, s');
    } else if AppendCall(cfg, s, s') {
      RotationCalled(cfg, s, s');
    }
  }

  lemma RotationDecided(cfg: Config, s: Sys, s': Sys)
    requires Decide(cfg, s, s') && InRotation(s'.phase)
    ensures InRotation(s.phase) && s.phase.record == s'.phase.record
  {
    hide ReservePlan, Repairs, Oversized, Oldest;
  }

  lemma RotationCalled(cfg: Config, s: Sys, s': Sys)
    requires AppendCall(cfg, s, s') && InRotation(s'.phase)
    ensures s.phase.Ready? && !Fits(cfg, s.phase.w.active, s'.phase.record)
  {}

  lemma {:induction false} RotationBegan(run: seq<Sys>, i: nat) returns (j: nat)
    requires Run(run) && i < |run| && InRotation(run[i].phase)
    ensures RotatesSince(run, j, i)
  {
    hide Next, AppendCall;
    assert Advances(run[i - 1], run[i - 1 + 1]);
    var cfg :| Next(cfg, run[i - 1], run[i]);
    RotationStep(cfg, run[i - 1], run[i]);
    if InRotation(run[i - 1].phase) {
      j := RotationBegan(run, i - 1);
    } else {
      j := i - 1;
    }
  }

  /** At `k` the rotation found as many segments as are allowed, and `n` the oldest of them. */
  ghost predicate Full(run: seq<Sys>, k: nat, n: nat)
  {
    && k < |run| && run[k].phase.Rotating?
    && exists cfg :: ValidStep(cfg, run, k) && |run[k].phase.w.tracked| >= cfg.maxFiles && Oldest(run[k].phase.w.tracked, n)
  }

  ghost predicate ValidStep(cfg: Config, run: seq<Sys>, k: nat) { k + 1 < |run| && Next(cfg, run[k], run[k + 1]) }

  lemma PruningStep(cfg: Config, s: Sys, s': Sys)
    requires Next(cfg, s, s') && s'.phase.Pruning?
    ensures || s.phase == s'.phase
            || (s.phase.Rotating? && |s.phase.w.tracked| >= cfg.maxFiles && Oldest(s.phase.w.tracked, s'.phase.gone))
  {
    hide Stopped, OpenPlan, ReservePlan, Repairs, Oversized, Oldest, Exec, Noted;
  }

  lemma {:induction false} PruningBegan(run: seq<Sys>, i: nat) returns (k: nat)
    requires Run(run) && i < |run| && run[i].phase.Pruning?
    ensures k < i && Full(run, k, run[i].phase.gone) && forall m | k < m <= i :: run[m].phase == run[i].phase
  {
    hide Next;
    assert Advances(run[i - 1], run[i - 1 + 1]);
    var cfg :| Next(cfg, run[i - 1], run[i]);
    PruningStep(cfg, run[i - 1], run[i]);
    if run[i - 1].phase == run[i].phase {
      k := PruningBegan(run, i - 1);
    } else {
      k := i - 1;
      assert ValidStep(cfg, run, k);
    }
  }

  /** At `k` an open found `n` over the byte limit, or the oldest of more segments than are allowed. */
  ghost predicate Surplus(run: seq<Sys>, k: nat, n: nat)
  {
    && k < |run| && run[k].phase.Cleaning? && n in run[k].phase.kept && WellFormed(run[k].fs)
    && exists cfg :: ValidStep(cfg, run, k)
                     && (Oversized(cfg, run[k].fs, n) || (|run[k].phase.kept| > cfg.maxFiles && Oldest(run[k].phase.kept, n)))
  }

  lemma DroppingStep(cfg: Config, s: Sys, s': Sys)
    requires Next(cfg, s, s') && s'.phase.Dropping?
    ensures || s.phase == s'.phase
            || (&& s.phase.Cleaning? && s'.phase.gone in s.phase.kept && WellFormed(s.fs)
                && (|| Oversized(cfg, s.fs, s'.phase.gone)
                    || (|s.phase.kept| > cfg.maxFiles && Oldest(s.phase.kept, s'.phase.gone))))
  {
    hide Stopped, OpenPlan, ReservePlan, Repairs, Oversized, Exec, Noted;
  }

  lemma {:induction false} DroppingBegan(run: seq<Sys>, i: nat) returns (k: nat)
    requires Run(run) && i < |run| && run[i].phase.Dropping?
    ensures k < i && Surplus(run, k, run[i].phase.gone) && forall m | k < m <= i :: run[m].phase == run[i].phase
  {
    hide Next, Oversized;
    assert Advances(run[i - 1], run[i - 1 + 1]);
    var cfg :| Next(cfg, run[i - 1], run[i]);
    DroppingStep(cfg, run[i - 1], run[i]);
    if run[i - 1].phase == run[i].phase {
      k := DroppingBegan(run, i - 1);
    } else {
      k := i - 1;
      assert ValidStep(cfg, run, k);
    }
  }

  /** Only the removals of an open or a rotation take segments away. */
  lemma RemovedBy(cfg: Config, s: Sys, s': Sys, n: nat)
    requires StorageInv(s) && Next(cfg, s, s') && n !in s.pruned && n in s'.pruned
    ensures (s.phase.Pruning? || s.phase.Dropping?) && s.phase.gone == n
  {
    hide Core, NumbersInv, OpenOk, StorageInv;
    if Call(s, s') {
      RemovingCall(s, s.todo[0], n);
    } else if Fault(s, s') {
      var m :| Stopped(s, m) && s' == m.(todo := ErrorCalls(s.phase), phase := AfterError(s.phase));
      RemovingStop(s, m, n);
    } else if Exit(s, s') {
      var m :| Stopped(s, m) && s' == m.(todo := [], phase := Down);
      RemovingStop(s, m, n);
    } else if PowerLoss(s, s') {
      var m :| Stopped(s, m) && Crash(m.fs, s'.fs) && s' == m.(fs := s'.fs, todo := [], phase := Down);
      RemovingStop(s, m, n);
    } else {
      DecisionRemovesNone(cfg, s, s');
    }
  }

  lemma DecisionRemovesNone(cfg: Config, s: Sys, s': Sys)
    requires OpenCall(cfg, s, s') || AppendCall(cfg, s, s') || Decide(cfg, s, s')
    ensures s'.pruned == s.pruned
  {
    hide OpenPlan, ReservePlan, Repairs, Oversized, Oldest;
  }

  lemma RemovingStop(s: Sys, m: Sys, n: nat)
    requires StorageInv(s) && Stopped(s, m) && n !in s.pruned && n in m.pruned
    ensures (s.phase.Pruning? || s.phase.Dropping?) && s.phase.gone == n
  {
    hide StorageInv, Exec, Noted;
    RemovingCall(s, s.todo[0], n);
  }

  lemma RemovingCall(s: Sys, c: Cmd, n: nat)
    requires StorageInv(s) && s.todo != [] && c == s.todo[0] && WellFormed(s.fs) && Enabled(s.fs, c)
    requires n !in s.pruned && n in Removed(s.pruned, c)
    ensures (s.phase.Pruning? || s.phase.Dropping?) && s.phase.gone == n
  {
    assert c == Unlink(Segment(n)) && Begun(s, c);
    if !s.phase.Pruning? && !s.phase.Dropping? {
      BegunKind(s, c);
    }
  }

  /**
   A segment is removed only because a limit calls for it: by an append whose record did not fit, when there were as
   many segments as allowed and this was the oldest; or by an open, when it was oversized or the oldest of too many.
   */
  lemma RemovedForRoom(run: seq<Sys>, i: nat, n: nat) returns (j: nat, k: nat)
    requires Run(run) && InitStorage(run[0]) && i + 1 < |run| && n !in run[i].pruned && n in run[i + 1].pruned
    ensures || (RotatesSince(run, j, i) && j < k < i && Full(run, k, n))
            || (run[i].phase.Dropping? && k < i && Surplus(run, k, n))
  {
    hide Next, Init, InitStorage, StorageInv, Full, Surplus, RotatesSince;
    StorageHolds(run, i);
    assert Advances(run[i], run[i + 1]);
    var cfg :| Next(cfg, run[i], run[i + 1]);
    RemovedBy(cfg, run[i], run[i + 1], n);
    j := 0;
    if run[i].phase.Pruning? {
      j := RotationBegan(run, i);
      k := PruningBegan(run, i);
      RotatingSince(run, j, k, i);
    } else {
      k := DroppingBegan(run, i);
    }
  }

  lemma RotatingSince(run: seq<Sys>, j: nat, k: nat, i: nat)
    requires RotatesSince(run, j, i) && run[i].phase.Pruning? && k < i && Full(run, k, run[i].phase.gone)
    requires forall m | k < m <= i :: run[m].phase == run[i].phase
    ensures j < k
  {
    hide Next, AppendCall;
  }
}
