/** What the machine's guarantees mean for the code that walks its paths. */
module JournalCodeSafety {
  import opened Wrappers
  import opened FileSystem
  import opened Journal
  import opened JournalNumbers
  import opened JournalSegments
  import opened JournalStorage
  import opened JournalStorageSteps
  import opened JournalLimits
  import opened JournalHistory
  import opened ReservationCode
  import opened JournalPaths

  /** However long the code runs, the storage invariant and the limits hold and the record of the past only grows. */
  lemma LeadsKeeps(cfg: Config, s: Sys, s': Sys)
    requires StorageInv(s) && Leads(cfg, s, s')
    ensures StorageInv(s') && Extends(s, s') && WellFormed(s.fs) && WellFormed(s'.fs)
    ensures Trimmed(cfg, s) ==> Trimmed(cfg, s')
  {
    hide StorageInv, Trimmed;
    StorageWellFormed(s);
    var run :| PathOf(cfg, run, s, s');
    PathKeeps(cfg, run, |run| - 1);
  }

  lemma {:induction false} PathKeeps(cfg: Config, run: seq<Sys>, k: nat)
    requires k < |run| && StorageInv(run[0]) && forall i | 0 <= i < |run| - 1 :: Next(cfg, run[i], run[i + 1])
    ensures StorageInv(run[k]) && Extends(run[0], run[k]) && WellFormed(run[0].fs) && WellFormed(run[k].fs)
    ensures Trimmed(cfg, run[0]) ==> Trimmed(cfg, run[k])
  {
    hide StorageInv, Trimmed, Next;
    StorageWellFormed(run[0]);
    if k > 0 {
      PathKeeps(cfg, run, k - 1);
      StepKeepsStorage(cfg, run[k - 1], run[k]);
      StepExtends(cfg, run[k - 1], run[k]);
      StorageWellFormed(run[k]);
      if Trimmed(cfg, run[0]) { StepTrims(cfg, run[k - 1], run[k]); }
    }
  }

  /** No reachable directory lets the marker share a file with the reservation names. */
  lemma MarkerStaysApart(s: Sys)
    requires StorageInv(s)
    ensures MarkerApart(s.fs)
  {
    if ReservationMarker in s.fs.dir {
      var i := s.fs.dir[ReservationMarker];
      forall n | n in s.fs.dir && ReservationName(n) ensures s.fs.dir[n] != i {
        assert May(s.fs, ReservationMarker, Some(i)) && May(s.fs, n, Some(s.fs.dir[n]));
      }
    }
  }

  /**
   An open appender of a healthy journal: its active segment holds exactly the bytes it counts, all of them on disk
   and complete, and it tracks no more segments than allowed.
   */
  lemma ReadyMeans(cfg: Config, s: Sys, w: Writer)
    requires StorageInv(s) && WellFormed(s.fs) && Trimmed(cfg, s) && s.phase == Ready(w)
    ensures |w.tracked| <= cfg.maxFiles
    ensures w.active.Some? && !w.poisoned ==>
              var a := w.active.value;
              && Segment(a.number) in s.fs.dir && a.number in w.tracked
              && |Content(s.fs, a.number)| == a.bytes <= cfg.maxFileBytes
              && FileOf(s.fs, Segment(a.number)).synced == a.bytes && EndsLine(Content(s.fs, a.number))
  {
    hide NumbersInv;
    if w.active.Some? && !w.poisoned {
      var a := w.active.value;
      assert Holds(s.fs, a.number, s.fs.dir[Segment(a.number)]);
    }
  }
}
