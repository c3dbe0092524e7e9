/** Under one configuration segments are removed oldest first. */
module JournalOrder {
  import opened FileSystem
  import opened Procedures
  import opened Reservation
  import opened ReservationSafety
  import opened Journal
  import opened JournalNumbers
  import opened JournalSegments
  import opened JournalStorage
  import opened JournalStorageSteps
  import opened JournalLimits

  /** No segment is removed while an older one that was written to is left. */
  ghost predicate OldestFirst(s: Sys)
  {
    forall m: nat, n: nat, i: Ino | Holds(s.fs, m, i) && Wrote(s, m) && m < n :: n !in s.pruned
  }

  /** A removal that may be undone is the one of the oldest tracked segment. */
  ghost predicate GhostsOldest(s: Sys, w: Writer)
  {
    forall n: nat, i: Ino | Holds(s.fs, n, i) && Segment(n) !in s.fs.dir :: Oldest(w.tracked, n)
  }

  ghost predicate PhaseOrder(s: Sys)
  {
    match s.phase
    case Dropping(_, kept, g) => Oldest(kept, g) && exists m :: m in kept && g < m
    case Pruning(w, _, g) => Oldest(w.tracked, g) && GhostsOldest(s, w)
    case _ => OpenWriter(s.phase).Some? ==> GhostsOldest(s, OpenWriter(s.phase).value)
  }

  ghost predicate OrderInv(s: Sys) { OldestFirst(s) && PhaseOrder(s) }

  // ----- calls -----

  lemma UnlinkOrder(s: Sys, g: nat)
    requires WellFormed(s.fs) && OldestFirst(s) && Segment(g) in s.fs.dir
    requires forall m: nat, i: Ino | Holds(s.fs, m, i) && Wrote(s, m) :: g <= m
    ensures OldestFirst(Called(s, Unlink(Segment(g))))
  {
    var s' := Called(s, Unlink(Segment(g)));
    forall m: nat, i: Ino | Holds(s'.fs, m, i) ensures Holds(s.fs, m, i) {}
  }

  /** A call that removes no segment and writes at most to the newest. */
  lemma OtherOrder(s: Sys, c: Cmd)
    requires Core(s) && OldestFirst(s) && Enabled(s.fs, c)
    requires c.Unlink? ==> !c.name.Segment?
    requires c.Create? && c.name.Segment? ==> forall m | m in s.hist :: m < c.name.number
    requires c.Write? && c.name.Segment? ==> Newest(s, c.name.number)
    requires c.Link? ==> !c.from.Segment? && !c.to.Segment?
    ensures OldestFirst(Called(s, c))
  {
    hide Contents, OneInode, Unshared, Kept, Sealed;
    var s' := Called(s, c);
    forall m: nat, n: nat, i: Ino | Holds(s'.fs, m, i) && Wrote(s', m) && m < n ensures n !in s'.pruned {
      assert Holds(s.fs, m, i) || (c.Create? && c.name == Segment(m));
    }
  }

  /** A call that leaves every segment's name where it is. */
  lemma GhostsStay(s: Sys, s': Sys, w: Writer)
    requires GhostsOldest(s, w)
    requires forall n: nat, i: Ino | Holds(s'.fs, n, i) && Segment(n) !in s'.fs.dir ::
               Holds(s.fs, n, i) && Segment(n) !in s.fs.dir
    ensures GhostsOldest(s', w)
  {}

  lemma OtherGhosts(s: Sys, c: Cmd, w: Writer)
    requires WellFormed(s.fs) && GhostsOldest(s, w) && Enabled(s.fs, c) && (c.Unlink? ==> !c.name.Segment?)
    requires c.Link? ==> !c.from.Segment? && !c.to.Segment?
    ensures GhostsOldest(Called(s, c), w)
  {
    GhostsStay(s, Called(s, c), w);
  }

  lemma UnlinkGhosts(s: Sys, w: Writer, g: nat)
    requires WellFormed(s.fs) && GhostsOldest(s, w) && Oldest(w.tracked, g) && Segment(g) in s.fs.dir
    ensures GhostsOldest(Called(s, Unlink(Segment(g))), w)
  {
    var s' := Called(s, Unlink(Segment(g)));
    forall n: nat, i: Ino | Holds(s'.fs, n, i) && Segment(n) !in s'.fs.dir ensures Oldest(w.tracked, n) {
      assert n == g || (Holds(s.fs, n, i) && Segment(n) !in s.fs.dir);
    }
  }

  lemma WroteTracked(s: Sys, w: Writer, g: nat, m: nat, i: Ino)
    requires WellFormed(s.fs) && OpenOk(s, w) && GhostsOldest(s, w) && Oldest(w.tracked, g)
    requires Holds(s.fs, m, i) && Wrote(s, m)
    ensures g <= m
  {}

  /** However far the next call gets. */
  lemma BegunOrder(s: Sys, d: Cmd)
    requires StorageInv(s) && OrderInv(s) && Begun(s, d)
    ensures OldestFirst(Called(s, d))
    ensures OpenWriter(s.phase).Some? ==> GhostsOldest(Called(s, d), OpenWriter(s.phase).value)
  {
    hide Core, Called, Safe, Inv, Published, Found, OldestFirst, GhostsOldest;
    if s.phase.Dropping? {
      DroppingOrder(s, d);
    } else if s.phase.Pruning? {
      PruningOrder(s, d);
    } else {
      BegunKind(s, d);
      OtherOrder(s, d);
      if OpenWriter(s.phase).Some? { OtherGhosts(s, d, OpenWriter(s.phase).value); }
    }
  }

  lemma DroppingOrder(s: Sys, d: Cmd)
    requires StorageInv(s) && OrderInv(s) && Begun(s, d) && s.phase.Dropping?
    ensures OldestFirst(Called(s, d))
  {
    hide Core, NumbersInv, Called, OldestFirst;
    if d.Unlink? { UnlinkOrder(s, s.phase.gone); } else { OtherOrder(s, d); }
  }

  lemma PruningOrder(s: Sys, d: Cmd)
    requires StorageInv(s) && OrderInv(s) && Begun(s, d) && s.phase.Pruning?
    ensures OldestFirst(Called(s, d)) && GhostsOldest(Called(s, d), s.phase.w)
  {
    hide Core, NumbersInv, Called, OldestFirst, GhostsOldest, OpenOk;
    var w, g := s.phase.w, s.phase.gone;
    if d.Unlink? {
      forall m: nat, i: Ino | Holds(s.fs, m, i) && Wrote(s, m) ensures g <= m { WroteTracked(s, w, g, m, i); }
      UnlinkOrder(s, g);
      UnlinkGhosts(s, w, g);
    } else {
      OtherOrder(s, d);
      OtherGhosts(s, d, w);
    }
  }

  /** The calls that remove no segment. */
  lemma BegunKind(s: Sys, d: Cmd)
    requires StorageInv(s) && Begun(s, d) && !s.phase.Dropping? && !s.phase.Pruning?
    ensures d.Unlink? ==> !d.name.Segment?
    ensures d.Create? && d.name.Segment? ==> forall m | m in s.hist :: m < d.name.number
    ensures d.Write? && d.name.Segment? ==> Newest(s, d.name.number)
    ensures d.Link? ==> !d.from.Segment? && !d.to.Segment?
  {
    hide Core, Safe, Inv, Published, Found;
    if s.phase.Opening? || s.phase.Reserving? {
      assert MetadataCmd(s.todo[0]);
    } else if s.phase.Creating? {
      assert |s.todo| == 2 ==> forall m | m in s.hist :: m < s.phase.number;
    }
  }

  lemma StoppedOrder(s: Sys, m: Sys)
    requires StorageInv(s) && OrderInv(s) && Stopped(s, m)
    ensures OldestFirst(m) && (OpenWriter(s.phase).Some? ==> GhostsOldest(m, OpenWriter(s.phase).value))
  {
    hide StorageInv, Called, OldestFirst, GhostsOldest;
    if m != s {
      var c := s.todo[0];
      var d := if m == Called(s, c) then c else
        var k: nat :| k <= |c.text| && m == Called(s, Write(c.name, c.text[..k])); Write(c.name, c.text[..k]);
      BegunOrder(s, d);
    }
  }

  lemma CrashOrder(s: Sys, fs': Fs)
    requires OldestFirst(s) && WellFormed(s.fs) && Crash(s.fs, fs')
    ensures OldestFirst(s.(fs := fs'))
  {
    forall n: nat, i: Ino | Holds(fs', n, i) ensures Holds(s.fs, n, i) {
      assert May(s.fs, Segment(n), Lookup(fs', Segment(n)));
    }
  }

  lemma SameOrder(s: Sys, s': Sys)
    requires OldestFirst(s) && s'.fs == s.fs && s'.hist == s.hist && s'.pruned == s.pruned
    ensures OldestFirst(s')
  {}

  lemma SameGhosts(s: Sys, s': Sys, w: Writer)
    requires GhostsOldest(s, w) && s'.fs == s.fs
    ensures GhostsOldest(s', w)
  {}

  // ----- steps -----

  lemma CallOrder(s: Sys, s': Sys)
    requires StorageInv(s) && OrderInv(s) && Call(s, s')
    ensures OrderInv(s')
  {
    hide StorageInv, Called, OldestFirst, GhostsOldest;
    var m := Called(s, s.todo[0]);
    BegunOrder(s, s.todo[0]);
    CalledPhase(s, s.todo[0]);
    SameOrder(m, s');
    if OpenWriter(s.phase).Some? { SameGhosts(m, s', OpenWriter(s.phase).value); }
  }

  lemma CalledPhase(s: Sys, c: Cmd)
    requires WellFormed(s.fs) && Enabled(s.fs, c)
    ensures Called(s, c).phase == s.phase
  {}

  lemma InterruptOrder(s: Sys, s': Sys)
    requires StorageInv(s) && OrderInv(s) && (Fault(s, s') || Exit(s, s') || PowerLoss(s, s'))
    ensures OrderInv(s')
  {
    hide StorageInv, Stopped, OldestFirst, GhostsOldest;
    if Fault(s, s') {
      var m :| Stopped(s, m) && s' == m.(todo := ErrorCalls(s.phase), phase := AfterError(s.phase));
      StoppedOrder(s, m);
      SameOrder(m, s');
      if OpenWriter(s.phase).Some? { SameGhosts(m, s', OpenWriter(s.phase).value); }
      FaultOrder(s, s');
    } else if Exit(s, s') {
      var m :| Stopped(s, m) && s' == m.(todo := [], phase := Down);
      StoppedOrder(s, m);
      SameOrder(m, s');
    } else {
      var m :| Stopped(s, m) && Crash(m.fs, s'.fs) && s' == m.(fs := s'.fs, todo := [], phase := Down);
      StoppedOrder(s, m);
      StoppedOk(s, m);
      CrashOrder(m, s'.fs);
      SameOrder(m.(fs := s'.fs), s');
    }
  }

  lemma FaultOrder(s: Sys, s': Sys)
    requires s'.phase == AfterError(s.phase) && OldestFirst(s')
    requires OpenWriter(s.phase).Some? ==> GhostsOldest(s', OpenWriter(s.phase).value)
    ensures OrderInv(s')
  {
    hide OldestFirst;
    if s.phase.Writing? { assert GhostsOldest(s', s'.phase.w); }
    if s.phase.Syncing? { assert GhostsOldest(s', s'.phase.w); }
  }

  /** Nothing is over the limit, so a removal while opening is of the oldest of several. */
  lemma CleaningOrder(cfg: Config, s: Sys, s': Sys)
    requires StorageInv(s) && AllWithin(cfg, s) && ValidConfig(cfg) && Decide(cfg, s, s') && s.phase.Cleaning?
    ensures PhaseOrder(s')
  {
    hide NumbersInv, Core, Repairs;
    var kept := s.phase.kept;
    forall n | n in kept ensures !Oversized(cfg, s.fs, n) {
      if Segment(n) in s.fs.dir { assert Holds(s.fs, n, s.fs.dir[Segment(n)]); }
    }
    if |kept| > cfg.maxFiles {
      var n := s'.phase.gone;
      assert |kept - {n}| == |kept| - 1;
      var m :| m in kept - {n};
    }
  }

  lemma NoGhosts(s: Sys, w: Writer)
    requires s.fs.alt == {}
    ensures GhostsOldest(s, w)
  {}

  lemma DecideOrder(cfg: Config, s: Sys, s': Sys)
    requires StorageInv(s) && OrderInv(s) && Trimmed(cfg, s) && AllWithin(cfg, s) && Decide(cfg, s, s')
    ensures OrderInv(s')
  {
    DecisionFacts(cfg, s, s');
    SameOrder(s, s');
    hide OldestFirst, GhostsOldest;
    if s.phase.Cleaning? {
      CleaningOrder(cfg, s, s');
    } else if s.phase.Rotating? {
      SameGhosts(s, s', s.phase.w);
      RotatingOrder(cfg, s, s');
    } else if OpenWriter(s.phase).Some? {
      hide Decide;
      DecidesWriter(cfg, s, s');
      PhaseGhosts(s, s');
    } else {
      OpeningOrder(cfg, s, s');
    }
  }

  lemma DecisionFacts(cfg: Config, s: Sys, s': Sys)
    requires Decide(cfg, s, s')
    ensures s'.fs == s.fs && s'.hist == s.hist && s'.pruned == s.pruned
  {
    if !s.phase.Syncing? { DecideSameFiles(cfg, s, s'); }
  }

  lemma RotatingOrder(cfg: Config, s: Sys, s': Sys)
    requires Decide(cfg, s, s') && s.phase.Rotating? && GhostsOldest(s', s.phase.w)
    ensures PhaseOrder(s')
  {
    hide ReservePlan, GhostsOldest;
  }

  /** After a removal and after a creation the directory is synced, so nothing can come back. */
  lemma PhaseGhosts(s: Sys, s': Sys)
    requires StorageInv(s) && PhaseOrder(s) && JournalLimits.Follows(s.phase, s'.phase) && s'.fs == s.fs && s.todo == []
    ensures PhaseOrder(s')
  {
    hide NumbersInv, Core, OpenOk, GhostsOldest;
    var w' := OpenWriter(s'.phase).value;
    if s.phase.Pruning? || s.phase.Creating? {
      NoGhosts(s', w');
    } else {
      SameGhosts(s, s', OpenWriter(s.phase).value);
      SameTracked(s', OpenWriter(s.phase).value, w');
    }
  }

  lemma SameTracked(s: Sys, w: Writer, w': Writer)
    requires GhostsOldest(s, w) && w'.tracked == w.tracked
    ensures GhostsOldest(s, w')
  {}

  lemma OpeningOrder(cfg: Config, s: Sys, s': Sys)
    requires StorageInv(s) && Decide(cfg, s, s') && OpenWriter(s.phase).None? && !s.phase.Cleaning? && s'.fs == s.fs
    ensures PhaseOrder(s')
  {
    hide NumbersInv, Core, OpenOk, GhostsOldest, ValidLen;
    if s.phase.Finishing? {
      NoGhosts(s', s'.phase.w);
    }
  }

  lemma StartOrder(cfg: Config, s: Sys, s': Sys)
    requires OrderInv(s) && (OpenCall(cfg, s, s') || AppendCall(cfg, s, s'))
    ensures OrderInv(s')
  {
    SameOrder(s, s') by { hide OpenPlan; }
    hide OldestFirst, GhostsOldest, OpenPlan;
    if AppendCall(cfg, s, s') {
      var w := s.phase.w;
      SameGhosts(s, s', w);
      SameTracked(s', w, OpenWriter(s'.phase).value);
    }
  }

  /** Every step under a configuration that all segments are within keeps the order. */
  lemma StepOrder(cfg: Config, s: Sys, s': Sys)
    requires StorageInv(s) && OrderInv(s) && Trimmed(cfg, s) && AllWithin(cfg, s) && Next(cfg, s, s')
    ensures OrderInv(s')
  {
    hide StorageInv, OrderInv, Trimmed, AllWithin, Call, Fault, Exit, PowerLoss, Decide, OpenCall, AppendCall;
    if Call(s, s') {
      CallOrder(s, s');
    } else if Fault(s, s') || Exit(s, s') || PowerLoss(s, s') {
      InterruptOrder(s, s');
    } else if OpenCall(cfg, s, s') || AppendCall(cfg, s, s') {
      StartOrder(cfg, s, s');
    } else {
      DecideOrder(cfg, s, s');
    }
  }

  lemma InitOrder(s: Sys)
    requires Init(s)
    ensures OrderInv(s)
  {}

  /** What holds besides in a journal that has been used with one configuration. */
  ghost predicate Orderly(cfg: Config, s: Sys)
  {
    WellFormed(s.fs) && Trimmed(cfg, s) && AllWithin(cfg, s) && OrderInv(s)
  }

  lemma StepOrderly(cfg: Config, s: Sys, s': Sys)
    requires StorageInv(s) && Orderly(cfg, s) && Next(cfg, s, s')
    ensures Orderly(cfg, s')
  {
    hide StorageInv, Trimmed, AllWithin, OrderInv, Next;
    StepTrims(cfg, s, s');
    StepWithin(cfg, s, s');
    StepOrder(cfg, s, s');
  }
}
