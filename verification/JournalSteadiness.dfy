/** What a step of the writer cannot do to segments that others have seen. */
module JournalSteadiness {
  import opened Wrappers
  import opened FileSystem
  import opened CrashViews
  import opened Procedures
  import opened ReservationSafety
  import opened Journal
  import opened JournalNumbers
  import opened JournalSegments
  import opened JournalStorage
  import opened JournalStorageSteps
  import opened JournalOrder
  import opened JournalHistory

  predicate Superseded(s: Sys, n: nat) { exists m | m in s.hist :: n < m }

  /** Inode `i` is or was segment `n`, and nothing else. */
  ghost predicate Owned(s: Sys, n: nat, i: Ino)
  {
    && n in s.hist && i < |s.fs.files| && Reach(s.fs.files[i]) <= s.hist[n]
    && forall a {:trigger May(s.fs, a, Some(i))} | May(s.fs, a, Some(i)) :: a == Segment(n)
  }

  /** The calls that an appender makes, as far as segments are concerned. */
  ghost predicate Tame(s: Sys, d: Cmd)
    requires WellFormed(s.fs)
  {
    || MetadataCmd(d)
    || (d.Fsync? && d.name.Segment?)
    || (d.Unlink? && d.name.Segment? && d.name in s.fs.dir && Settled(FileOf(s.fs, d.name)))
    || (d.Create? && d.name.Segment? && forall m | m in s.hist :: m < d.name.number)
    || (d.Write? && d.name.Segment? && Newest(s, d.name.number) && d.name in s.fs.dir
        && FileOf(s.fs, d.name).bytes == s.hist[d.name.number])
    || (d.SetLen? && d.name.Segment? && Newest(s, d.name.number))
  }

  lemma BegunTame(s: Sys, d: Cmd)
    requires StorageInv(s) && OrderInv(s) && Begun(s, d)
    ensures Tame(s, d)
  {
    hide Core, Safe, Inv, Published, Found;
    if s.phase.Opening? || s.phase.Reserving? {
      assert MetadataCmd(s.todo[0]);
    } else if s.phase.Dropping? {
      if d.Unlink? { DroppedSettled(s); }
    } else if s.phase.Pruning? {
      if d.Unlink? { PrunedSettled(s, s.phase.gone, s.phase.w); }
    } else {
      hide OpenOk;
      if s.phase.Writing? { ActiveIsNewest(s, s.phase.w); }
      if s.phase.Truncating? { ActiveIsNewest(s, s.phase.w); }
    }
  }

  lemma ActiveIsNewest(s: Sys, w: Writer)
    requires WellFormed(s.fs) && OpenOk(s, w) && w.active.Some?
    ensures Newest(s, w.active.value.number)
  {}

  lemma DroppedSettled(s: Sys)
    requires WellFormed(s.fs) && Core(s) && PhaseOk(s) && PhaseOrder(s) && s.phase.Dropping? && s.todo == Drop(s.phase.gone)
    ensures Segment(s.phase.gone) in s.fs.dir && Settled(FileOf(s.fs, Segment(s.phase.gone)))
  {
    assert Holds(s.fs, s.phase.gone, s.fs.dir[Segment(s.phase.gone)]);
  }

  lemma PrunedSettled(s: Sys, g: nat, w: Writer)
    requires WellFormed(s.fs) && SettledBut(s, BusyNumber(w)) && w.active.None? && Segment(g) in s.fs.dir
    ensures Settled(FileOf(s.fs, Segment(g)))
  {
    assert Holds(s.fs, g, s.fs.dir[Segment(g)]);
  }

  // ----- what any step keeps of the past -----

  /** Only the newest segment grows, new segments get greater numbers, and only a segment in sight is acknowledged. */
  ghost predicate Grows(s: Sys, s': Sys)
  {
    && (forall n | n in s.hist && Superseded(s, n) :: n in s'.hist && s'.hist[n] == s.hist[n])
    && (forall n | n in s'.hist && n !in s.hist :: s'.hist[n] == [] && forall m | m in s.hist :: m < n)
    && (forall n | n in s.hist && n in s'.hist && s'.hist[n] != s.hist[n] :: Segment(n) in s.fs.dir)
    && (forall n | n in s.acked && n in s'.acked && s'.acked[n] != s.acked[n] :: Segment(n) in s'.fs.dir)
  }

  /** Segments that are found were there before, and old ones hold what they held. */
  ghost predicate Finds(s: Sys, s': Sys)
  {
    && (forall n: nat, i: Ino | Holds(s'.fs, n, i) && n !in s.hist :: Segment(n) in s'.fs.dir)
    && forall n: nat, i: Ino | Holds(s'.fs, n, i) && n in s.hist ::
      && Holds(s.fs, n, i) && i < |s.fs.files| && i < |s'.fs.files|
      && ((Superseded(s, n) || Segment(n) !in s.fs.dir || Segment(n) !in s'.fs.dir) && Settled(s.fs.files[i]) ==>
            s'.fs.files[i] == s.fs.files[i])
      && (Segment(n) in s.fs.dir && Segment(n) !in s'.fs.dir ==> Settled(s.fs.files[i]))
  }

  /** A file that a reader has open stays the segment it was, and an old one does not change. */
  ghost predicate Steady(s: Sys, s': Sys)
  {
    forall n: nat, i: Ino | Owned(s, n, i) ::
      && Owned(s', n, i)
      && (Superseded(s, n) && Settled(s.fs.files[i]) ==> s'.fs.files[i] == s.fs.files[i])
  }

  lemma HeldIsOwned(s: Sys, n: nat, i: Ino)
    requires Core(s) && Holds(s.fs, n, i)
    ensures Owned(s, n, i)
  {
    forall a | May(s.fs, a, Some(i)) ensures a == Segment(n) {
      assert May(s.fs, Segment(n), Some(i));
    }
  }

  lemma TameGrows(s: Sys, d: Cmd)
    requires Core(s) && Enabled(s.fs, d) && Tame(s, d)
    ensures Grows(s, Called(s, d))
  {
    hide Unshared, OneInode, Kept, Sealed, Settled, WellFormed;
    if d.Create? && d.name.Segment? {
      assert d.name.number !in s.hist;
    }
  }

  lemma TameSteady(s: Sys, d: Cmd)
    requires Core(s) && Enabled(s.fs, d) && Tame(s, d)
    ensures Steady(s, Called(s, d))
  {
    forall n: nat, i: Ino | Owned(s, n, i)
      ensures Owned(Called(s, d), n, i)
      ensures Superseded(s, n) && Settled(s.fs.files[i]) ==> Called(s, d).fs.files[i] == s.fs.files[i]
    {
      TameOwned(s, d, n, i);
    }
  }

  lemma TameOwned(s: Sys, d: Cmd, n: nat, i: Ino)
    requires Core(s) && Enabled(s.fs, d) && Tame(s, d) && Owned(s, n, i)
    ensures Owned(Called(s, d), n, i)
    ensures Superseded(s, n) && Settled(s.fs.files[i]) ==> Called(s, d).fs.files[i] == s.fs.files[i]
  {
    var s' := Called(s, d);
    hide Core;
    if (d.Write? || d.Fsync? || d.SetLen?) && s.fs.dir[d.name] == i {
      assert May(s.fs, d.name, Some(i));
      if d.SetLen? { TruncatedReach(s.fs.files[i], d.len); }
    }
    assert d.Link? ==> May(s.fs, d.from, Some(s.fs.dir[d.from]));
    forall a | May(s'.fs, a, Some(i)) ensures a == Segment(n) {
      assert May(s.fs, a, Some(i));
    }
  }

  lemma TruncatedReach(f: File, len: nat)
    requires len <= |f.bytes|
    ensures Reach(TruncateFile(f, len)) == Reach(f)
  {
    assert f.bytes[..len] + (f.bytes[len..] + f.lost) == f.bytes + f.lost;
  }

  lemma TameFinds(s: Sys, d: Cmd)
    requires Core(s) && Enabled(s.fs, d) && Tame(s, d)
    ensures Finds(s, Called(s, d))
  {
    var s' := Called(s, d);
    forall n: nat, i: Ino | Holds(s'.fs, n, i) && n in s.hist
      ensures Holds(s.fs, n, i) && i < |s.fs.files| <= |s'.fs.files|
      ensures (Superseded(s, n) || Segment(n) !in s.fs.dir || Segment(n) !in s'.fs.dir) && Settled(s.fs.files[i]) ==>
                s'.fs.files[i] == s.fs.files[i]
      ensures Segment(n) in s.fs.dir && Segment(n) !in s'.fs.dir ==> Settled(s.fs.files[i])
    {
      TameFound(s, d, n, i);
    }
    forall n: nat, i: Ino | Holds(s'.fs, n, i) && n !in s.hist ensures Segment(n) in s'.fs.dir {
      assert !Holds(s.fs, n, i);
    }
  }

  lemma TameFound(s: Sys, d: Cmd, n: nat, i: Ino)
    requires Core(s) && Enabled(s.fs, d) && Tame(s, d) && Holds(Called(s, d).fs, n, i) && n in s.hist
    ensures Holds(s.fs, n, i) && i < |s.fs.files| <= |Called(s, d).fs.files|
    ensures var s' := Called(s, d);
            && ((Superseded(s, n) || Segment(n) !in s.fs.dir || Segment(n) !in s'.fs.dir) && Settled(s.fs.files[i]) ==>
                  s'.fs.files[i] == s.fs.files[i])
            && (Segment(n) in s.fs.dir && Segment(n) !in s'.fs.dir ==> Settled(s.fs.files[i]))
  {
    KeptHeld(s, d, n, i);
    HeldIsOwned(s, n, i);
    TameOwned(s, d, n, i);
    OneInodeOf(s, n);
    hide Core, Owned;
    if (d.Write? || d.Fsync? || d.SetLen?) && s.fs.dir[d.name] == i {
      OwnName(s, n, i, d.name);
    }
  }

  lemma OwnName(s: Sys, n: nat, i: Ino, a: Name)
    requires Owned(s, n, i) && a in s.fs.dir && s.fs.dir[a] == i
    ensures a == Segment(n)
  {
    assert May(s.fs, a, Some(i));
  }

  lemma OneInodeOf(s: Sys, n: nat)
    requires Core(s)
    ensures forall i: Ino | Holds(s.fs, n, i) && Segment(n) in s.fs.dir :: i == s.fs.dir[Segment(n)]
  {
    forall i: Ino | Holds(s.fs, n, i) && Segment(n) in s.fs.dir ensures i == s.fs.dir[Segment(n)] {
      assert Holds(s.fs, n, s.fs.dir[Segment(n)]);
    }
  }

  lemma KeptHeld(s: Sys, d: Cmd, n: nat, i: Ino)
    requires WellFormed(s.fs) && Enabled(s.fs, d) && Tame(s, d) && Holds(Called(s, d).fs, n, i) && n in s.hist
    ensures Holds(s.fs, n, i) && i < |s.fs.files| <= |Called(s, d).fs.files|
  {}

  /** Nothing happened to the files; at most the newest segment was acknowledged. */
  lemma SameFsKeeps(s: Sys, s': Sys)
    requires Core(s) && s'.fs == s.fs && s'.hist == s.hist
    requires forall n | n in s.acked && n in s'.acked && s'.acked[n] != s.acked[n] :: Segment(n) in s.fs.dir
    ensures Grows(s, s') && Finds(s, s') && Steady(s, s')
  {}

  lemma StoppedKeeps(s: Sys, m: Sys)
    requires StorageInv(s) && OrderInv(s) && Stopped(s, m)
    ensures Grows(s, m) && Finds(s, m) && Steady(s, m)
  {
    hide StorageInv, OrderInv, Called, Grows, Finds, Steady, Tame;
    StorageCore(s);
    if m == s {
      SameFsKeeps(s, m);
    } else {
      var c := s.todo[0];
      var d := if m == Called(s, c) then c else
        var k: nat :| k <= |c.text| && m == Called(s, Write(c.name, c.text[..k])); Write(c.name, c.text[..k]);
      BegunKeeps(s, d);
    }
  }

  lemma BegunKeeps(s: Sys, d: Cmd)
    requires StorageInv(s) && OrderInv(s) && Begun(s, d)
    ensures Grows(s, Called(s, d)) && Finds(s, Called(s, d)) && Steady(s, Called(s, d))
  {
    StorageCore(s);
    BegunTame(s, d);
    TameGrows(s, d);
    TameFinds(s, d);
    TameSteady(s, d);
  }

  lemma StorageCore(s: Sys)
    requires StorageInv(s)
    ensures Core(s) && WellFormed(s.fs)
  {}

  /** The program counter is not part of what is kept. */
  lemma SameFactsKeep(s: Sys, m: Sys, s': Sys)
    requires Grows(s, m) && Finds(s, m) && Steady(s, m)
    requires s'.fs == m.fs && s'.hist == m.hist && s'.acked == m.acked
    ensures Grows(s, s') && Finds(s, s') && Steady(s, s')
  {}

  ghost predicate Works(cfg: Config, s: Sys, s': Sys)
  {
    Call(s, s') || Fault(s, s') || Exit(s, s') || OpenCall(cfg, s, s') || AppendCall(cfg, s, s') || Decide(cfg, s, s')
  }

  lemma WorkKeeps(cfg: Config, s: Sys, s': Sys)
    requires StorageInv(s) && OrderInv(s) && Works(cfg, s, s')
    ensures Grows(s, s') && Finds(s, s') && Steady(s, s')
  {
    hide StorageInv, OrderInv, Grows, Finds, Steady, Stopped, Decide, Core;
    StorageCore(s);
    if Call(s, s') {
      BegunKeeps(s, s.todo[0]);
      SameFactsKeep(s, Called(s, s.todo[0]), s');
    } else if Fault(s, s') {
      var m :| Stopped(s, m) && s' == m.(todo := ErrorCalls(s.phase), phase := AfterError(s.phase));
      StoppedKeeps(s, m);
      SameFactsKeep(s, m, s');
    } else if Exit(s, s') {
      var m :| Stopped(s, m) && s' == m.(todo := [], phase := Down);
      StoppedKeeps(s, m);
      SameFactsKeep(s, m, s');
    } else if OpenCall(cfg, s, s') || AppendCall(cfg, s, s') {
      SameFsKeeps(s, s');
    } else {
      DecideKeepsFiles(cfg, s, s');
      SameFsKeeps(s, s');
    }
  }

  lemma DecideKeepsFiles(cfg: Config, s: Sys, s': Sys)
    requires StorageInv(s) && Decide(cfg, s, s')
    ensures s'.fs == s.fs && s'.hist == s.hist
    ensures forall n | n in s.acked && n in s'.acked && s'.acked[n] != s.acked[n] :: Segment(n) in s.fs.dir
  {
    hide Core, NumbersInv;
    if s.phase.Syncing? {
    } else {
      DecideSameFiles(cfg, s, s');
    }
  }

  lemma CrashKeepsFinds(s: Sys, m: Sys, s': Sys)
    requires Core(s) && Core(m) && Finds(s, m) && Grows(s, m)
    requires Crash(m.fs, s'.fs) && s' == m.(fs := s'.fs, todo := s'.todo, phase := s'.phase)
    requires forall n | n in s.hist :: n in m.hist
    requires s.acked.Keys <= m.acked.Keys && forall n | n in s.acked :: m.acked[n] == s.acked[n]
    ensures Finds(s, s') && Grows(s, s')
  {
    forall n: nat, i: Ino | Holds(s'.fs, n, i) ensures Holds(m.fs, n, i) && Segment(n) in s'.fs.dir {
      assert May(m.fs, Segment(n), Lookup(s'.fs, Segment(n)));
    }
    forall n: nat, i: Ino | Holds(s'.fs, n, i) && n in s.hist && Settled(m.fs.files[i])
      ensures s'.fs.files[i] == m.fs.files[i]
    {
      assert Holds(m.fs, n, i) && i < |m.fs.files|;
      SettledSurvives(m.fs.files[i], s'.fs.files[i]);
    }
  }

  /** Interrupted calls acknowledge nothing. */
  lemma StoppedAcks(s: Sys, m: Sys)
    requires StorageInv(s) && Stopped(s, m)
    ensures s.acked.Keys <= m.acked.Keys && forall n | n in s.acked :: m.acked[n] == s.acked[n]
    ensures forall n | n in s.hist :: n in m.hist
  {
    hide StorageInv;
    StoppedExtends(s, m);
    if m != s {
      if s.todo[0].Create? && s.todo[0].name.Segment? {
        CreatedIsNew(s);
      }
      hide Exec, Noted, WellFormed;
    }
  }

  lemma CreatedIsNew(s: Sys)
    requires StorageInv(s) && s.todo != [] && s.todo[0].Create? && s.todo[0].name.Segment?
    ensures s.todo[0].name.number !in s.acked
  {
    hide Inv, Safe, Published, OpenOk;
    assert !MetadataCmd(s.todo[0]) && !SegmentCmd(s.todo[0]);
    CoreKeys(s);
  }

  lemma LossKeeps(cfg: Config, s: Sys, s': Sys)
    requires StorageInv(s) && OrderInv(s) && PowerLoss(s, s')
    ensures Grows(s, s') && Finds(s, s') && s'.fs.alt == {}
  {
    hide StorageInv, OrderInv, Grows, Finds, Steady, Stopped, Core;
    var m :| Stopped(s, m) && Crash(m.fs, s'.fs) && s' == m.(fs := s'.fs, todo := [], phase := Down);
    StorageCore(s);
    StoppedKeeps(s, m);
    StoppedAcks(s, m);
    StoppedOk(s, m);
    CrashKeepsFinds(s, m, s');
  }
}
