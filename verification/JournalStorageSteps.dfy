/** Every step of the journal keeps the storage invariant. */
module JournalStorageSteps {
  import opened Wrappers
  import opened FileSystem
  import opened CrashViews
  import opened Procedures
  import opened Reservation
  import opened ReservationSafety
  import opened Journal
  import opened JournalNumbers
  import opened JournalSegments
  import opened JournalStorage

  /** The appender behind a phase of an append. */
  function OpenWriter(p: Phase): Option<Writer>
  {
    match p
    case Ready(w) => Some(w)
    case Rotating(w, _) => Some(w)
    case Pruning(w, _, _) => Some(w)
    case Reserving(w, _) => Some(w)
    case Creating(w, _, _) => Some(w)
    case Writing(w, _) => Some(w)
    case Truncating(w) => Some(w)
    case Syncing(w, _) => Some(w)
    case _ => None
  }

  /** An appender stays good when names of segments stay and only its active file changes. */
  lemma OpenOkFrame(s: Sys, s': Sys, w: Writer)
    requires WellFormed(s.fs) && WellFormed(s'.fs) && OpenOk(s, w)
    requires s'.hist.Keys == s.hist.Keys && s'.acked == s.acked && s'.pruned == s.pruned
    requires forall n | n in s.hist && BusyNumber(w) != Some(n) :: s'.hist[n] == s.hist[n]
    requires forall n: nat :: Lookup(s'.fs, Segment(n)) == Lookup(s.fs, Segment(n))
    requires forall n: nat, e | (Segment(n), e) in s'.fs.alt :: (Segment(n), e) in s.fs.alt
    requires forall n: nat, i: Ino | Holds(s.fs, n, i) && BusyNumber(w) != Some(n) && i < |s.fs.files| ::
               i < |s'.fs.files| && s'.fs.files[i] == s.fs.files[i]
    requires w.active.Some? && Segment(w.active.value.number) in s'.fs.dir ==>
               w.active.value.bytes <= |FileOf(s'.fs, Segment(w.active.value.number)).bytes|
    ensures OpenOk(s', w)
  {
    forall n: nat, i: Ino | Holds(s'.fs, n, i) ensures Holds(s.fs, n, i) {}
    forall n: nat | Segment(n) in s'.fs.dir ensures Segment(n) in s.fs.dir {
      assert Lookup(s'.fs, Segment(n)) == Lookup(s.fs, Segment(n));
    }
    forall n: nat | Segment(n) in s.fs.dir ensures Segment(n) in s'.fs.dir {
      assert Lookup(s'.fs, Segment(n)) == Lookup(s.fs, Segment(n));
    }
  }

  lemma MetadataOpenOk(s: Sys, c: Cmd, w: Writer)
    requires Core(s) && MetadataCmd(c) && Enabled(s.fs, c) && OpenOk(s, w)
    ensures OpenOk(Called(s, c), w)
  {
    var s' := Called(s, c);
    forall n: nat, i: Ino | Holds(s.fs, n, i) ensures i < |s'.fs.files| && s'.fs.files[i] == s.fs.files[i] {
      if c.Write? || c.Fsync? {
        assert May(s.fs, c.name, Some(s.fs.dir[c.name]));
      }
    }
    if w.active.Some? {
      assert Holds(s.fs, w.active.value.number, s.fs.dir[Segment(w.active.value.number)]);
    }
    OpenOkFrame(s, s', w);
  }

  /** A call on the active file. */
  predicate ActiveCmd(c: Cmd, a: Active)
  {
    match c
    case Write(n, _) => n == Segment(a.number)
    case Fsync(n) => n == Segment(a.number)
    case SetLen(n, len) => n == Segment(a.number) && len == a.bytes
    case _ => false
  }

  lemma ActiveOpenOk(s: Sys, c: Cmd, w: Writer)
    requires Core(s) && OpenOk(s, w) && w.active.Some?
    requires ActiveCmd(c, w.active.value) && Enabled(s.fs, c)
    ensures OpenOk(Called(s, c), w)
  {
    var s' := Called(s, c);
    var n := w.active.value.number;
    var at := s.fs.dir[Segment(n)];
    assert Holds(s.fs, n, at);
    forall m: nat, i: Ino | Holds(s.fs, m, i) && m != n ensures s'.fs.files[i] == s.fs.files[i] {
      assert May(s.fs, Segment(m), Some(i)) && May(s.fs, Segment(n), Some(at));
    }
    OpenOkFrame(s, s', w);
  }

  lemma PruneOpenOk(s: Sys, w: Writer, g: nat)
    requires Core(s) && OpenOk(s, w) && Segment(g) in s.fs.dir && w.active.None?
    ensures OpenOk(Called(s, Unlink(Segment(g))), w)
  {
    var s' := Called(s, Unlink(Segment(g)));
    forall n: nat, i: Ino | Holds(s'.fs, n, i) ensures Holds(s.fs, n, i) {}
  }

  lemma CreateOpenOk(s: Sys, w: Writer, n: nat)
    requires Core(s) && OpenOk(s, w) && w.active.None? && Segment(n) !in s.fs.dir
    requires forall m | m in s.hist :: m < n
    ensures Core(Called(s, Create(Segment(n)))) && OpenOk(Called(s, Create(Segment(n))), w)
  {
    CreateCore(s, n);
    CreatedOpenOk(s, w, n);
    hide Core, OpenOk;
  }

  lemma CreatedOpenOk(s: Sys, w: Writer, n: nat)
    requires WellFormed(s.fs) && OpenOk(s, w) && w.active.None? && Segment(n) !in s.fs.dir
    requires forall m | m in s.hist :: m < n
    ensures OpenOk(Called(s, Create(Segment(n))), w)
  {
    var s' := Called(s, Create(Segment(n)));
    forall m: nat, i: Ino | Holds(s'.fs, m, i) ensures Holds(s.fs, m, i) || (m == n && i == |s.fs.files|) {}
  }

  /** `d` is the next call, or the part of a write that was done. */
  ghost predicate Begun(s: Sys, d: Cmd)
  {
    && s.todo != [] && WellFormed(s.fs) && Enabled(s.fs, s.todo[0]) && Enabled(s.fs, d)
    && (|| d == s.todo[0]
        || (s.todo[0].Write? && exists k: nat | k <= |s.todo[0].text| :: d == Write(s.todo[0].name, s.todo[0].text[..k])))
  }

  lemma WritingOpen(s: Sys, d: Cmd, w: Writer)
    requires Core(s) && PhaseOk(s) && Begun(s, d) && s.phase.Writing? && w == s.phase.w
    ensures Core(Called(s, d)) && OpenOk(Called(s, d), w)
  {
    hide Core;
    var a := w.active.value;
    var r := s.phase.record;
    assert d.Write? && d.name == Segment(a.number) && |d.text| <= |r|;
    WriteCore(s, a.number, d.text);
    ActiveOpenOk(s, d, w);
  }

  lemma SettlingOpen(s: Sys, d: Cmd, w: Writer)
    requires Core(s) && PhaseOk(s) && Begun(s, d)
    requires (s.phase.Truncating? || s.phase.Syncing?) && w == s.phase.w
    ensures Core(Called(s, d)) && OpenOk(Called(s, d), w)
  {
    hide Core;
    var a := w.active.value;
    if s.phase.Truncating? {
      SetLenCore(s, a.number, a.bytes);
    } else {
      FsyncCore(s, a.number);
    }
    ActiveOpenOk(s, d, w);
  }

  lemma RotatingOpen(s: Sys, d: Cmd, w: Writer)
    requires NumbersInv(s) && Core(s) && PhaseOk(s) && Begun(s, d)
    requires (s.phase.Pruning? || s.phase.Reserving? || s.phase.Creating?) && w == s.phase.w
    ensures Core(Called(s, d)) && OpenOk(Called(s, d), w)
  {
    hide Core, Inv, Safe, Published, Called;
    if s.phase.Pruning? && s.todo == Drop(s.phase.gone) {
      UnlinkCore(s, s.phase.gone);
      PruneOpenOk(s, w, s.phase.gone);
    } else if s.phase.Creating? && |s.todo| == 2 {
      CreateOpenOk(s, w, s.phase.number);
    } else {
      assert MetadataCmd(s.todo[0]) && MetadataCmd(d);
      MetadataCore(s, d);
      MetadataOpenOk(s, d, w);
    }
  }

  lemma RepairKeepsAcked(s: Sys, n: nat)
    requires Core(s) && Segment(n) in s.fs.dir
    ensures n in s.acked && s.acked[n] <= ValidLen(FileOf(s.fs, Segment(n)).bytes)
  {
    var at := s.fs.dir[Segment(n)];
    assert Holds(s.fs, n, at);
    var f := s.fs.files[at];
    assert f.bytes[..s.acked[n]] == Reach(f)[..s.acked[n]] == s.hist[n][..s.acked[n]];
  }

  lemma OpeningCore(s: Sys, d: Cmd)
    requires NumbersInv(s) && Core(s) && PhaseOk(s) && Begun(s, d) && OpenWriter(s.phase).None?
    ensures Core(Called(s, d))
  {
    hide Core, Inv, Safe, Called, ValidLen;
    match s.phase
    case Opening(_) =>
      assert MetadataCmd(s.todo[0]) && MetadataCmd(d);
      MetadataCore(s, d);
    case Dropping(_, kept, g) =>
      if s.todo == Drop(g) { UnlinkCore(s, g); } else { SyncDirCore(s); }
    case Repairing(_, kept) =>
      if d.SetLen? {
        RepairKeepsAcked(s, d.name.number);
        SetLenCore(s, d.name.number, d.len);
      } else {
        FsyncCore(s, d.name.number);
      }
    case Sealing(_, _, _) => FsyncCore(s, d.name.number);
    case Finishing(_, _) => SyncDirCore(s);
    case Cleaning(_, _) =>
    case Down =>
  }

  /** However far the next call gets, the files stay good, and so does an open appender. */
  lemma BegunOk(s: Sys, d: Cmd)
    requires StorageInv(s) && Begun(s, d)
    ensures Core(Called(s, d))
    ensures OpenWriter(s.phase).Some? ==> OpenOk(Called(s, d), OpenWriter(s.phase).value)
  {
    hide Core, NumbersInv, Called, Begun, OpenOk;
    if OpenWriter(s.phase).None? {
      OpeningCore(s, d);
    } else if s.phase.Writing? {
      WritingOpen(s, d, s.phase.w);
    } else if s.phase.Truncating? || s.phase.Syncing? {
      SettlingOpen(s, d, s.phase.w);
    } else {
      NothingToDo(s, d);
      RotatingOpen(s, d, s.phase.w);
    }
  }

  lemma NothingToDo(s: Sys, d: Cmd)
    requires WellFormed(s.fs) && PhaseOk(s) && Begun(s, d)
    ensures !s.phase.Ready? && !s.phase.Rotating?
  {
    hide OpenOk;
  }

  /** The invariant of the files and of an open appender does not read the program counter. */
  predicate SameFiles(s: Sys, s': Sys)
  {
    s'.fs == s.fs && s'.hist == s.hist && s'.acked == s.acked && s'.pruned == s.pruned
  }

  lemma SameFilesOk(s: Sys, s': Sys)
    requires SameFiles(s, s') && Core(s)
    ensures Core(s')
  {}

  lemma SameFilesOpenOk(s: Sys, s': Sys, w: Writer)
    requires SameFiles(s, s') && WellFormed(s.fs) && OpenOk(s, w)
    ensures OpenOk(s', w)
  {}

  // ----- a call that succeeds -----

  lemma DroppingCall(s: Sys, s': Sys)
    requires WellFormed(s.fs) && WellFormed(s'.fs) && PhaseOk(s) && Call(s, s') && s.phase.Dropping?
    ensures PhaseOk(s')
  {
    var kept, g := s.phase.kept, s.phase.gone;
    if s.todo == Drop(g) {
      assert s'.todo == [SyncDir];
      forall n: nat, i: Ino | Holds(s'.fs, n, i) ensures n in kept {
        assert Holds(s.fs, n, i);
      }
      assert g !in Found(s'.fs);
    }
  }

  lemma RepairingCall(s: Sys, s': Sys)
    requires WellFormed(s.fs) && WellFormed(s'.fs) && PhaseOk(s) && Core(s) && Call(s, s') && s.phase.Repairing?
    ensures PhaseOk(s')
  {
    hide ValidLen, Core;
    var kept := s.phase.kept;
    var n := s.todo[0].name.number;
    UnchangedOthers(s, s.todo[0], n) by { KeepsUnshared(s); }
    assert CompleteFile(s'.fs, n);
    assert forall m | m in kept && m != n :: CompleteFile(s'.fs, m);
  }

  lemma KeepsUnshared(s: Sys)
    requires Core(s)
    ensures Unshared(s.fs)
  {}

  /** A call on the file of segment `n` leaves the other segments alone. */
  lemma UnchangedOthers(s: Sys, c: Cmd, n: nat)
    requires WellFormed(s.fs) && Unshared(s.fs) && Enabled(s.fs, c) && Segment(n) in s.fs.dir
    requires (c.Fsync? && c.name == Segment(n)) || (c.SetLen? && c.name == Segment(n)) || (c.Write? && c.name == Segment(n))
    ensures var fs' := Exec(s.fs, c);
            forall m: nat | m != n && Segment(m) in s.fs.dir ::
              Segment(m) in fs'.dir && FileOf(fs', Segment(m)) == FileOf(s.fs, Segment(m))
  {
    forall m: nat | m != n && Segment(m) in s.fs.dir ensures s.fs.dir[Segment(m)] != s.fs.dir[Segment(n)] {
      assert May(s.fs, Segment(m), Some(s.fs.dir[Segment(m)])) && May(s.fs, Segment(n), Some(s.fs.dir[Segment(n)]));
    }
  }

  lemma SealingCall(s: Sys, s': Sys)
    requires WellFormed(s.fs) && WellFormed(s'.fs) && PhaseOk(s) && Core(s) && Call(s, s') && s.phase.Sealing?
    ensures PhaseOk(s')
  {
    hide Core;
    var kept, left := s.phase.kept, s.phase.left;
    var n := s.todo[0].name.number;
    UnchangedOthers(s, s.todo[0], n) by { KeepsUnshared(s); }
    assert forall m | m in kept && m != n :: FileOf(s'.fs, Segment(m)) == FileOf(s.fs, Segment(m));
  }

  lemma FinishingCall(s: Sys, s': Sys)
    requires WellFormed(s.fs) && WellFormed(s'.fs) && PhaseOk(s) && Call(s, s') && s.phase.Finishing?
    ensures PhaseOk(s')
  {
    assert s'.fs == s.fs;
  }

  lemma AppendingCall(s: Sys, s': Sys)
    requires WellFormed(s.fs) && WellFormed(s'.fs) && PhaseOk(s) && NumbersInv(s) && s.pruned <= s.hist.Keys
    requires Call(s, s') && OpenWriter(s.phase).Some?
    requires OpenOk(s', OpenWriter(s.phase).value)
    ensures PhaseOk(s')
  {
    hide OpenOk, Inv, Safe, Published;
    match s.phase
    case Creating(w, r, n) =>
      if |s.todo| == 2 { assert forall m | m in s.hist :: m < n; assert n !in s.pruned; }
    case Writing(w, r) => WrittenIntact(s, s', w.active.value, r);
    case _ =>
  }

  lemma WrittenIntact(s: Sys, s': Sys, a: Active, r: Bytes)
    requires WellFormed(s.fs) && WellFormed(s'.fs) && Intact(s, a, 0) && r != [] && EndsLine(r)
    requires Call(s, s') && s.todo[0] == Write(Segment(a.number), r)
    ensures Intact(s', a, |r|)
  {
    var f := FileOf(s.fs, Segment(a.number));
    assert (f.bytes + r)[|f.bytes + r| - 1] == r[|r| - 1];
  }

  lemma CallKeepsStorage(s: Sys, s': Sys)
    requires StorageInv(s) && Call(s, s')
    ensures StorageInv(s')
  {
    hide Core, NumbersInv, OpenOk, PhaseOk;
    var m := Called(s, s.todo[0]);
    CallKeeps(s, s');
    BegunOk(s, s.todo[0]);
    SameFilesOk(m, s');
    if OpenWriter(s.phase).Some? {
      SameFilesOpenOk(m, s', OpenWriter(s.phase).value);
      PrunedWereThere(s);
      AppendingCall(s, s');
    } else {
      OpeningCall(s, s');
    }
  }

  lemma OpeningCall(s: Sys, s': Sys)
    requires StorageInv(s) && Call(s, s') && OpenWriter(s.phase).None? && WellFormed(s'.fs)
    ensures PhaseOk(s')
  {
    hide Core, NumbersInv;
    match s.phase
    case Dropping(_, _, _) => DroppingCall(s, s');
    case Repairing(_, _) => RepairingCall(s, s');
    case Sealing(_, _, _) => SealingCall(s, s');
    case Finishing(_, _) => FinishingCall(s, s');
    case _ =>
  }

  lemma PrunedWereThere(s: Sys)
    requires Core(s)
    ensures s.pruned <= s.hist.Keys && s.hist.Keys == s.acked.Keys
  {}

  // ----- an interruption -----

  lemma StoppedOk(s: Sys, m: Sys)
    requires StorageInv(s) && Stopped(s, m)
    ensures Core(m) && WellFormed(m.fs)
    ensures OpenWriter(s.phase).Some? ==> OpenOk(m, OpenWriter(s.phase).value)
  {
    hide Core, NumbersInv, Called, OpenOk;
    if m == s {
      PhaseOpenOk(s);
    } else {
      var c := s.todo[0];
      var d := if m == Called(s, c) then c else
        var k: nat :| k <= |c.text| && m == Called(s, Write(c.name, c.text[..k])); Write(c.name, c.text[..k]);
      BegunOk(s, d);
      CoreWellFormed(m);
    }
  }

  lemma CoreWellFormed(s: Sys)
    requires Core(s)
    ensures WellFormed(s.fs)
  {}

  lemma PhaseOpenOk(s: Sys)
    requires WellFormed(s.fs) && PhaseOk(s)
    ensures OpenWriter(s.phase).Some? ==> OpenOk(s, OpenWriter(s.phase).value)
  {
    hide OpenOk;
  }

  lemma FaultPhase(s: Sys, m: Sys, s': Sys)
    requires WellFormed(s.fs) && PhaseOk(s) && s.todo != [] && WellFormed(m.fs)
    requires OpenWriter(s.phase).Some? ==> OpenOk(m, OpenWriter(s.phase).value)
    requires s' == m.(todo := ErrorCalls(s.phase), phase := AfterError(s.phase))
    ensures PhaseOk(s')
  {
    hide Intact, Settled;
    if OpenWriter(s.phase).Some? {
      SameFilesOpenOk(m, s', OpenWriter(s.phase).value);
    }
  }

  lemma InterruptKeepsStorage(s: Sys, s': Sys)
    requires StorageInv(s) && (Fault(s, s') || Exit(s, s') || PowerLoss(s, s'))
    ensures StorageInv(s')
  {
    hide Core, NumbersInv, OpenOk;
    InterruptKeeps(s, s');
    if Fault(s, s') {
      var m :| Stopped(s, m) && s' == m.(todo := ErrorCalls(s.phase), phase := AfterError(s.phase));
      StoppedOk(s, m);
      SameFilesOk(m, s');
      FaultPhase(s, m, s');
    } else if Exit(s, s') {
      var m :| Stopped(s, m) && s' == m.(todo := [], phase := Down);
      StoppedOk(s, m);
      SameFilesOk(m, s');
    } else {
      var m :| Stopped(s, m) && Crash(m.fs, s'.fs) && s' == m.(fs := s'.fs, todo := [], phase := Down);
      StoppedOk(s, m);
      CrashCore(m, s'.fs);
      SameFilesOk(m.(fs := s'.fs), s');
      CoreWellFormed(s');
    }
  }

  // ----- a decision between calls -----

  /** Any segment with a successor, and any segment that needs no repair, holds whole records. */
  lemma CompleteUnlessNewest(s: Sys, n: nat)
    requires Core(s) && Segment(n) in s.fs.dir
    ensures CompleteFile(s.fs, n) || Newest(s, n)
  {
    assert Holds(s.fs, n, s.fs.dir[Segment(n)]);
    if !Newest(s, n) {
      var m :| m in s.hist && n < m;
      assert Settled(s.fs.files[s.fs.dir[Segment(n)]]);
    }
  }

  lemma CompleteNeedsNoRepair(b: Bytes)
    ensures EndsLine(b) <==> ValidLen(b) == |b|
  {
    assert b[..|b|] == b;
  }

  lemma RepairDecided(s: Sys, s': Sys)
    requires WellFormed(s.fs) && WellFormed(s'.fs) && Core(s) && s.phase.Cleaning? && Surveyed(s, s.phase.kept)
    requires Repairs(s.fs, s.phase.kept, s'.todo)
    requires s' == s.(phase := Repairing(s.phase.next, s.phase.kept), todo := s'.todo)
    ensures PhaseOk(s')
  {
    hide Core, ValidLen, SettledBut, OpenOk, Intact;
    var kept := s.phase.kept;
    if kept != {} {
      var n :| n in kept && (forall m | m in kept :: m <= n) && Segment(n) in s.fs.dir
               && var b := FileOf(s.fs, Segment(n)).bytes;
                  s'.todo == if ValidLen(b) == |b| then [] else [SetLen(Segment(n), ValidLen(b)), Fsync(Segment(n))];
      CompleteNeedsNoRepair(FileOf(s.fs, Segment(n)).bytes);
      CompleteUnlessNewest(s, n);
      forall m | m in kept && m != n ensures CompleteFile(s'.fs, m) {
        CompleteUnlessNewest(s, m);
      }
      assert Newest(s, n) ==> Newest(s', n);
    }
  }

  lemma CleaningDecides(cfg: Config, s: Sys, s': Sys)
    requires WellFormed(s.fs) && Core(s) && PhaseOk(s) && Decide(cfg, s, s') && s.phase.Cleaning?
    ensures PhaseOk(s')
  {
    hide Core, ValidLen, Repairs, Oversized, OpenOk, Intact;
    if s'.phase.Repairing? {
      RepairDecided(s, s');
    }
  }

  lemma OpeningDecides(cfg: Config, s: Sys, s': Sys)
    requires StorageInv(s) && Decide(cfg, s, s') && OpenWriter(s.phase).None?
    ensures PhaseOk(s')
  {
    hide Core, NumbersInv, PhaseOk, Decide;
    match s.phase
    case Opening(_) => OpenedDecides(cfg, s, s');
    case Cleaning(_, _) => CleaningDecides(cfg, s, s');
    case Finishing(_, _) => SealedDecides(cfg, s, s');
    case Sealing(_, _, _) => SealedDecides(cfg, s, s');
    case _ => CutDecides(cfg, s, s');
  }

  lemma OpenedDecides(cfg: Config, s: Sys, s': Sys)
    requires StorageInv(s) && Decide(cfg, s, s') && s.phase.Opening?
    ensures PhaseOk(s')
  {
    hide Core, Inv;
    if s.phase.outcome.Ok? {
      assert PublishedAs(s.phase.outcome.value)(s.fs);
      forall n: nat | Segment(n) in s.fs.dir ensures n in s.hist { FoundKnown(s, n); }
      forall n: nat ensures n in Found(s.fs) <==> Segment(n) in s.fs.dir {}
    }
  }

  lemma SealedDecides(cfg: Config, s: Sys, s': Sys)
    requires WellFormed(s.fs) && PhaseOk(s) && Decide(cfg, s, s') && (s.phase.Finishing? || s.phase.Sealing?)
    ensures PhaseOk(s')
  {
    var kept := s.phase.kept;
    if s.phase.Finishing? {
      FinishedOk(s, s', kept);
    } else if s.phase.left == {} {
      AllSealed(s, kept);
      SameSettled(s, s');
    }
    hide OpenOk;
  }

  lemma CutDecides(cfg: Config, s: Sys, s': Sys)
    requires WellFormed(s.fs) && PhaseOk(s) && Decide(cfg, s, s')
    requires s.phase.Down? || s.phase.Dropping? || s.phase.Repairing?
    ensures PhaseOk(s')
  {
    hide ValidLen;
  }

  lemma FoundKnown(s: Sys, n: nat)
    requires Core(s) && Segment(n) in s.fs.dir
    ensures n in s.hist
  {
    assert Holds(s.fs, n, s.fs.dir[Segment(n)]);
  }

  lemma SameSettled(s: Sys, s': Sys)
    requires s'.fs == s.fs && SettledBut(s, None)
    ensures SettledBut(s', None)
  {}

  lemma AllSealed(s: Sys, kept: set<nat>)
    requires WellFormed(s.fs) && Surveyed(s, kept)
    requires forall n | n in kept :: Segment(n) in s.fs.dir && Settled(FileOf(s.fs, Segment(n)))
    ensures SettledBut(s, None)
  {}

  lemma FinishedOk(s: Sys, s': Sys, kept: set<nat>)
    requires WellFormed(s.fs) && Surveyed(s, kept) && SettledBut(s, None)
    requires SameFiles(s, s') && s.phase.Finishing?
    ensures OpenOk(s', Writer(s.phase.next, kept, None, false))
  {}

  lemma RotatingDecides(cfg: Config, s: Sys, s': Sys)
    requires WellFormed(s.fs) && PhaseOk(s) && Decide(cfg, s, s')
    requires s.phase.Rotating? || s.phase.Reserving?
    ensures PhaseOk(s')
  {
    hide ReservePlan;
  }

  lemma PruningDecides(cfg: Config, s: Sys, s': Sys)
    requires WellFormed(s.fs) && PhaseOk(s) && Decide(cfg, s, s') && s.phase.Pruning?
    ensures PhaseOk(s')
  {}

  lemma EmptyIntact(s: Sys, n: nat)
    requires Core(s) && Segment(n) in s.fs.dir && n in s.hist && s.hist[n] == []
    ensures n in s.acked && s.acked[n] == 0 && Intact(s, Active(n, 0), 0)
  {
    assert Holds(s.fs, n, s.fs.dir[Segment(n)]);
  }

  lemma CreatingDecides(cfg: Config, s: Sys, s': Sys)
    requires WellFormed(s.fs) && Core(s) && PhaseOk(s) && Decide(cfg, s, s') && s.phase.Creating?
    ensures PhaseOk(s')
  {
    hide Core;
    var n := s.phase.number;
    EmptyIntact(s, n);
  }

  lemma WritingDecides(cfg: Config, s: Sys, s': Sys)
    requires WellFormed(s.fs) && PhaseOk(s) && Decide(cfg, s, s') && (s.phase.Writing? || s.phase.Truncating?)
    ensures PhaseOk(s')
  {}

  /** An append is acknowledged once its file is synced. */
  lemma AcknowledgeCore(cfg: Config, s: Sys, s': Sys)
    requires WellFormed(s.fs) && Core(s) && PhaseOk(s) && Decide(cfg, s, s') && s.phase.Syncing?
    ensures Core(s')
  {
    var a := s.phase.w.active.value;
    var n := a.number;
    assert Holds(s.fs, n, s.fs.dir[Segment(n)]);
    assert s'.acked[n] == |s.hist[n]|;
    assert s.hist[n][..|s.hist[n]|] == s.hist[n];
  }

  lemma SyncingDecides(cfg: Config, s: Sys, s': Sys)
    requires WellFormed(s.fs) && PhaseOk(s) && Decide(cfg, s, s') && s.phase.Syncing?
    ensures PhaseOk(s')
  {}

  lemma DecideKeepsStorage(cfg: Config, s: Sys, s': Sys)
    requires StorageInv(s) && Decide(cfg, s, s')
    ensures StorageInv(s')
  {
    hide Core, NumbersInv, PhaseOk;
    DecideKeeps(cfg, s, s');
    if s.phase.Syncing? {
      AcknowledgeCore(cfg, s, s');
      SyncingDecides(cfg, s, s');
    } else {
      DecideSameFiles(cfg, s, s');
      SameFilesOk(s, s');
      if OpenWriter(s.phase).None? {
        OpeningDecides(cfg, s, s');
      } else if s.phase.Rotating? || s.phase.Reserving? {
        RotatingDecides(cfg, s, s');
      } else if s.phase.Pruning? {
        PruningDecides(cfg, s, s');
      } else if s.phase.Creating? {
        CreatingDecides(cfg, s, s');
      } else {
        DecideNotReady(cfg, s, s');
        WritingDecides(cfg, s, s');
      }
    }
  }

  lemma DecideNotReady(cfg: Config, s: Sys, s': Sys)
    requires Decide(cfg, s, s')
    ensures !s.phase.Ready? && !s.phase.Down?
  {}

  lemma DecideSameFiles(cfg: Config, s: Sys, s': Sys)
    requires Decide(cfg, s, s') && !s.phase.Syncing?
    ensures SameFiles(s, s')
  {
    hide ReservePlan, ValidLen, Found;
  }

  lemma AppendCallKeepsStorage(cfg: Config, s: Sys, s': Sys)
    requires StorageInv(s) && AppendCall(cfg, s, s')
    ensures StorageInv(s')
  {
    hide Core, NumbersInv;
    AppendCallKeeps(cfg, s, s');
    SameFilesOk(s, s');
    AppendCallPhase(cfg, s, s') by { KeepsOneInode(s); }
  }

  lemma KeepsOneInode(s: Sys)
    requires Core(s)
    ensures OneInode(s)
  {}

  lemma AppendCallPhase(cfg: Config, s: Sys, s': Sys)
    requires WellFormed(s.fs) && OneInode(s) && PhaseOk(s) && AppendCall(cfg, s, s')
    ensures PhaseOk(s')
  {
    var w := s.phase.w;
    if s'.phase.Rotating? {
      ClosedOk(s, w);
      SameFilesOpenOk(s, s', w.(active := None));
      hide OpenOk;
    } else {
      SameFilesOpenOk(s, s', w);
      hide OpenOk;
    }
  }

  /** Closing the active file leaves the appender good, since that file is settled. */
  lemma ClosedOk(s: Sys, w: Writer)
    requires WellFormed(s.fs) && OneInode(s) && OpenOk(s, w) && Resting(s, w) && !w.poisoned
    ensures OpenOk(s, w.(active := None))
  {
    if w.active.Some? {
      var n := w.active.value.number;
      forall i: Ino | Holds(s.fs, n, i) ensures i == s.fs.dir[Segment(n)] {
        assert Holds(s.fs, n, s.fs.dir[Segment(n)]);
      }
    }
  }

  lemma StepKeepsStorage(cfg: Config, s: Sys, s': Sys)
    requires StorageInv(s) && Next(cfg, s, s')
    ensures StorageInv(s')
  {
    hide StorageInv, Call, Fault, Exit, PowerLoss, Decide, OpenCall, AppendCall;
    if Call(s, s') {
      CallKeepsStorage(s, s');
    } else if Fault(s, s') || Exit(s, s') || PowerLoss(s, s') {
      InterruptKeepsStorage(s, s');
    } else if OpenCall(cfg, s, s') {
      OpenCallKeepsStorage(cfg, s, s');
    } else if AppendCall(cfg, s, s') {
      AppendCallKeepsStorage(cfg, s, s');
    } else {
      DecideKeepsStorage(cfg, s, s');
    }
  }

  lemma OpenCallKeepsStorage(cfg: Config, s: Sys, s': Sys)
    requires StorageInv(s) && OpenCall(cfg, s, s')
    ensures StorageInv(s')
  {
    hide Core, NumbersInv, OpenPlan;
    OpenCallKeeps(cfg, s, s');
    SameFilesOk(s, s');
  }

  lemma InitStorageHolds(s: Sys)
    requires InitStorage(s)
    ensures StorageInv(s)
  {
    InitHolds(s);
    InitCore(s);
    hide NumbersInv, Core;
  }

  lemma InitCore(s: Sys)
    requires InitStorage(s)
    ensures Core(s)
  {
    forall n: nat, i: Ino | Holds(s.fs, n, i) ensures n in s.hist && s.fs.dir[Segment(n)] == i {
      assert n in Found(s.fs);
    }
    forall n | n in s.hist ensures Segment(n) in s.fs.dir {
      assert n in Found(s.fs);
    }
  }

  lemma {:induction false} StorageHolds(run: seq<Sys>, k: nat)
    requires Run(run) && InitStorage(run[0]) && k < |run|
    ensures StorageInv(run[k])
  {
    hide StorageInv, Next, Init, InitStorage;
    if k == 0 {
      InitStorageHolds(run[0]);
    } else {
      StorageHolds(run, k - 1);
      assert Advances(run[k - 1], run[k]);
      var cfg :| Next(cfg, run[k - 1], run[k]);
      StepKeepsStorage(cfg, run[k - 1], run[k]);
    }
  }
}
