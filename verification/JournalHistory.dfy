/** What the journal promises its users over every run: durability, bounds, and stable coordinates. */
module JournalHistory {
  import opened FileSystem
  import opened CrashViews
  import opened Procedures
  import opened ReservationSafety
  import opened Journal
  import opened JournalNumbers
  import opened JournalSegments
  import opened JournalStorage
  import opened JournalStorageSteps

  /** The record of the past is only ever extended. */
  ghost predicate Extends(s: Sys, s': Sys)
  {
    && (forall n | n in s.hist :: n in s'.hist && s.hist[n] <= s'.hist[n])
    && (forall n | n in s.acked :: n in s'.acked && s.acked[n] <= s'.acked[n])
    && s.pruned <= s'.pruned
  }

  lemma CalledExtends(s: Sys, d: Cmd)
    requires StorageInv(s) && Begun(s, d)
    ensures Extends(s, Called(s, d))
  {
    hide Inv, Safe, Published, Core, OpenOk;
    if d.Create? && d.name.Segment? {
      assert !MetadataCmd(d) && !SegmentCmd(d);
      assert s.phase.Creating?;
      CoreKeys(s);
    } else if d.Write? && d.name.Segment? {
      assert !MetadataCmd(d);
      assert s.phase.Writing?;
    }
  }

  lemma CoreKeys(s: Sys)
    requires Core(s)
    ensures s.hist.Keys == s.acked.Keys
  {}

  lemma StoppedExtends(s: Sys, m: Sys)
    requires StorageInv(s) && Stopped(s, m)
    ensures Extends(s, m)
  {
    hide StorageInv, Called;
    if m != s {
      var c := s.todo[0];
      var d := if m == Called(s, c) then c else
        var k: nat :| k <= |c.text| && m == Called(s, Write(c.name, c.text[..k])); Write(c.name, c.text[..k]);
      CalledExtends(s, d);
    }
  }

  lemma StepExtends(cfg: Config, s: Sys, s': Sys)
    requires StorageInv(s) && Next(cfg, s, s')
    ensures Extends(s, s')
  {
    hide StorageInv, Call, Fault, Exit, PowerLoss, Decide, OpenCall, AppendCall, Extends;
    if Call(s, s') {
      CallExtends(s, s');
    } else if Fault(s, s') || Exit(s, s') || PowerLoss(s, s') {
      InterruptExtends(s, s');
    } else if OpenCall(cfg, s, s') || AppendCall(cfg, s, s') {
      StartExtends(cfg, s, s');
    } else {
      DecideExtends(cfg, s, s');
    }
  }

  lemma CallExtends(s: Sys, s': Sys)
    requires StorageInv(s) && Call(s, s')
    ensures Extends(s, s')
  {
    hide StorageInv;
    CalledExtends(s, s.todo[0]);
  }

  lemma InterruptExtends(s: Sys, s': Sys)
    requires StorageInv(s) && (Fault(s, s') || Exit(s, s') || PowerLoss(s, s'))
    ensures Extends(s, s')
  {
    hide StorageInv, Stopped;
    if Fault(s, s') {
      var m :| Stopped(s, m) && s' == m.(todo := ErrorCalls(s.phase), phase := AfterError(s.phase));
      StoppedExtends(s, m);
    } else if Exit(s, s') {
      var m :| Stopped(s, m) && s' == m.(todo := [], phase := Down);
      StoppedExtends(s, m);
    } else {
      var m :| Stopped(s, m) && Crash(m.fs, s'.fs) && s' == m.(fs := s'.fs, todo := [], phase := Down);
      StoppedExtends(s, m);
    }
  }

  lemma StartExtends(cfg: Config, s: Sys, s': Sys)
    requires OpenCall(cfg, s, s') || AppendCall(cfg, s, s')
    ensures Extends(s, s')
  {}

  lemma DecideExtends(cfg: Config, s: Sys, s': Sys)
    requires StorageInv(s) && Decide(cfg, s, s')
    ensures Extends(s, s')
  {
    hide Core, NumbersInv;
    if s.phase.Syncing? {
    } else {
      DecideSameFiles(cfg, s, s');
    }
  }

  lemma {:induction false} RunExtends(run: seq<Sys>, i: nat, j: nat)
    requires Run(run) && InitStorage(run[0]) && i <= j < |run|
    ensures Extends(run[i], run[j])
    decreases j - i
  {
    hide Next, Init, InitStorage, StorageInv;
    if i < j {
      RunExtends(run, i, j - 1);
      StorageHolds(run, j - 1);
      assert Advances(run[j - 1], run[j]);
      var cfg :| Next(cfg, run[j - 1], run[j]);
      StepExtends(cfg, run[j - 1], run[j]);
    }
  }

  /** The bytes of a segment, as a reader finds them. */
  function Content(fs: Fs, n: nat): Bytes
    requires WellFormed(fs) && Segment(n) in fs.dir
  {
    FileOf(fs, Segment(n)).bytes
  }

  /** `cursor_is_valid` */
  predicate CursorValid(fs: Fs, n: nat, offset: nat)
    requires WellFormed(fs)
  {
    && Segment(n) in fs.dir
    && offset <= |Content(fs, n)|
    && EndsLine(Content(fs, n)[..offset])
  }

  lemma ContentOfHist(s: Sys, n: nat)
    requires StorageInv(s) && Segment(n) in s.fs.dir
    ensures n in s.hist && n in s.acked && Content(s.fs, n) <= s.hist[n]
    ensures s.acked[n] <= |Content(s.fs, n)|
  {
    hide NumbersInv, PhaseOk;
    var i := s.fs.dir[Segment(n)];
    assert Holds(s.fs, n, i);
    var f := s.fs.files[i];
    assert f.bytes <= Reach(f);
  }

  /**
   Coordinate stability: bytes in front of a position that a later reader accepts are the bytes that were
   there when the position was handed out, through appends, failed writes, truncation, crashes, repair
   and reopening.
   */
  lemma CursorStable(run: seq<Sys>, i: nat, j: nat, n: nat, offset: nat)
    requires Run(run) && InitStorage(run[0]) && i <= j < |run|
    requires WellFormed(run[i].fs) && CursorValid(run[i].fs, n, offset)
    requires WellFormed(run[j].fs) && CursorValid(run[j].fs, n, offset)
    ensures Content(run[i].fs, n)[..offset] == Content(run[j].fs, n)[..offset]
  {
    hide StorageInv;
    StorageHolds(run, i);
    StorageHolds(run, j);
    RunExtends(run, i, j);
    ContentOfHist(run[i], n);
    ContentOfHist(run[j], n);
  }

  /** What an append acknowledged is in its segment at every later moment until the segment is pruned. */
  lemma AcknowledgedStays(run: seq<Sys>, i: nat, j: nat, n: nat)
    requires Run(run) && InitStorage(run[0]) && i <= j < |run|
    requires Acknowledged(run[i], n) && n !in run[j].pruned
    ensures n in run[i].hist && WellFormed(run[j].fs) && Segment(n) in run[j].fs.dir
    ensures run[i].acked[n] <= |run[i].hist[n]|
    ensures run[i].hist[n][..run[i].acked[n]] <= Content(run[j].fs, n)
  {
    hide StorageInv;
    StorageHolds(run, i);
    StorageHolds(run, j);
    RunExtends(run, i, j);
    AcknowledgedThere(run[i], n);
    AcknowledgedThere(run[j], n);
    ContentOfHist(run[j], n);
  }

  lemma AcknowledgedThere(s: Sys, n: nat)
    requires StorageInv(s) && Acknowledged(s, n)
    ensures WellFormed(s.fs) && n in s.hist && s.acked[n] <= |s.hist[n]|
    ensures n !in s.pruned ==> Segment(n) in s.fs.dir
  {
    hide NumbersInv, PhaseOk;
  }
}
