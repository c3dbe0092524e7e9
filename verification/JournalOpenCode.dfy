/** `RollingFileAppender::open` in the source's form: reservation, limits, repair, seal. */
module JournalOpenCode {
  import opened Wrappers
  import opened FileSystem
  import opened Reservation
  import opened ReservationSafety
  import opened ReservationOpen
  import opened Journal
  import opened JournalNumbers
  import opened DirectoryCode
  import opened ReservationCode
  import opened JournalPaths
  import opened JournalCode

  /** The greatest number of a map of segments. */
  method LastOf(segments: set<nat>) returns (last: Option<nat>)
    ensures last.None? <==> segments == {}
    ensures last.Some? ==> last.value in segments && forall n | n in segments :: n <= last.value
  {
    last := None;
    var left := segments;
    while left != {}
      invariant left <= segments
      invariant last.None? <==> left == segments
      invariant last.Some? ==> last.value in segments && forall n | n in segments && n !in left :: n <= last.value
      decreases left
    {
      var n :| n in left;
      left := left - {n};
      if last.None? || last.value < n { last := Some(n); }
    }
  }

  lemma LastIsLast(fs: Fs, last: Option<nat>)
    requires last.None? <==> Found(fs) == {}
    requires last.Some? ==> last.value in Found(fs) && forall n | n in Found(fs) :: n <= last.value
    ensures IsLast(fs, last)
  {
    forall n: nat | Segment(n) in fs.dir ensures n in Found(fs) {}
  }

  // ----- the reservation leaves the segments alone -----

  lemma MetadataFound(fs: Fs, c: Cmd)
    requires WellFormed(fs) && Enabled(fs, c) && MetadataCmd(c)
    ensures Found(Exec(fs, c)) == Found(fs)
  {
    var fs' := Exec(fs, c);
    forall n: nat ensures Segment(n) in fs'.dir <==> Segment(n) in fs.dir {}
    forall n: nat ensures n in Found(fs') <==> n in Found(fs) {}
  }

  /** No segment has moved or changed. */
  ghost predicate SameSegments(fs: Fs, fs': Fs)
  {
    && |fs.files| <= |fs'.files| && (forall i | 0 <= i < |fs.files| :: fs'.files[i].bytes == fs.files[i].bytes)
    && forall n: nat :: Lookup(fs', Segment(n)) == Lookup(fs, Segment(n))
  }

  /** Only files that were just created are written to. */
  predicate WritesNew(cmds: seq<Cmd>)
  {
    forall i | 0 <= i < |cmds| && cmds[i].Write? :: i > 0 && cmds[i - 1] == Create(cmds[i].name)
  }

  lemma NewAndNew(a: seq<Cmd>, b: seq<Cmd>)
    requires WritesNew(a) && WritesNew(b)
    ensures WritesNew(a + b)
  {
    forall i | 0 <= i < |a + b| && (a + b)[i].Write? ensures i > 0 && (a + b)[i - 1] == Create((a + b)[i].name) {
      if i >= |a| { assert b[i - |a|].Write?; }
    }
  }

  lemma MarkerWritesNew(fs: Fs)
    requires WellFormed(fs)
    ensures WritesNew(EnsureMarker(fs)) && WritesNew(Reservation.PublishPending) && WritesNew(Reservation.ReplaceWithPending)
  {}

  lemma PendingWritesNew(fs: Fs, done: seq<Cmd>, next: nat, last: Option<nat>)
    requires WellFormed(fs) && WritesNew(done)
    ensures WritesNew(OpenPending(fs, done, next, last).cmds)
  {
    hide EnsureMarker;
    MarkerWritesNew(fs);
    NewAndNew(done, Reservation.PublishPending);
    NewAndNew(done + Reservation.PublishPending, EnsureMarker(fs));
  }

  lemma DerivedWritesNew(fs: Fs, done: seq<Cmd>, last: Option<nat>)
    requires WellFormed(fs) && WritesNew(done)
    ensures WritesNew(OpenDerived(fs, done, last).cmds)
  {
    hide OpenPending;
    if NextAfter(last).Ok? {
      var next := NextAfter(last).value;
      NewAndNew(done, WritePending(next));
      PendingWritesNew(fs, done + WritePending(next), next, last);
    }
  }

  lemma PublishedWritesNew(fs: Fs, next: nat, last: Option<nat>)
    requires WellFormed(fs) && NextSegment in fs.dir
    ensures WritesNew(OpenPublished(fs, next, last).cmds)
  {
    hide EnsureMarker;
    MarkerWritesNew(fs);
    NewAndNew(FinishPublication, EnsureMarker(fs));
    NewAndNew([Fsync(NextSegmentPending)], Reservation.ReplaceWithPending);
    NewAndNew([Fsync(NextSegmentPending)] + Reservation.ReplaceWithPending, EnsureMarker(fs));
    NewAndNew(DropPending, EnsureMarker(fs));
  }

  lemma OpenWritesNew(fs: Fs, last: Option<nat>)
    requires WellFormed(fs)
    ensures WritesNew(OpenPlan(fs, last).cmds)
  {
    hide OpenPublished, OpenPending, OpenDerived, EnsureMarker;
    var seen := if ReservationMarker in fs.dir then CheckMarker else [];
    match ReadAnyLinks(fs, NextSegment)
    case Invalid =>
    case Value(next) => PublishedWritesNew(fs, next, last);
    case NotFound =>
      match ReadSingle(fs, NextSegmentPending)
      case Value(next) => PendingWritesNew(fs, seen + [Fsync(NextSegmentPending)], next, last);
      case NotFound => DerivedWritesNew(fs, seen, last);
      case Invalid => DerivedWritesNew(fs, seen + DropPending, last);
  }

  lemma OneKeepsSegments(fs: Fs, c: Cmd)
    requires WellFormed(fs) && Enabled(fs, c) && MetadataCmd(c) && !c.Write?
    ensures SameSegments(fs, Exec(fs, c))
  {}

  lemma WriteKeepsSegments(fs: Fs, n: Name, text: Bytes)
    requires WellFormed(fs) && !n.Segment? && Enabled(fs, Create(n)) && Enabled(Exec(fs, Create(n)), Write(n, text))
    ensures SameSegments(fs, Exec(Exec(fs, Create(n)), Write(n, text)))
  {}

  lemma {:induction false} PlanKeepsSegments(fs: Fs, cmds: seq<Cmd>)
    requires WellFormed(fs) && AllEnabled(fs, cmds) && AllMetadata(cmds) && WritesNew(cmds)
    ensures SameSegments(fs, ExecAll(fs, cmds))
    decreases |cmds|
  {
    hide Exec, SameSegments, Enabled;
    if cmds == [] {
      SegmentsStay(fs);
    } else {
      assert !cmds[0].Write?;
      if |cmds| > 1 && cmds[1].Write? {
        var c, w := cmds[0], cmds[1];
        assert w.name == c.name;
        WriteKeepsSegments(fs, c.name, w.text);
        assert cmds[1..][1..] == cmds[2..];
        PlanKeepsSegments(Exec(Exec(fs, c), w), cmds[2..]);
        assert ExecAll(fs, cmds) == ExecAll(Exec(fs, c), cmds[1..]) == ExecAll(Exec(Exec(fs, c), w), cmds[2..]);
        SegmentsStill(fs, Exec(Exec(fs, c), w), ExecAll(fs, cmds));
      } else {
        OneKeepsSegments(fs, cmds[0]);
        PlanKeepsSegments(Exec(fs, cmds[0]), cmds[1..]);
        SegmentsStill(fs, Exec(fs, cmds[0]), ExecAll(fs, cmds));
      }
    }
  }

  lemma SegmentsStay(fs: Fs)
    ensures SameSegments(fs, fs)
  {}

  lemma SegmentsStill(fs: Fs, mid: Fs, fs': Fs)
    requires SameSegments(fs, mid) && SameSegments(mid, fs')
    ensures SameSegments(fs, fs')
  {}

  lemma {:induction false} PlanFound(fs: Fs, cmds: seq<Cmd>)
    requires WellFormed(fs) && AllEnabled(fs, cmds) && AllMetadata(cmds)
    ensures Found(ExecAll(fs, cmds)) == Found(fs)
    decreases |cmds|
  {
    if cmds != [] {
      MetadataFound(fs, cmds[0]);
      PlanFound(Exec(fs, cmds[0]), cmds[1..]);
    }
  }

  /** The machine's way through the reservation of an open. */
  lemma OpenPath(cfg: Config, s: Sys, last: Option<nat>, r: Result<nat, OpenError>, fs': Fs) returns (s': Sys)
    requires ValidConfig(cfg) && WellFormed(s.fs) && s.todo == [] && s.phase.Down? && IsLast(s.fs, last)
    requires Follows(s.fs, OpenPlan(s.fs, last), r, fs')
    ensures s'.fs == fs' && WellFormed(fs') && Leads(cfg, s, s') && s'.todo == []
    ensures r.Ok? ==> s'.phase == Cleaning(r.value, Found(fs')) && Found(fs') == Found(s.fs)
    ensures r.Err? ==> s'.phase == Down
  {
    hide Leads, OpenPlan;
    var plan := OpenPlan(s.fs, last);
    var m := s.(phase := Opening(plan.outcome), todo := plan.cmds);
    Stay(cfg, s);
    assert OpenCall(cfg, s, m);
    Then(cfg, s, s, m);
    if r == Err(Io) {
      var n: nat :| InterruptedAt(s.fs, plan.cmds, fs', n);
      s' := InterruptLeads(cfg, s, m, fs', n);
      InterruptedWellFormed(s.fs, plan.cmds, fs', n);
    } else {
      assert plan.cmds[..|plan.cmds|] == plan.cmds;
      CallsLead(cfg, s, m);
      var done := AllCalled(m);
      OpenPlanIsMetadata(s.fs, last);
      PlanFound(s.fs, plan.cmds);
      s' := if r.Ok? then done.(phase := Cleaning(r.value, Found(done.fs)), established := true) else done.(phase := Down);
      assert Decide(cfg, done, s');
      Then(cfg, s, done, s');
    }
  }

  // ----- decisions of the machine, spelled out -----

  ghost predicate OversizedSet(cfg: Config, fs: Fs, kept: set<nat>, big: set<nat>)
    requires WellFormed(fs)
  {
    big <= kept && forall n | n in kept :: n in big <==> Oversized(cfg, fs, n)
  }

  lemma DropDecision(cfg: Config, s: Sys, next: nat, kept: set<nat>, n: nat)
    requires WellFormed(s.fs) && s.todo == [] && s.phase == Cleaning(next, kept) && n in kept
    requires Oversized(cfg, s.fs, n)
             || ((forall m | m in kept :: !Oversized(cfg, s.fs, m)) && |kept| > cfg.maxFiles && Oldest(kept, n))
    ensures Next(cfg, s, s.(phase := Dropping(next, kept, n), todo := Drop(n)))
  {
    hide Oversized;
    assert Decide(cfg, s, s.(phase := Dropping(next, kept, n), todo := Drop(n)));
  }

  lemma DroppedDecision(cfg: Config, s: Sys, next: nat, kept: set<nat>, n: nat)
    requires WellFormed(s.fs) && s.todo == [] && s.phase == Dropping(next, kept, n)
    ensures Next(cfg, s, s.(phase := Cleaning(next, kept - {n}), todo := []))
  {
    assert s.(phase := Cleaning(next, kept - {n}), todo := []) == s.(phase := Cleaning(next, kept - {n}));
    assert Decide(cfg, s, s.(phase := Cleaning(next, kept - {n})));
  }

  lemma RepairDecision(cfg: Config, s: Sys, next: nat, kept: set<nat>, cmds: seq<Cmd>)
    requires WellFormed(s.fs) && s.todo == [] && s.phase == Cleaning(next, kept) && |kept| <= cfg.maxFiles
    requires (forall m | m in kept :: !Oversized(cfg, s.fs, m)) && Repairs(s.fs, kept, cmds)
    ensures Next(cfg, s, s.(phase := Repairing(next, kept), todo := cmds))
  {
    hide Oversized, Repairs;
    assert Decide(cfg, s, s.(phase := Repairing(next, kept), todo := cmds));
  }

  lemma SealDecision(cfg: Config, s: Sys, next: nat, kept: set<nat>, left: set<nat>, n: nat)
    requires WellFormed(s.fs) && s.todo == []
    ensures s.phase == Repairing(next, kept) ==> Next(cfg, s, s.(phase := Sealing(next, kept, kept), todo := []))
    ensures s.phase == Sealing(next, kept, left) && n in left ==>
              Next(cfg, s, s.(phase := Sealing(next, kept, left - {n}), todo := [Fsync(Segment(n))]))
    ensures s.phase == Sealing(next, kept, {}) ==> Next(cfg, s, s.(phase := Finishing(next, kept), todo := [SyncDir]))
    ensures s.phase == Finishing(next, kept) ==> Next(cfg, s, s.(phase := Ready(Writer(next, kept, None, false)), todo := []))
  {
    if s.phase == Repairing(next, kept) {
      assert Decide(cfg, s, s.(phase := Sealing(next, kept, kept), todo := []));
    }
    if s.phase == Sealing(next, kept, left) && n in left {
      assert Decide(cfg, s, s.(phase := Sealing(next, kept, left - {n}), todo := [Fsync(Segment(n))]));
    }
    if s.phase == Sealing(next, kept, {}) {
      assert Decide(cfg, s, s.(phase := Finishing(next, kept), todo := [SyncDir]));
    }
    if s.phase == Finishing(next, kept) {
      assert Decide(cfg, s, s.(phase := Ready(Writer(next, kept, None, false)), todo := []));
    }
  }

  // ----- the parts of open -----

  lemma OversizedAfterDrop(cfg: Config, fs: Fs, n: nat, m: nat)
    requires WellFormed(fs) && Enabled(fs, Unlink(Segment(n))) && m != n
    ensures Oversized(cfg, Exec(Exec(fs, Unlink(Segment(n))), SyncDir), m) <==> Oversized(cfg, fs, m)
    ensures Segment(m) in Exec(Exec(fs, Unlink(Segment(n))), SyncDir).dir <==> Segment(m) in fs.dir
  {}

  /** One removal: unlink and directory sync. */
  method DropSegment(driver: Driver, next: nat, kept: set<nat>, n: nat, ghost start: Sys) returns (ok: bool)
    requires driver.In(start, Cleaning(next, kept), []) && n in kept && WellFormed(driver.dir.fs)
             && AllThere(driver.dir.fs, kept)
    requires Oversized(driver.cfg, driver.dir.fs, n)
             || ((forall m | m in kept :: !Oversized(driver.cfg, driver.dir.fs, m)) && |kept| > driver.cfg.maxFiles
                 && Oldest(kept, n))
    modifies driver, driver.dir
    ensures WellFormed(driver.dir.fs)
    ensures ok ==> driver.In(start, Cleaning(next, kept - {n}), []) && AllThere(driver.dir.fs, kept - {n})
                   && forall m | m in kept && m != n ::
                        Oversized(driver.cfg, driver.dir.fs, m) <==> Oversized(driver.cfg, old(driver.dir.fs), m)
    ensures !ok ==> driver.In(start, Down, [])
    ensures driver.dir.faults == old(driver.dir.faults) + (if ok then 0 else 1)
  {
    hide Leads, Next, Exec, WellFormed, Oversized, Driver.In;
    ghost var fs := driver.dir.fs;
    driver.Knows(start, Cleaning(next, kept), []);
    DropDecision(driver.cfg, driver.sys, next, kept, n);
    driver.Decided(start, Cleaning(next, kept), Dropping(next, kept, n), Drop(n));
    assert Drop(n) == [Unlink(Segment(n))] + [SyncDir] && [SyncDir] == [SyncDir] + [];
    ok := driver.Issue(Unlink(Segment(n)), start, Dropping(next, kept, n), [SyncDir]);
    if !ok { return; }
    ok := driver.Issue(SyncDir, start, Dropping(next, kept, n), []);
    if !ok { return; }
    forall m: nat | m in kept && m != n
      ensures Oversized(driver.cfg, driver.dir.fs, m) <==> Oversized(driver.cfg, fs, m)
      ensures Segment(m) in driver.dir.fs.dir
    {
      OversizedAfterDrop(driver.cfg, fs, n, m);
    }
    driver.Knows(start, Dropping(next, kept, n), []);
    DroppedDecision(driver.cfg, driver.sys, next, kept, n);
    driver.Decided(start, Dropping(next, kept, n), Cleaning(next, kept - {n}), []);
  }

  method FindOversized(cfg: Config, dir: Directory, segments: set<nat>) returns (big: set<nat>)
    requires WellFormed(dir.fs)
    ensures OversizedSet(cfg, dir.fs, segments, big)
  {
    big := set n | n in segments && Segment(n) in dir.fs.dir && |FileOf(dir.fs, Segment(n)).bytes| > cfg.maxFileBytes;
  }

  /** `remove_oversized` */
  method RemoveOversized(driver: Driver, next: nat, segments: set<nat>, ghost start: Sys) returns (ok: bool, kept: set<nat>)
    requires driver.In(start, Cleaning(next, segments), []) && WellFormed(driver.dir.fs) && AllThere(driver.dir.fs, segments)
    modifies driver, driver.dir
    ensures WellFormed(driver.dir.fs) && kept <= segments
    ensures ok ==> driver.In(start, Cleaning(next, kept), []) && AllThere(driver.dir.fs, kept)
                   && forall n | n in kept :: !Oversized(driver.cfg, driver.dir.fs, n)
    ensures ok ==> forall n | n in segments :: n in kept <==> !Oversized(driver.cfg, old(driver.dir.fs), n)
    ensures !ok ==> driver.In(start, Down, [])
    ensures driver.dir.faults == old(driver.dir.faults) + (if ok then 0 else 1)
  {
    hide Leads, Next, WellFormed, Oversized, Driver.In, Exec;
    kept, ok := segments, true;
    var oversized := FindOversized(driver.cfg, driver.dir, segments);
    ghost var big := oversized;
    while oversized != {}
      invariant driver.In(start, Cleaning(next, kept), []) && WellFormed(driver.dir.fs) && kept <= segments
      invariant AllThere(driver.dir.fs, kept)
      invariant OversizedSet(driver.cfg, driver.dir.fs, kept, oversized)
      invariant kept == segments - (big - oversized) && driver.dir.faults == old(driver.dir.faults)
      decreases oversized
    {
      var n :| n in oversized;
      ok := DropSegment(driver, next, kept, n, start);
      if !ok { return; }
      kept, oversized := kept - {n}, oversized - {n};
    }
  }

  /** The oldest segments go until the limit on files is met. */
  method RemoveSurplus(driver: Driver, next: nat, segments: set<nat>, ghost start: Sys) returns (ok: bool, kept: set<nat>)
    requires driver.In(start, Cleaning(next, segments), []) && WellFormed(driver.dir.fs) && AllThere(driver.dir.fs, segments)
    requires forall n | n in segments :: !Oversized(driver.cfg, driver.dir.fs, n)
    modifies driver, driver.dir
    ensures WellFormed(driver.dir.fs) && kept <= segments
    ensures ok ==> driver.In(start, Cleaning(next, kept), []) && AllThere(driver.dir.fs, kept) && |kept| <= driver.cfg.maxFiles
                   && (forall n | n in kept :: !Oversized(driver.cfg, driver.dir.fs, n))
    ensures ok ==> NewestOf(segments, kept)
    ensures ok ==> |kept| == if |segments| <= driver.cfg.maxFiles then |segments| else driver.cfg.maxFiles
    ensures !ok ==> driver.In(start, Down, [])
    ensures driver.dir.faults == old(driver.dir.faults) + (if ok then 0 else 1)
  {
    hide Leads, Next, WellFormed, Oversized, Driver.In;
    kept, ok := segments, true;
    while |kept| > driver.cfg.maxFiles
      invariant driver.In(start, Cleaning(next, kept), []) && WellFormed(driver.dir.fs) && kept <= segments
      invariant AllThere(driver.dir.fs, kept)
      invariant forall n | n in kept :: !Oversized(driver.cfg, driver.dir.fs, n)
      invariant NewestOf(segments, kept) && driver.dir.faults == old(driver.dir.faults)
      invariant if |segments| <= driver.cfg.maxFiles then kept == segments else |kept| >= driver.cfg.maxFiles
      decreases kept
    {
      OldestExists(kept);
      var n :| n in kept && forall m | m in kept :: n <= m;
      assert Oldest(kept, n);
      ok := DropSegment(driver, next, kept, n, start);
      if !ok { return; }
      kept := kept - {n};
    }
  }

  /** The length up to and including the last newline. */
  method LastNewline(b: Bytes) returns (n: nat)
    ensures n == ValidLen(b)
  {
    n := |b|;
    while n > 0 && b[n - 1] != '\n'
      invariant n <= |b| && forall k | n < k <= |b| :: !EndsLine(b[..k])
    {
      n := n - 1;
    }
    assert EndsLine(b[..n]);
  }

  /** `repair_tail` of the last segment */
  method RepairTail(driver: Driver, next: nat, kept: set<nat>, ghost start: Sys) returns (ok: bool)
    requires driver.In(start, Cleaning(next, kept), []) && WellFormed(driver.dir.fs) && |kept| <= driver.cfg.maxFiles
    requires forall n | n in kept :: !Oversized(driver.cfg, driver.dir.fs, n) && Segment(n) in driver.dir.fs.dir
    modifies driver, driver.dir
    ensures WellFormed(driver.dir.fs)
    ensures ok ==> driver.In(start, Repairing(next, kept), [])
    ensures !ok ==> driver.In(start, Down, [])
    ensures driver.dir.faults == old(driver.dir.faults) + (if ok then 0 else 1)
  {
    hide Leads, Next, Exec, WellFormed, Oversized, Driver.In, ValidLen;
    ok := true;
    var last := LastOf(kept);
    driver.Knows(start, Cleaning(next, kept), []);
    if last.None? {
      RepairDecision(driver.cfg, driver.sys, next, kept, []);
      driver.Decided(start, Cleaning(next, kept), Repairing(next, kept), []);
      return;
    }
    var n := last.value;
    var bytes := FileOf(driver.dir.fs, Segment(n)).bytes;
    var valid := LastNewline(bytes);
    var cmds := if valid == |bytes| then [] else [SetLen(Segment(n), valid), Fsync(Segment(n))];
    assert Repairs(driver.dir.fs, kept, cmds);
    RepairDecision(driver.cfg, driver.sys, next, kept, cmds);
    driver.Decided(start, Cleaning(next, kept), Repairing(next, kept), cmds);
    if valid != |bytes| {
      assert cmds == [SetLen(Segment(n), valid)] + [Fsync(Segment(n))] && [Fsync(Segment(n))] == [Fsync(Segment(n))] + [];
      ok := driver.Issue(SetLen(Segment(n), valid), start, Repairing(next, kept), [Fsync(Segment(n))]);
      if !ok { return; }
      ok := driver.Issue(Fsync(Segment(n)), start, Repairing(next, kept), []);
    }
  }

  /** Every kept segment is sealed, then the directory is synced. */
  method SealAll(driver: Driver, next: nat, kept: set<nat>, ghost start: Sys) returns (ok: bool)
    requires driver.In(start, Repairing(next, kept), [])
    modifies driver, driver.dir
    ensures ok ==> driver.In(start, Ready(Writer(next, kept, None, false)), [])
    ensures !ok ==> driver.In(start, Down, [])
    ensures driver.dir.faults == old(driver.dir.faults) + (if ok then 0 else 1)
  {
    hide Leads, Next, Exec, WellFormed, Driver.In;
    var left := kept;
    driver.Knows(start, Repairing(next, kept), []);
    SealDecision(driver.cfg, driver.sys, next, kept, kept, 0);
    driver.Decided(start, Repairing(next, kept), Sealing(next, kept, kept), []);
    while left != {}
      invariant driver.In(start, Sealing(next, kept, left), []) && left <= kept
      invariant driver.dir.faults == old(driver.dir.faults)
      decreases left
    {
      var n :| n in left;
      driver.Knows(start, Sealing(next, kept, left), []);
      SealDecision(driver.cfg, driver.sys, next, kept, left, n);
      driver.Decided(start, Sealing(next, kept, left), Sealing(next, kept, left - {n}), [Fsync(Segment(n))]);
      left := left - {n};
      assert [Fsync(Segment(n))] == [Fsync(Segment(n))] + [];
      driver.Knows(start, Sealing(next, kept, left), [Fsync(Segment(n))]);
      ok := driver.Issue(Fsync(Segment(n)), start, Sealing(next, kept, left), []);
      if !ok { return; }
    }
    driver.Knows(start, Sealing(next, kept, {}), []);
    SealDecision(driver.cfg, driver.sys, next, kept, {}, 0);
    driver.Decided(start, Sealing(next, kept, {}), Finishing(next, kept), [SyncDir]);
    assert [SyncDir] == [SyncDir] + [];
    driver.Knows(start, Finishing(next, kept), [SyncDir]);
    ok := driver.Issue(SyncDir, start, Finishing(next, kept), []);
    if !ok { return; }
    driver.Knows(start, Finishing(next, kept), []);
    SealDecision(driver.cfg, driver.sys, next, kept, {}, 0);
    driver.Decided(start, Finishing(next, kept), Ready(Writer(next, kept, None, false)), []);
  }

  /**
   `open`. The marker must not share a file with the reservation names, which no reachable directory has.
   On success the machine is ready with the new appender's fields; on failure it is down again.
   */
  method Open(dir: Directory, cfg: Config, ghost start: Sys) returns (r: Result<RollingFileAppender, OpenError>, ghost end: Sys)
    requires WellFormed(dir.fs) && MarkerApart(dir.fs)
    requires start.fs == dir.fs && start.phase.Down? && start.todo == []
    modifies dir
    ensures WellFormed(dir.fs) && end.fs == dir.fs && Leads(cfg, start, end)
    ensures !ValidConfig(cfg) ==> r == Err(Data(InvalidData)) && end == start
    ensures r.Ok? ==> fresh(r.value) && fresh(r.value.driver) && r.value.driver.dir == dir && r.value.driver.cfg == cfg
    ensures r.Ok? ==> r.value.Valid() && r.value.driver.sys == end && r.value.active.None? && !r.value.poisoned
    ensures r.Ok? ==> Trims(cfg, old(dir.fs), Found(old(dir.fs)), r.value.segments)
    ensures ValidConfig(cfg) && r != Err(Io) ==>
              exists last :: IsLast(old(dir.fs), last)
                && OpenPlan(old(dir.fs), last).outcome == if r.Ok? then Ok(r.value.next) else Err(r.error.f)
    ensures dir.faults == old(dir.faults) + (if r == Err(Io) then 1 else 0)
    ensures r.Err? ==> end.phase.Down? && end.todo == []
  {
    end := start;
    Stay(cfg, start);
    if !ValidConfig(cfg) { return Err(Data(InvalidData)), end; }
    hide Leads, Next, OpenPlan, MarkerApart;
    var segments := Found(dir.fs);
    var last := LastOf(segments);
    LastIsLast(dir.fs, last);
    var reserved := OpenNextSegment(dir, last);
    end := OpenPath(cfg, start, last, reserved, dir.fs);
    if reserved.Err? { return Err(reserved.error), end; }
    ReservedSegments(old(dir.fs), last, reserved, dir.fs);
    ghost var fs := dir.fs;
    var driver := new Driver(dir, cfg, end);
    assert driver.In(start, Cleaning(reserved.value, segments), []);
    assert AllThere(dir.fs, segments);
    r, end := CleanUp(driver, reserved.value, segments, start);
    if r.Ok? { SameTrims(cfg, old(dir.fs), fs, segments, r.value.segments); }
  }

  lemma ReservedSegments(fs: Fs, last: Option<nat>, r: Result<nat, OpenError>, fs': Fs)
    requires WellFormed(fs) && Follows(fs, OpenPlan(fs, last), r, fs') && r.Ok?
    ensures SameSegments(fs, fs')
  {
    var cmds := OpenPlan(fs, last).cmds;
    OpenPlanIsMetadata(fs, last);
    OpenWritesNew(fs, last);
    assert cmds[..|cmds|] == cmds;
    PlanKeepsSegments(fs, cmds);
  }

  /** An open keeps the newest of the segments within the byte limit, as many as are allowed. */
  ghost predicate Trims(cfg: Config, fs: Fs, segments: set<nat>, kept: set<nat>)
    requires WellFormed(fs)
  {
    var small := set n | n in segments && !Oversized(cfg, fs, n);
    NewestOf(small, kept) && |kept| == if |small| <= cfg.maxFiles then |small| else cfg.maxFiles
  }

  lemma SameTrims(cfg: Config, fs: Fs, fs': Fs, segments: set<nat>, kept: set<nat>)
    requires WellFormed(fs) && WellFormed(fs') && SameSegments(fs, fs') && Trims(cfg, fs', segments, kept)
    ensures Trims(cfg, fs, segments, kept)
  {
    forall n: nat ensures Oversized(cfg, fs', n) <==> Oversized(cfg, fs, n) {
      assert Lookup(fs', Segment(n)) == Lookup(fs, Segment(n));
    }
    hide Oversized;
    assert (set n | n in segments && !Oversized(cfg, fs, n)) == set n | n in segments && !Oversized(cfg, fs', n);
  }

  /** The part of `open` behind the reservation. */
  method CleanUp(driver: Driver, next: nat, segments: set<nat>, ghost start: Sys)
    returns (r: Result<RollingFileAppender, OpenError>, ghost end: Sys)
    requires driver.In(start, Cleaning(next, segments), []) && WellFormed(driver.dir.fs) && AllThere(driver.dir.fs, segments)
    requires ValidConfig(driver.cfg)
    modifies driver, driver.dir
    ensures WellFormed(driver.dir.fs) && end.fs == driver.dir.fs && Leads(driver.cfg, start, end)
    ensures r.Ok? ==> fresh(r.value) && r.value.driver == driver && r.value.Valid() && driver.sys == end
    ensures r.Ok? ==> r.value.active.None? && !r.value.poisoned && r.value.next == next
                      && Trims(driver.cfg, old(driver.dir.fs), segments, r.value.segments)
    ensures r.Err? ==> r.error == Io && end.phase.Down? && end.todo == []
    ensures driver.dir.faults == old(driver.dir.faults) + (if r.Ok? then 0 else 1)
  {
    hide Leads, Next, AllThere, Oversized, WellFormed, Driver.In, NewestOf;
    var ok, kept := RemoveOversized(driver, next, segments, start);
    if ok {
      ghost var small := kept;
      ok, kept := RemoveSurplus(driver, next, kept, start);
      if ok {
        assert Trims(driver.cfg, old(driver.dir.fs), segments, kept) by {
          assert small == set n | n in segments && !Oversized(driver.cfg, old(driver.dir.fs), n);
        }
        ok := Settle(driver, next, kept, start);
        if ok {
          driver.Knows(start, Ready(Writer(next, kept, None, false)), []);
          var appender := new RollingFileAppender(driver, next, kept);
          return Ok(appender), driver.sys;
        }
      }
    }
    driver.Knows(start, Down, []);
    r, end := Err(Io), driver.sys;
  }

  method Settle(driver: Driver, next: nat, kept: set<nat>, ghost start: Sys) returns (ok: bool)
    requires driver.In(start, Cleaning(next, kept), []) && WellFormed(driver.dir.fs) && AllThere(driver.dir.fs, kept)
    requires |kept| <= driver.cfg.maxFiles && forall n | n in kept :: !Oversized(driver.cfg, driver.dir.fs, n)
    modifies driver, driver.dir
    ensures ok ==> driver.In(start, Ready(Writer(next, kept, None, false)), [])
    ensures !ok ==> driver.In(start, Down, [])
    ensures driver.dir.faults == old(driver.dir.faults) + (if ok then 0 else 1)
  {
    hide Oversized, WellFormed, Driver.In;
    ok := RepairTail(driver, next, kept, start);
    if ok {
      ok := SealAll(driver, next, kept, start);
    }
  }
}
