/** Segment numbers over every run of the journal: each is created at most once. */
module JournalNumbers {
  import opened Wrappers
  import opened Decimal
  import opened FileSystem
  import opened CrashViews
  import opened Procedures
  import opened Reservation
  import opened ReservationOutcomes
  import opened ReservationSafety
  import opened ReservationOpen
  import opened Journal

  predicate SegmentCmd(c: Cmd)
  {
    match c
    case SyncDir => true
    case Unlink(n) => n.Segment?
    case Write(n, _) => n.Segment?
    case Fsync(n) => n.Segment?
    case SetLen(n, _) => n.Segment?
    case _ => false
  }

  predicate AllMetadata(cs: seq<Cmd>) { forall i | 0 <= i < |cs| :: MetadataCmd(cs[i]) }

  predicate AllSegment(cs: seq<Cmd>) { forall i | 0 <= i < |cs| :: SegmentCmd(cs[i]) }

  ghost function GoalOf(outcome: Result<nat, Failure>): Fs -> bool
  {
    if outcome.Ok? then PublishedAs(outcome.value) else Anything()
  }

  /** What holds of the reservation in each phase. */
  ghost predicate NumbersInv(s: Sys)
  {
    var exposed := s.hist.Keys;
    && WellFormed(s.fs)
    && Inv(s.fs, exposed, s.established)
    && (s.phase.Down? || s.phase.Opening? || s.established)
    && match s.phase
       case Down => s.todo == []
       case Opening(outcome) =>
         AllMetadata(s.todo) && Safe(InvOf(exposed, s.established), GoalOf(outcome), s.fs, s.todo)
       case Reserving(w, _) =>
         && AllMetadata(s.todo) && Ahead(exposed, w.next)
         && Safe(InvOf(exposed, true), PublishedAs(w.next + 1), s.fs, s.todo)
       case Creating(w, _, n) =>
         if |s.todo| < 2 then AllSegment(s.todo)
         else s.todo == [Create(Segment(n)), SyncDir] && Ahead(exposed, n) && Published(s.fs, n + 1)
       case _ => AllSegment(s.todo)
  }

  // ----- calls on segments -----

  lemma SegmentCmdKeeps(fs: Fs, c: Cmd, exposed: set<nat>)
    requires Inv(fs, exposed, true) && SegmentCmd(c) && Enabled(fs, c)
    ensures Inv(Exec(fs, c), exposed, true)
  {
    var fs' := Exec(fs, c);
    if c.SyncDir? {
      SyncKeeps(fs, c, exposed, true);
    } else {
      MetadataUntouched(fs, c, NextSegment);
      MetadataUntouched(fs, c, NextSegmentPending);
      MetadataUntouched(fs, c, ReservationMarker);
      forall n, i | May(fs', n, Some(i)) ensures May(fs, n, Some(i)) {}
      NarrowSound(SlotOf(fs, NextSegment), SlotOf(fs, NextSegmentPending), SlotOf(fs, ReservationMarker),
                  SlotOf(fs', NextSegment), SlotOf(fs', NextSegmentPending), SlotOf(fs', ReservationMarker), exposed, true);
    }
  }

  lemma MetadataUntouched(fs: Fs, c: Cmd, n: Name)
    requires WellFormed(fs) && Unshared(fs) && SegmentCmd(c) && !c.SyncDir? && Enabled(fs, c) && !n.Segment?
    ensures Narrower(SlotOf(Exec(fs, c), n), SlotOf(fs, n))
  {
    match c
    case Unlink(at) => UnlinkSlot(fs, at, n);
    case Write(at, text) =>
      assert May(fs, at, Some(fs.dir[at]));
      FileSlotElsewhere(fs, fs.dir[at], WriteFile(FileOf(fs, at), text), n);
    case Fsync(at) => FsyncSlot(fs, at, n);
    case SetLen(at, len) =>
      assert May(fs, at, Some(fs.dir[at]));
      FileSlotElsewhere(fs, fs.dir[at], TruncateFile(FileOf(fs, at), len), n);
  }

  lemma NumberSpent(fs: Fs, n: nat, exposed: set<nat>)
    requires Inv(fs, exposed, true) && Published(fs, n + 1) && Ahead(exposed, n)
    ensures Inv(fs, exposed + {n}, true)
  {
    var f, p, m := SlotOf(fs, NextSegment), SlotOf(fs, NextSegmentPending), SlotOf(fs, ReservationMarker);
    SyncDirSlot(fs, NextSegmentPending);
    assert Exec(fs, SyncDir) == fs;
    assert p.all == {Absent};
    forall a, b, c | a in f.all && b in p.all && c in m.all ensures Good(a, b, c, exposed + {n}, true) {
      assert Good(a, b, c, exposed, true);
    }
  }

  /** A number below the published one may be exposed. */
  lemma ExposeKeeps(fs: Fs, n: nat, exposed: set<nat>)
    requires Inv(fs, exposed, true) && Published(fs, n + 1) && Ahead(exposed, n)
    requires Segment(n) !in fs.dir
    ensures Inv(fs, exposed + {n}, true)
    ensures Inv(Exec(fs, Create(Segment(n))), exposed + {n}, true)
  {
    NumberSpent(fs, n, exposed);
    CreateKeepsNames(fs, n, exposed);
    hide Sound, Published, Unshared, SegmentsKnown;
    var fs' := Exec(fs, Create(Segment(n)));
    CreateSlotElsewhere(fs, Segment(n), NextSegment);
    CreateSlotElsewhere(fs, Segment(n), NextSegmentPending);
    CreateSlotElsewhere(fs, Segment(n), ReservationMarker);
  }

  lemma CreateKeepsNames(fs: Fs, n: nat, exposed: set<nat>)
    requires WellFormed(fs) && Unshared(fs) && SegmentsKnown(fs, exposed, true) && Segment(n) !in fs.dir
    ensures var fs' := Exec(fs, Create(Segment(n)));
            WellFormed(fs') && Unshared(fs') && SegmentsKnown(fs', exposed + {n}, true)
  {
    var fs' := Exec(fs, Create(Segment(n)));
    forall a, i | May(fs', a, Some(i)) ensures May(fs, a, Some(i)) || (a == Segment(n) && i == |fs.files|) {}
  }

  /** The published number is ahead of the segments, so the new name is free. */
  lemma NewNameFree(fs: Fs, n: nat, exposed: set<nat>)
    requires Inv(fs, exposed, true) && Ahead(exposed, n)
    ensures Segment(n) !in fs.dir
  {
    if Segment(n) in fs.dir {
      assert May(fs, Segment(n), Some(fs.dir[Segment(n)]));
    }
  }

  lemma Joined(a: seq<Cmd>, b: seq<Cmd>)
    requires AllMetadata(a) && AllMetadata(b)
    ensures AllMetadata(a + b)
  {}

  lemma MarkerIsMetadata(fs: Fs)
    requires WellFormed(fs)
    ensures AllMetadata(EnsureMarker(fs)) && AllMetadata(CheckMarker) && AllMetadata(DropPending)
    ensures AllMetadata(PublishPending) && AllMetadata(ReplaceWithPending) && AllMetadata(FinishPublication)
  {}

  lemma PublishedPlanIsMetadata(fs: Fs, next: nat, last: Option<nat>)
    requires WellFormed(fs) && NextSegment in fs.dir
    ensures AllMetadata(OpenPublished(fs, next, last).cmds)
  {
    hide EnsureMarker;
    MarkerIsMetadata(fs);
    Joined(FinishPublication, EnsureMarker(fs));
    Joined([Fsync(NextSegmentPending)], ReplaceWithPending);
    Joined([Fsync(NextSegmentPending)] + ReplaceWithPending, EnsureMarker(fs));
    Joined(DropPending, EnsureMarker(fs));
  }

  lemma PendingPlanIsMetadata(fs: Fs, done: seq<Cmd>, next: nat, last: Option<nat>)
    requires WellFormed(fs) && AllMetadata(done)
    ensures AllMetadata(OpenPending(fs, done, next, last).cmds)
  {
    hide EnsureMarker;
    MarkerIsMetadata(fs);
    Joined(done, PublishPending);
    Joined(done + PublishPending, EnsureMarker(fs));
  }

  lemma DerivedPlanIsMetadata(fs: Fs, done: seq<Cmd>, last: Option<nat>)
    requires WellFormed(fs) && AllMetadata(done)
    ensures AllMetadata(OpenDerived(fs, done, last).cmds)
  {
    hide OpenPending;
    if NextAfter(last).Ok? {
      var next := NextAfter(last).value;
      Joined(done, WritePending(next));
      PendingPlanIsMetadata(fs, done + WritePending(next), next, last);
    }
  }

  lemma OpenPlanIsMetadata(fs: Fs, last: Option<nat>)
    requires WellFormed(fs)
    ensures AllMetadata(OpenPlan(fs, last).cmds)
  {
    hide OpenPublished, OpenPending, OpenDerived, EnsureMarker;
    var seen := if ReservationMarker in fs.dir then CheckMarker else [];
    MarkerIsMetadata(fs);
    if ReadAnyLinks(fs, NextSegment).Value? {
      PublishedPlanIsMetadata(fs, ReadAnyLinks(fs, NextSegment).v, last);
    } else {
      Joined(seen, [Fsync(NextSegmentPending)]);
      Joined(seen, DropPending);
      match ReadSingle(fs, NextSegmentPending)
      case Value(next) => PendingPlanIsMetadata(fs, seen + [Fsync(NextSegmentPending)], next, last);
      case NotFound => DerivedPlanIsMetadata(fs, seen, last);
      case Invalid => DerivedPlanIsMetadata(fs, seen + DropPending, last);
    }
  }

  lemma ReservePlanIsMetadata(fs: Fs, current: nat)
    requires WellFormed(fs)
    ensures AllMetadata(ReservePlan(fs, current).cmds)
  {
    MarkerIsMetadata(fs);
    var drop := if NextSegmentPending in fs.dir then DropPending else [];
    Joined(drop, WritePending(current + 1));
    Joined(drop + WritePending(current + 1), ReplaceWithPending);
  }

  // ----- steps -----

  lemma CalledHist(s: Sys, c: Cmd)
    requires WellFormed(s.fs) && Enabled(s.fs, c)
    ensures MetadataCmd(c) ==> Called(s, c) == s.(fs := Exec(s.fs, c))
    ensures SegmentCmd(c) && SegmentsKnown(s.fs, s.hist.Keys, true) ==> Called(s, c).hist.Keys == s.hist.Keys
  {
    if SegmentCmd(c) && SegmentsKnown(s.fs, s.hist.Keys, true) && c.Write? {
      assert May(s.fs, c.name, Some(s.fs.dir[c.name]));
      assert c.name == Segment(c.name.number);
    }
  }

  /** Stopping a call anywhere leaves the reservation recoverable. */
  lemma StoppedKeeps(s: Sys, s': Sys)
    requires NumbersInv(s) && Stopped(s, s')
    ensures WellFormed(s'.fs) && Inv(s'.fs, s'.hist.Keys, s'.established) && s'.established == s.established
  {
    hide Inv;
    if s' != s {
      var c := s.todo[0];
      var d := if s' == Called(s, c) then c else
        var k: nat :| k <= |c.text| && s' == Called(s, Write(c.name, c.text[..k])); Write(c.name, c.text[..k]);
      StoppedCall(s, d);
    }
  }

  lemma StoppedCall(s: Sys, d: Cmd)
    requires NumbersInv(s) && s.todo != [] && Enabled(s.fs, s.todo[0]) && Enabled(s.fs, d)
    requires d == s.todo[0] || (s.todo[0].Write? && d.Write? && d.name == s.todo[0].name
                                && exists k: nat | k <= |s.todo[0].text| :: d.text == s.todo[0].text[..k])
    ensures Inv(Exec(s.fs, d), Called(s, d).hist.Keys, s.established)
  {
    hide Inv, Published;
    var c := s.todo[0];
    if s.phase.Opening? || s.phase.Reserving? {
      assert MetadataCmd(c);
      CalledHist(s, d);
      assert Torn(s.fs, c, Exec(s.fs, d)) by {
        if d != c {
          var k: nat :| k <= |c.text| && d.text == c.text[..k];
          assert d == Write(c.name, c.text[..k]);
        }
      }
      SafeStops(s, Exec(s.fs, d));
    } else if c.Create? {
      NewNameFree(s.fs, s.phase.number, s.hist.Keys);
      ExposeKeeps(s.fs, s.phase.number, s.hist.Keys);
      assert Called(s, d).hist.Keys == s.hist.Keys + {s.phase.number};
    } else {
      assert SegmentCmd(c);
      SegmentCmdKeeps(s.fs, d, s.hist.Keys);
      KnownSegments(s.fs, s.hist.Keys);
      CalledHist(s, d);
    }
  }

  lemma KnownSegments(fs: Fs, exposed: set<nat>)
    requires Inv(fs, exposed, true)
    ensures SegmentsKnown(fs, exposed, true)
  {}

  lemma SafeStops(s: Sys, fs': Fs)
    requires NumbersInv(s) && (s.phase.Opening? || s.phase.Reserving?) && s.todo != []
    requires Enabled(s.fs, s.todo[0]) && Torn(s.fs, s.todo[0], fs')
    ensures Inv(fs', s.hist.Keys, s.established)
  {
    hide Inv;
    assert InvOf(s.hist.Keys, s.established)(fs');
  }

  lemma CallKeeps(s: Sys, s': Sys)
    requires NumbersInv(s) && Call(s, s')
    ensures NumbersInv(s')
  {
    hide Inv, Published;
    var c := s.todo[0];
    StoppedCall(s, c);
    if s.phase.Opening? || s.phase.Reserving? {
      assert MetadataCmd(c);
      CalledHist(s, c);
    }
  }

  lemma OpenCallKeeps(cfg: Config, s: Sys, s': Sys)
    requires NumbersInv(s) && OpenCall(cfg, s, s')
    ensures NumbersInv(s')
  {
    hide Inv, Safe, OpenPlan;
    var last :| IsLast(s.fs, last)
                && s' == s.(phase := Opening(OpenPlan(s.fs, last).outcome), todo := OpenPlan(s.fs, last).cmds);
    OpenSafe(s.fs, last, s.hist.Keys, s.established);
    OpenPlanIsMetadata(s.fs, last);
  }

  /** Phases whose calls only touch segments. */
  predicate SegmentPhase(p: Phase)
  {
    !p.Down? && !p.Opening? && !p.Reserving? && !p.Creating?
  }

  lemma DecideKeeps(cfg: Config, s: Sys, s': Sys)
    requires NumbersInv(s) && Decide(cfg, s, s')
    ensures NumbersInv(s')
  {
    hide Inv, Safe, Published, Found, ReservePlan;
    match s.phase
    case Opening(Ok(next)) => OpenedEstablished(s.fs, next, s.hist.Keys, s.established);
    case Rotating(w, record) =>
      if |w.tracked| < cfg.maxFiles && ReservePlan(s.fs, w.next).outcome.Ok? {
        ReserveSafe(s.fs, w.next, s.hist.Keys);
        ReservePlanIsMetadata(s.fs, w.next);
        ReserveOutcome(s.fs, w.next);
      }
    case Reserving(w, record) => SafeEnds(s.fs, w.next + 1, s.hist.Keys);
    case Opening(_) =>
    case _ => SegmentDecide(cfg, s, s');
  }

  lemma SegmentDecide(cfg: Config, s: Sys, s': Sys)
    requires Decide(cfg, s, s') && !s.phase.Opening? && !s.phase.Rotating? && !s.phase.Reserving?
    ensures SegmentPhase(s'.phase) && AllSegment(s'.todo)
    ensures s'.fs == s.fs && s'.hist == s.hist && s'.established == s.established
  {
    hide Found, ReservePlan, ValidLen;
    if s.phase.Cleaning? { CleaningDecide(cfg, s, s'); }
  }

  lemma CleaningDecide(cfg: Config, s: Sys, s': Sys)
    requires Decide(cfg, s, s') && s.phase.Cleaning?
    ensures SegmentPhase(s'.phase) && AllSegment(s'.todo)
    ensures s'.fs == s.fs && s'.hist == s.hist && s'.established == s.established
  {
    hide Found, ReservePlan, ValidLen, Oversized;
  }

  lemma SafeEnds(fs: Fs, next: nat, exposed: set<nat>)
    requires WellFormed(fs) && Safe(InvOf(exposed, true), PublishedAs(next), fs, [])
    ensures Published(fs, next)
  {
    hide Inv, Published;
  }

  /** A finished open leaves the marker whole for good. */
  lemma OpenedEstablished(fs: Fs, next: nat, exposed: set<nat>, established: bool)
    requires WellFormed(fs) && Inv(fs, exposed, established)
    requires Safe(InvOf(exposed, established), PublishedAs(next), fs, [])
    ensures Inv(fs, exposed, true)
  {
    hide Views;
    assert PublishedAs(next)(fs);
    var f, p, m := SlotOf(fs, NextSegment), SlotOf(fs, NextSegmentPending), SlotOf(fs, ReservationMarker);
    forall a, b, c | a in f.all && b in p.all && c in m.all ensures Good(a, b, c, exposed, true) {
      assert Good(a, b, c, exposed, established);
    }
  }

  lemma InterruptKeeps(s: Sys, s': Sys)
    requires NumbersInv(s) && (Fault(s, s') || Exit(s, s') || PowerLoss(s, s'))
    ensures NumbersInv(s')
  {
    hide Inv, Safe, Published;
    if Fault(s, s') {
      var m :| Stopped(s, m) && s' == m.(todo := ErrorCalls(s.phase), phase := AfterError(s.phase));
      StoppedKeeps(s, m);
    } else if Exit(s, s') {
      var m :| Stopped(s, m) && s' == m.(todo := [], phase := Down);
      StoppedKeeps(s, m);
    } else {
      var m :| Stopped(s, m) && Crash(m.fs, s'.fs) && s' == m.(fs := s'.fs, todo := [], phase := Down);
      StoppedKeeps(s, m);
      CrashWellFormed(m.fs, s'.fs);
      CrashKeeps(m.fs, s'.fs, m.hist.Keys, m.established);
    }
  }

  lemma AppendCallKeeps(cfg: Config, s: Sys, s': Sys)
    requires NumbersInv(s) && AppendCall(cfg, s, s')
    ensures NumbersInv(s')
  {
    hide Inv, Safe, Published;
  }

  lemma StepKeeps(cfg: Config, s: Sys, s': Sys)
    requires NumbersInv(s) && Next(cfg, s, s')
    ensures NumbersInv(s')
  {
    hide NumbersInv, Call, Fault, Exit, PowerLoss, Decide, OpenCall, AppendCall;
    if Call(s, s') {
      CallKeeps(s, s');
    } else if Fault(s, s') || Exit(s, s') || PowerLoss(s, s') {
      InterruptKeeps(s, s');
    } else if OpenCall(cfg, s, s') {
      OpenCallKeeps(cfg, s, s');
    } else if AppendCall(cfg, s, s') {
      AppendCallKeeps(cfg, s, s');
    } else {
      DecideKeeps(cfg, s, s');
    }
  }

  lemma InitHolds(s: Sys)
    requires Init(s)
    ensures NumbersInv(s)
  {
    forall n, i | May(s.fs, Segment(n), Some(i)) ensures n in Found(s.fs) {}
    forall n | n in Found(s.fs) ensures Segment(n) in s.fs.dir {}
    assert SlotOf(s.fs, NextSegment) == Nothing;
    assert SlotOf(s.fs, NextSegmentPending) == Nothing;
    assert SlotOf(s.fs, ReservationMarker) == Nothing;
  }

  lemma {:induction false} RunHolds(run: seq<Sys>, k: nat)
    requires Run(run) && k < |run|
    ensures NumbersInv(run[k])
  {
    hide NumbersInv, Next, Init;
    if k == 0 {
      InitHolds(run[0]);
    } else {
      RunHolds(run, k - 1);
      assert Advances(run[k - 1], run[k]);
      var cfg :| Next(cfg, run[k - 1], run[k]);
      StepKeeps(cfg, run[k - 1], run[k]);
    }
  }

  // ----- what every run keeps -----

  lemma StoppedGrows(s: Sys, m: Sys)
    requires Stopped(s, m)
    ensures s.hist.Keys <= m.hist.Keys
  {}

  lemma StepGrows(cfg: Config, s: Sys, s': Sys)
    requires Next(cfg, s, s')
    ensures s.hist.Keys <= s'.hist.Keys
  {
    hide Call, Decide, OpenCall, AppendCall, Stopped;
    if Fault(s, s') {
      var m :| Stopped(s, m) && s' == m.(todo := ErrorCalls(s.phase), phase := AfterError(s.phase));
      StoppedGrows(s, m);
    } else if Exit(s, s') {
      var m :| Stopped(s, m) && s' == m.(todo := [], phase := Down);
      StoppedGrows(s, m);
    } else if PowerLoss(s, s') {
      var m :| Stopped(s, m) && Crash(m.fs, s'.fs) && s' == m.(fs := s'.fs, todo := [], phase := Down);
      StoppedGrows(s, m);
    } else if Call(s, s') {
      CallGrows(s, s');
    } else {
      DecisionKeepsHist(cfg, s, s');
    }
  }

  lemma CallGrows(s: Sys, s': Sys)
    requires Call(s, s')
    ensures s.hist.Keys <= s'.hist.Keys
  {
    hide Exec;
  }

  lemma DecisionKeepsHist(cfg: Config, s: Sys, s': Sys)
    requires Decide(cfg, s, s') || OpenCall(cfg, s, s') || AppendCall(cfg, s, s')
    ensures s'.hist == s.hist
  {
    hide Exec, OpenPlan, ReservePlan, Found, ValidLen, Oversized, Repairs;
  }

  lemma {:induction false} RunGrows(run: seq<Sys>, i: nat, j: nat)
    requires Run(run) && i <= j < |run|
    ensures run[i].hist.Keys <= run[j].hist.Keys
    decreases j - i
  {
    hide Next, Init;
    if i < j {
      RunGrows(run, i, j - 1);
      assert Advances(run[j - 1], run[j]);
      var cfg :| Next(cfg, run[j - 1], run[j]);
      StepGrows(cfg, run[j - 1], run[j]);
    }
  }

  /** The next call of a state is to create segment `n`. */
  predicate AboutToCreate(s: Sys, n: nat)
  {
    s.todo != [] && s.todo[0] == Create(Segment(n))
  }

  /** In every run a segment about to be created has a greater number than every segment ever exposed. */
  lemma NewSegmentIsNew(run: seq<Sys>, k: nat, n: nat)
    requires Run(run) && k < |run| && AboutToCreate(run[k], n)
    ensures forall m | m in run[k].hist :: m < n
  {
    RunHolds(run, k);
    assert !MetadataCmd(run[k].todo[0]) && !SegmentCmd(run[k].todo[0]);
  }

  /** No segment number is created twice, through any crashes and failures; numbers only rise. */
  lemma NumbersRise(run: seq<Sys>, i: nat, j: nat, n: nat, m: nat)
    requires Run(run) && i < j < |run|
    requires n in run[i].hist && AboutToCreate(run[j], m)
    ensures n < m
  {
    RunGrows(run, i, j);
    NewSegmentIsNew(run, j, m);
  }

  /**
   From every reachable state of the directory an open that is left alone succeeds with a number ahead of
   every segment ever exposed, durably published; it fails only when the numbers are used up and nothing
   was ever reserved.
   */
  lemma OpenSucceeds(run: seq<Sys>, k: nat, last: Option<nat>)
    requires Run(run) && k < |run| && IsLast(run[k].fs, last)
    requires WellFormed(run[k].fs)
    ensures var plan := OpenPlan(run[k].fs, last);
            if plan.outcome.Ok? then
              && AllEnabled(run[k].fs, plan.cmds)
              && Published(ExecAll(run[k].fs, plan.cmds), plan.outcome.value)
              && (forall n | n in run[k].hist :: n < plan.outcome.value)
            else
              && plan.outcome == Err(Exhausted) && !run[k].established
              && exists n :: n in run[k].hist && n >= MAX_U64
  {
    hide Inv, Safe, Published, OpenPlan;
    RunHolds(run, k);
    var s := run[k];
    var plan := OpenPlan(s.fs, last);
    OpenSafe(s.fs, last, s.hist.Keys, s.established);
    if plan.outcome.Ok? {
      SafeCompletes(InvOf(s.hist.Keys, s.established), PublishedAs(plan.outcome.value), s.fs, plan.cmds);
    }
  }

  /** Once an open has got past the reservation, no later open derives the number from the segments. */
  lemma NeverDerivedAgain(run: seq<Sys>, k: nat, last: Option<nat>)
    requires Run(run) && k < |run| && run[k].established && IsLast(run[k].fs, last)
    ensures WellFormed(run[k].fs) && !Derives(run[k].fs)
  {
    RunHolds(run, k);
    OpenSafe(run[k].fs, last, run[k].hist.Keys, true);
  }
}
