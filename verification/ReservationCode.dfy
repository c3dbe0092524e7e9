/** The reservation procedures in the source's form: reads, calls and early returns, proved to follow the plans. */
module ReservationCode {
  import opened Wrappers
  import opened Decimal
  import opened FileSystem
  import opened MetadataText
  import opened Reservation
  import opened DirectoryCode

  datatype OpenError = Io | Data(f: Failure)

  // ----- the marker is left alone by calls on the other two names -----

  predicate ReservationCmd(c: Cmd)
  {
    match c
    case SyncDir => true
    case Create(n) => n == NextSegmentPending
    case Link(from, to) => from == NextSegmentPending && to == NextSegment
    case Unlink(n) => n == NextSegment || n == NextSegmentPending
    case Write(n, _) => n == NextSegmentPending
    case Fsync(n) => n == NextSegmentPending || n == ReservationMarker
    case SetLen(_, _) => false
  }

  predicate ReservationName(n: Name) { n == NextSegment || n == NextSegmentPending }

  /** The marker is a file of its own. */
  ghost predicate MarkerApart(fs: Fs)
  {
    ReservationMarker in fs.dir ==> forall n | n in fs.dir && ReservationName(n) :: fs.dir[n] != fs.dir[ReservationMarker]
  }

  ghost predicate SameMarkerLinks(a: Fs, b: Fs)
    requires WellFormed(a) && WellFormed(b) && SameMarker(a, b)
  {
    ReservationMarker in a.dir ==> Links(b, b.dir[ReservationMarker]) == Links(a, a.dir[ReservationMarker])
  }

  lemma CmdKeepsMarker(fs: Fs, c: Cmd)
    requires WellFormed(fs) && MarkerApart(fs) && Enabled(fs, c) && ReservationCmd(c)
    ensures SameMarker(fs, Exec(fs, c)) && SameMarkerLinks(fs, Exec(fs, c)) && MarkerApart(Exec(fs, c))
  {
    var fs' := Exec(fs, c);
    if ReservationMarker in fs.dir {
      var i := fs.dir[ReservationMarker];
      forall n ensures n in Links(fs', i) <==> n in Links(fs, i) {}
    }
  }

  lemma {:induction false} CmdsKeepMarker(fs: Fs, cmds: seq<Cmd>)
    requires WellFormed(fs) && MarkerApart(fs) && AllEnabled(fs, cmds) && forall i | 0 <= i < |cmds| :: ReservationCmd(cmds[i])
    ensures SameMarker(fs, ExecAll(fs, cmds)) && SameMarkerLinks(fs, ExecAll(fs, cmds))
            && EnsureMarker(ExecAll(fs, cmds)) == EnsureMarker(fs)
    decreases |cmds|
  {
    if cmds != [] {
      CmdKeepsMarker(fs, cmds[0]);
      CmdsKeepMarker(Exec(fs, cmds[0]), cmds[1..]);
    }
  }

  lemma PlanKeepsMarker(fs: Fs, plan: seq<Cmd>, n: nat, fs': Fs)
    requires Reached(fs, plan, n, fs') && MarkerApart(fs) && forall i | 0 <= i < n :: ReservationCmd(plan[i])
    ensures WellFormed(fs') && EnsureMarker(fs') == EnsureMarker(fs)
  {
    CmdsKeepMarker(fs, plan[..n]);
  }

  lemma MoreReservationCmds(plan: seq<Cmd>, n: nat, calls: seq<Cmd>)
    requires n <= |plan| && (forall i | 0 <= i < n :: ReservationCmd(plan[i])) && Planned(plan, n, calls)
    requires forall i | 0 <= i < |calls| :: ReservationCmd(calls[i])
    ensures forall i | 0 <= i < n + |calls| :: ReservationCmd(plan[i])
  {
    forall i | 0 <= i < n + |calls| ensures ReservationCmd(plan[i]) {
      if i >= n { assert plan[n + (i - n)] == calls[i - n]; }
    }
  }

  // ----- small procedures -----

  /** The calls at position `n` of a plan. */
  ghost predicate Planned(plan: seq<Cmd>, n: nat, calls: seq<Cmd>)
  {
    n + |calls| <= |plan| && forall i | 0 <= i < |calls| :: plan[n + i] == calls[i]
  }

  lemma PublishCalls()
    ensures var c := Reservation.PublishPending;
            |c| == 4 && c[0] == Link(NextSegmentPending, NextSegment) && c[1] == SyncDir
            && c[2] == Unlink(NextSegmentPending) && c[3] == SyncDir
  {}

  lemma ReplaceCalls()
    ensures var c := Reservation.ReplaceWithPending;
            |c| == 7 && c[0] == SyncDir && c[1] == Unlink(NextSegment) && c[2] == SyncDir
            && c[3] == Link(NextSegmentPending, NextSegment) && c[4] == SyncDir && c[5] == Unlink(NextSegmentPending)
            && c[6] == SyncDir
  {}

  lemma MarkerCalls(fs: Fs)
    requires WellFormed(fs)
    ensures var c := EnsureMarker(fs);
            if ReservationMarker in fs.dir && MarkerValid(fs) then
              |c| == 2 && c[0] == Fsync(ReservationMarker) && c[1] == SyncDir
            else
              var at := if ReservationMarker in fs.dir then 2 else 0;
              && |c| == at + 4
              && (at == 2 ==> c[0] == Unlink(ReservationMarker) && c[1] == SyncDir)
              && c[at] == Create(ReservationMarker) && c[at + 1] == Write(ReservationMarker, MARKER_TEXT)
              && c[at + 2] == Fsync(ReservationMarker) && c[at + 3] == SyncDir
  {}

  /** `publish_pending` */
  method PublishPending(dir: Directory, ghost from: Fs, ghost plan: seq<Cmd>, ghost n: nat) returns (ok: bool)
    requires Reached(from, plan, n, dir.fs) && Planned(plan, n, Reservation.PublishPending)
    modifies dir
    ensures ok ==> Reached(from, plan, n + 4, dir.fs)
    ensures !ok ==> Interrupted(from, plan, dir.fs)
    ensures dir.faults == old(dir.faults) + (if ok then 0 else 1)
  {
    PublishCalls();
    hide Reached, Interrupted;
    ok := dir.Step(Link(NextSegmentPending, NextSegment), from, plan, n);
    if !ok { return; }
    ok := dir.Step(SyncDir, from, plan, n + 1);
    if !ok { return; }
    ok := dir.Step(Unlink(NextSegmentPending), from, plan, n + 2);
    if !ok { return; }
    ok := dir.Step(SyncDir, from, plan, n + 3);
  }

  /** `replace_with_pending` */
  method ReplaceWithPending(dir: Directory, ghost from: Fs, ghost plan: seq<Cmd>, ghost n: nat) returns (ok: bool)
    requires Reached(from, plan, n, dir.fs) && Planned(plan, n, Reservation.ReplaceWithPending)
    modifies dir
    ensures ok ==> Reached(from, plan, n + 7, dir.fs)
    ensures !ok ==> Interrupted(from, plan, dir.fs)
    ensures dir.faults == old(dir.faults) + (if ok then 0 else 1)
  {
    ReplaceCalls();
    hide Reached, Interrupted;
    ok := dir.Step(SyncDir, from, plan, n);
    if !ok { return; }
    ok := dir.Step(Unlink(NextSegment), from, plan, n + 1);
    if !ok { return; }
    ok := dir.Step(SyncDir, from, plan, n + 2);
    if !ok { return; }
    PublishCalls();
    ok := PublishPending(dir, from, plan, n + 3);
  }

  /** `write_next_segment_pending` */
  method WriteNextSegmentPending(dir: Directory, next: nat, ghost from: Fs, ghost plan: seq<Cmd>, ghost n: nat)
    returns (ok: bool)
    requires Reached(from, plan, n, dir.fs) && Planned(plan, n, WritePending(next))
    modifies dir
    ensures ok ==> Reached(from, plan, n + 3, dir.fs)
    ensures !ok ==> Interrupted(from, plan, dir.fs)
    ensures dir.faults == old(dir.faults) + (if ok then 0 else 1)
  {
    var calls := WritePending(next);
    assert calls[0] == Create(NextSegmentPending) && calls[1] == Write(NextSegmentPending, NextText(next))
           && calls[2] == Fsync(NextSegmentPending);
    hide Reached, Interrupted;
    ok := dir.Step(Create(NextSegmentPending), from, plan, n);
    if !ok { return; }
    ok := dir.Step(Write(NextSegmentPending, NextText(next)), from, plan, n + 1);
    if !ok { return; }
    ok := dir.Step(Fsync(NextSegmentPending), from, plan, n + 2);
  }

  /** The pending name is removed for good. */
  method DropPendingName(dir: Directory, ghost from: Fs, ghost plan: seq<Cmd>, ghost n: nat) returns (ok: bool)
    requires Reached(from, plan, n, dir.fs) && Planned(plan, n, DropPending)
    modifies dir
    ensures ok ==> Reached(from, plan, n + 2, dir.fs) && dir.fs.dir == old(dir.fs.dir) - {NextSegmentPending}
                   && dir.fs.files == old(dir.fs.files)
    ensures !ok ==> Interrupted(from, plan, dir.fs)
    ensures dir.faults == old(dir.faults) + (if ok then 0 else 1)
  {
    assert DropPending[0] == Unlink(NextSegmentPending) && DropPending[1] == SyncDir;
    hide Reached, Interrupted;
    ok := dir.Step(Unlink(NextSegmentPending), from, plan, n);
    if !ok { return; }
    ok := dir.Step(SyncDir, from, plan, n + 1);
  }

  /** `ensure_reservation_marker`, with `reservation_marker_exists` and `create_reservation_marker` */
  method EnsureReservationMarker(dir: Directory, ghost from: Fs, ghost plan: seq<Cmd>, ghost n: nat) returns (ok: bool)
    requires Reached(from, plan, n, dir.fs) && WellFormed(dir.fs) && Planned(plan, n, EnsureMarker(dir.fs))
    modifies dir
    ensures ok ==> Reached(from, plan, n + |EnsureMarker(old(dir.fs))|, dir.fs)
    ensures !ok ==> Interrupted(from, plan, dir.fs)
    ensures dir.faults == old(dir.faults) + (if ok then 0 else 1)
  {
    MarkerCalls(dir.fs);
    hide Reached, Interrupted;
    ghost var at := n;
    if ReservationMarker in dir.fs.dir {
      if MarkerValid(dir.fs) {
        ok := dir.Step(Fsync(ReservationMarker), from, plan, n);
        if !ok { return; }
        ok := dir.Step(SyncDir, from, plan, n + 1);
        return;
      }
      ok := dir.Step(Unlink(ReservationMarker), from, plan, n);
      if !ok { return; }
      ok := dir.Step(SyncDir, from, plan, n + 1);
      if !ok { return; }
      at := n + 2;
    }
    ok := dir.Step(Create(ReservationMarker), from, plan, at);
    if !ok { return; }
    ok := dir.Step(Write(ReservationMarker, MARKER_TEXT), from, plan, at + 1);
    if !ok { return; }
    ok := dir.Step(Fsync(ReservationMarker), from, plan, at + 2);
    if !ok { return; }
    ok := dir.Step(SyncDir, from, plan, at + 3);
  }

  // ----- open_next_segment -----

  /** What a procedure did is what its plan says: all of it, with the planned result, or part of it and an I/O error. */
  ghost predicate Follows(fs: Fs, plan: Plan, r: Result<nat, OpenError>, fs': Fs)
    requires WellFormed(fs)
  {
    match r
    case Ok(v) => plan.outcome == Ok(v) && Reached(fs, plan.cmds, |plan.cmds|, fs')
    case Err(Data(f)) => plan.outcome == Err(f) && Reached(fs, plan.cmds, |plan.cmds|, fs')
    case Err(Io) => Interrupted(fs, plan.cmds, fs')
  }

  /** The last part of every branch: the marker, then the check against the segments. */
  method FinishOpen(dir: Directory, next: nat, last: Option<nat>, ghost from: Fs, ghost plan: Plan, ghost n: nat)
    returns (r: Result<nat, OpenError>)
    requires Reached(from, plan.cmds, n, dir.fs) && WellFormed(dir.fs) && plan.outcome == ValidateAhead(next, last)
    requires |plan.cmds| == n + |EnsureMarker(from)| && Planned(plan.cmds, n, EnsureMarker(from))
    requires forall i | 0 <= i < n :: ReservationCmd(plan.cmds[i])
    modifies dir
    ensures MarkerApart(from) ==> Follows(from, plan, r, dir.fs)
    ensures dir.faults == old(dir.faults) + (if r == Err(Io) then 1 else 0)
  {
    ghost var from', cmds', n' := dir.fs, EnsureMarker(dir.fs), 0;
    if MarkerApart(from) {
      PlanKeepsMarker(from, plan.cmds, n, dir.fs);
      from', cmds', n' := from, plan.cmds, n;
    } else {
      NoneMade(dir.fs, cmds');
    }
    hide Reached, Interrupted, EnsureMarker;
    var ok := EnsureReservationMarker(dir, from', cmds', n');
    if !ok { return Err(Io); }
    if last.Some? && last.value >= next { return Err(Data(InvalidData)); }
    r := Ok(next);
  }

  /** `open_next_segment`; `last` is the greatest segment number found. */
  method OpenNextSegment(dir: Directory, last: Option<nat>) returns (r: Result<nat, OpenError>)
    requires WellFormed(dir.fs)
    modifies dir
    ensures MarkerApart(old(dir.fs)) ==> Follows(old(dir.fs), OpenPlan(old(dir.fs), last), r, dir.fs)
    ensures dir.faults == old(dir.faults) + (if r == Err(Io) then 1 else 0)
  {
    match ReadAnyLinks(dir.fs, NextSegment)
    case Invalid =>
      NoneMade(dir.fs, []);
      return Err(Data(InvalidData));
    case Value(next) =>
      r := OpenPublishedName(dir, next, last);
    case NotFound =>
      r := OpenUnpublished(dir, last);
  }

  /** A published reservation exists. */
  method OpenPublishedName(dir: Directory, next: nat, last: Option<nat>) returns (r: Result<nat, OpenError>)
    requires WellFormed(dir.fs) && ReadAnyLinks(dir.fs, NextSegment) == Value(next)
    modifies dir
    ensures MarkerApart(old(dir.fs)) ==> Follows(old(dir.fs), OpenPlan(old(dir.fs), last), r, dir.fs)
    ensures dir.faults == old(dir.faults) + (if r == Err(Io) then 1 else 0)
  {
    ghost var from := dir.fs;
    ghost var plan := OpenPublished(from, next, last);
    NoneMade(from, plan.cmds);
    match ReadAnyLinks(dir.fs, NextSegmentPending)
    case Value(pending) =>
      r := OpenBothNames(dir, next, pending, last);
    case NotFound =>
      if !SingleLink(dir.fs, NextSegment) { return Err(Data(InvalidData)); }
      r := FinishOpen(dir, next, last, from, plan, 0);
    case Invalid =>
      DropThenMarker(from, plan.cmds);
      var ok := DropPendingName(dir, from, plan.cmds, 0);
      if !ok { return Err(Io); }
      assert SingleLink(dir.fs, NextSegment) == SingleLink(from, NextSegment) by {
        assert Links(dir.fs, from.dir[NextSegment]) == Links(from, from.dir[NextSegment]);
      }
      if !SingleLink(dir.fs, NextSegment) { return Err(Data(InvalidData)); }
      r := FinishOpen(dir, next, last, from, plan, 2);
  }

  lemma DropThenMarker(fs: Fs, cmds: seq<Cmd>)
    requires WellFormed(fs) && (cmds == DropPending || cmds == DropPending + EnsureMarker(fs))
    ensures Planned(cmds, 0, DropPending)
    ensures cmds == DropPending + EnsureMarker(fs) ==> |cmds| == 2 + |EnsureMarker(fs)| && Planned(cmds, 2, EnsureMarker(fs))
    ensures forall i | 0 <= i < 2 :: ReservationCmd(cmds[i])
  {}

  /** Both names are there: a publication to finish, an advance to complete, or damage. */
  method OpenBothNames(dir: Directory, next: nat, pending: nat, last: Option<nat>) returns (r: Result<nat, OpenError>)
    requires WellFormed(dir.fs) && ReadAnyLinks(dir.fs, NextSegment) == Value(next)
    requires ReadAnyLinks(dir.fs, NextSegmentPending) == Value(pending)
    modifies dir
    ensures MarkerApart(old(dir.fs)) ==> Follows(old(dir.fs), OpenPublished(old(dir.fs), next, last), r, dir.fs)
    ensures dir.faults == old(dir.faults) + (if r == Err(Io) then 1 else 0)
  {
    hide Reached, Interrupted, OpenPublished, EnsureMarker, MarkerApart, Planned, ReservationCmd, Follows;
    ghost var from := dir.fs;
    ghost var plan := OpenPublished(from, next, last);
    BothCalls(from, next, pending, last);
    NoneMade(from, plan.cmds);
    var ok := dir.Step(Fsync(NextSegmentPending), from, plan.cmds, 0);
    if !ok {
      StoppedFollows(from, plan, dir.fs);
      return Err(Io);
    }
    assert dir.fs.dir == from.dir;
    assert forall i :: Links(dir.fs, i) == Links(from, i);
    if pending == next && SameEntry(dir.fs) {
      r := FinishSameFile(dir, next, last, from, plan);
    } else if !SingleLink(dir.fs, NextSegment) || !SingleLink(dir.fs, NextSegmentPending) || pending <= next {
      RefusedFollows(from, plan, dir.fs);
      r := Err(Data(InvalidData));
    } else {
      r := AdvanceToPending(dir, pending, last, from, plan);
    }
  }

  lemma StoppedFollows(fs: Fs, plan: Plan, fs': Fs)
    requires WellFormed(fs) && Interrupted(fs, plan.cmds, fs')
    ensures Follows(fs, plan, Err(Io), fs')
  {
    hide Interrupted;
  }

  lemma RefusedFollows(fs: Fs, plan: Plan, fs': Fs)
    requires Reached(fs, plan.cmds, |plan.cmds|, fs') && plan.outcome == Err(InvalidData)
    ensures WellFormed(fs) && Follows(fs, plan, Err(Data(InvalidData)), fs')
  {}

  /** Both names are one file, which is synced: the publication is finished. */
  method FinishSameFile(dir: Directory, next: nat, last: Option<nat>, ghost from: Fs, ghost plan: Plan)
    returns (r: Result<nat, OpenError>)
    requires Reached(from, plan.cmds, 1, dir.fs) && WellFormed(from) && dir.fs.dir == from.dir
    requires NextSegment in from.dir && NextSegmentPending in from.dir && SameEntry(from)
    requires plan.outcome == ValidateAhead(next, last) && |plan.cmds| == 4 + |EnsureMarker(from)| && plan.cmds[1] == SyncDir
    requires Planned(plan.cmds, 2, DropPending) && Planned(plan.cmds, 4, EnsureMarker(from))
    requires forall i | 0 <= i < 4 :: ReservationCmd(plan.cmds[i])
    modifies dir
    ensures MarkerApart(from) ==> Follows(from, plan, r, dir.fs)
    ensures dir.faults == old(dir.faults) + (if r == Err(Io) then 1 else 0)
  {
    hide Reached, Interrupted, EnsureMarker, MarkerApart, Planned, ReservationCmd;
    var ok := dir.Step(SyncDir, from, plan.cmds, 1);
    if !ok { return Err(Io); }
    ok := DropPendingName(dir, from, plan.cmds, 2);
    if !ok { return Err(Io); }
    LastLinkLeft(from, dir.fs);
    ReachedWellFormed(from, plan.cmds, 4, dir.fs);
    if !SingleLink(dir.fs, NextSegment) { return Err(Data(InvalidData)); }
    r := FinishOpen(dir, next, last, from, plan, 4);
  }

  /** The pending number is ahead: it replaces the published one. */
  method AdvanceToPending(dir: Directory, pending: nat, last: Option<nat>, ghost from: Fs, ghost plan: Plan)
    returns (r: Result<nat, OpenError>)
    requires Reached(from, plan.cmds, 1, dir.fs) && WellFormed(from)
    requires plan.outcome == ValidateAhead(pending, last) && |plan.cmds| == 8 + |EnsureMarker(from)|
    requires Planned(plan.cmds, 1, Reservation.ReplaceWithPending) && Planned(plan.cmds, 8, EnsureMarker(from))
    requires forall i | 0 <= i < 8 :: ReservationCmd(plan.cmds[i])
    modifies dir
    ensures MarkerApart(from) ==> Follows(from, plan, r, dir.fs)
    ensures dir.faults == old(dir.faults) + (if r == Err(Io) then 1 else 0)
  {
    hide Reached, Interrupted, EnsureMarker, MarkerApart, Planned, ReservationCmd;
    var ok := ReplaceWithPending(dir, from, plan.cmds, 1);
    if !ok { return Err(Io); }
    ReachedWellFormed(from, plan.cmds, 8, dir.fs);
    r := FinishOpen(dir, pending, last, from, plan, 8);
  }

  /** A file with exactly the two names has one link when the pending name is gone. */
  lemma LastLinkLeft(fs: Fs, fs': Fs)
    requires NextSegment in fs.dir && NextSegmentPending in fs.dir && SameEntry(fs)
    requires fs'.dir == fs.dir - {NextSegmentPending}
    ensures NextSegment in fs'.dir && SingleLink(fs', NextSegment)
  {
    var i := fs.dir[NextSegment];
    assert Links(fs', i) == Links(fs, i) - {NextSegmentPending};
    assert |Links(fs, i) - {NextSegmentPending}| == |Links(fs, i)| - 1;
  }

  /** Both names are one file: the publication is finished. */
  lemma SameFileCalls(fs: Fs, next: nat, last: Option<nat>)
    requires WellFormed(fs) && ReadAnyLinks(fs, NextSegment) == Value(next)
    requires ReadAnyLinks(fs, NextSegmentPending) == Value(next) && SameEntry(fs)
    ensures var plan := OpenPublished(fs, next, last);
            var c := plan.cmds;
            && plan.outcome == ValidateAhead(next, last) && |c| == 4 + |EnsureMarker(fs)|
            && c[0] == Fsync(NextSegmentPending) && c[1] == SyncDir && Planned(c, 2, DropPending)
            && Planned(c, 4, EnsureMarker(fs)) && (forall i | 0 <= i < 4 :: ReservationCmd(c[i]))
  {
    hide EnsureMarker, SameEntry, ReadAnyLinks;
    FinishShape(EnsureMarker(fs));
  }

  lemma FinishShape(rest: seq<Cmd>)
    ensures var c := FinishPublication + rest;
            && |c| == 4 + |rest| && c[0] == Fsync(NextSegmentPending) && c[1] == SyncDir && Planned(c, 2, DropPending)
            && Planned(c, 4, rest) && (forall i | 0 <= i < 4 :: ReservationCmd(c[i]))
  {
    assert FinishPublication == [Fsync(NextSegmentPending), SyncDir, Unlink(NextSegmentPending), SyncDir];
  }

  /** Two files, and the pending one is ahead: it replaces the published one. */
  lemma NewerFileCalls(fs: Fs, next: nat, pending: nat, last: Option<nat>)
    requires WellFormed(fs) && ReadAnyLinks(fs, NextSegment) == Value(next)
    requires ReadAnyLinks(fs, NextSegmentPending) == Value(pending) && pending > next
    requires SingleLink(fs, NextSegment) && SingleLink(fs, NextSegmentPending)
    ensures var plan := OpenPublished(fs, next, last);
            var c := plan.cmds;
            && plan.outcome == ValidateAhead(pending, last) && |c| == 8 + |EnsureMarker(fs)|
            && c[0] == Fsync(NextSegmentPending) && Planned(c, 1, Reservation.ReplaceWithPending)
            && Planned(c, 8, EnsureMarker(fs)) && (forall i | 0 <= i < 8 :: ReservationCmd(c[i]))
  {
    hide EnsureMarker, ReadAnyLinks;
    ReplaceShape(EnsureMarker(fs));
  }

  lemma ReplaceShape(rest: seq<Cmd>)
    ensures var c := [Fsync(NextSegmentPending)] + Reservation.ReplaceWithPending + rest;
            && |c| == 8 + |rest| && c[0] == Fsync(NextSegmentPending) && Planned(c, 1, Reservation.ReplaceWithPending)
            && Planned(c, 8, rest) && (forall i | 0 <= i < 8 :: ReservationCmd(c[i]))
  {
    ReplaceCalls();
  }

  /** Two files with more links, or a pending number that is not ahead: damage. */
  lemma DamagedCalls(fs: Fs, next: nat, pending: nat, last: Option<nat>)
    requires WellFormed(fs) && ReadAnyLinks(fs, NextSegment) == Value(next)
    requires ReadAnyLinks(fs, NextSegmentPending) == Value(pending) && !(pending == next && SameEntry(fs))
    requires !SingleLink(fs, NextSegment) || !SingleLink(fs, NextSegmentPending) || pending <= next
    ensures OpenPublished(fs, next, last) == Plan([Fsync(NextSegmentPending)], Err(InvalidData))
  {}

  lemma BothCalls(fs: Fs, next: nat, pending: nat, last: Option<nat>)
    requires WellFormed(fs) && ReadAnyLinks(fs, NextSegment) == Value(next)
    requires ReadAnyLinks(fs, NextSegmentPending) == Value(pending)
    ensures var plan := OpenPublished(fs, next, last);
            var c := plan.cmds;
            && |c| >= 1 && c[0] == Fsync(NextSegmentPending)
            && (if pending == next && SameEntry(fs) then
                  && plan.outcome == ValidateAhead(next, last) && |c| == 4 + |EnsureMarker(fs)|
                  && c[1] == SyncDir && Planned(c, 2, DropPending) && Planned(c, 4, EnsureMarker(fs))
                  && (forall i | 0 <= i < 4 :: ReservationCmd(c[i]))
                else if !SingleLink(fs, NextSegment) || !SingleLink(fs, NextSegmentPending) || pending <= next then
                  plan.outcome == Err(InvalidData) && |c| == 1
                else
                  && plan.outcome == ValidateAhead(pending, last) && |c| == 8 + |EnsureMarker(fs)|
                  && Planned(c, 1, Reservation.ReplaceWithPending) && Planned(c, 8, EnsureMarker(fs))
                  && (forall i | 0 <= i < 8 :: ReservationCmd(c[i])))
  {
    hide OpenPublished, EnsureMarker, Planned, ReservationCmd;
    if pending == next && SameEntry(fs) {
      SameFileCalls(fs, next, last);
    } else if !SingleLink(fs, NextSegment) || !SingleLink(fs, NextSegmentPending) || pending <= next {
      DamagedCalls(fs, next, pending, last);
    } else {
      NewerFileCalls(fs, next, pending, last);
    }
  }

  /** The calls of an open that finds no published reservation. */
  lemma UnpublishedCalls(fs: Fs, last: Option<nat>)
    requires WellFormed(fs) && NextSegment !in fs.dir
    requires ReservationMarker in fs.dir ==> MarkerValid(fs)
    ensures var plan := OpenPlan(fs, last);
            var c := plan.cmds;
            var m := if ReservationMarker in fs.dir then 2 else 0;
            && |c| >= m && (m == 2 ==> c[0] == Fsync(ReservationMarker) && c[1] == SyncDir)
            && (match ReadSingle(fs, NextSegmentPending)
                case Value(next) => |c| > m && c[m] == Fsync(NextSegmentPending) && PublishesAt(fs, plan, m + 1, next, last)
                case NotFound =>
                  if m == 2 then |c| == 2 && plan.outcome == Err(InvalidData) else DerivesAt(fs, plan, 0, last)
                case Invalid => Planned(c, m, DropPending) && DerivesAt(fs, plan, m + 2, last))
            && (forall i | 0 <= i < m :: ReservationCmd(c[i]))
  {
    var seen := if ReservationMarker in fs.dir then CheckMarker else [];
    hide EnsureMarker, PublishesAt, DerivesAt, OpenDerived, MarkerValid;
    match ReadSingle(fs, NextSegmentPending)
    case Value(next) => PublishesShape(fs, seen + [Fsync(NextSegmentPending)], next, last);
    case NotFound => DerivesShape(fs, seen, last);
    case Invalid => DerivesShape(fs, seen + DropPending, last);
  }

  lemma PublishesShape(fs: Fs, done: seq<Cmd>, next: nat, last: Option<nat>)
    requires WellFormed(fs)
    ensures var plan := OpenPending(fs, done, next, last);
            done <= plan.cmds && PublishesAt(fs, plan, |done|, next, last)
  {
    hide EnsureMarker;
    PublishCalls();
  }

  lemma DerivesShape(fs: Fs, done: seq<Cmd>, last: Option<nat>)
    requires WellFormed(fs)
    ensures var plan := OpenDerived(fs, done, last);
            done <= plan.cmds && DerivesAt(fs, plan, |done|, last)
  {
    match NextAfter(last)
    case Err(e) =>
    case Ok(next) =>
      PublishesShape(fs, done + WritePending(next), next, last);
      var plan := OpenDerived(fs, done, last);
      hide PublishesAt, OpenPending, EnsureMarker;
      assert Planned(plan.cmds, |done|, WritePending(next));
  }

  /** From position `n` on, the plan publishes `next` and ensures the marker. */
  ghost predicate PublishesAt(fs: Fs, plan: Plan, n: nat, next: nat, last: Option<nat>)
    requires WellFormed(fs)
  {
    if !AheadOf(next, last) then |plan.cmds| == n && plan.outcome == Err(InvalidData)
    else && |plan.cmds| == n + 4 + |EnsureMarker(fs)| && Planned(plan.cmds, n, Reservation.PublishPending)
         && Planned(plan.cmds, n + 4, EnsureMarker(fs)) && plan.outcome == Ok(next)
  }

  /** From position `n` on, the plan writes the number after the last segment and publishes it. */
  ghost predicate DerivesAt(fs: Fs, plan: Plan, n: nat, last: Option<nat>)
    requires WellFormed(fs)
  {
    match NextAfter(last)
    case Err(e) => |plan.cmds| == n && plan.outcome == Err(e)
    case Ok(next) => Planned(plan.cmds, n, WritePending(next)) && PublishesAt(fs, plan, n + 3, next, last)
  }

  lemma BadMarkerPlan(fs: Fs, last: Option<nat>)
    requires WellFormed(fs) && NextSegment !in fs.dir && ReservationMarker in fs.dir && !MarkerValid(fs)
    ensures OpenPlan(fs, last) == Plan([], Err(InvalidData))
  {}

  /** No published reservation exists. */
  method OpenUnpublished(dir: Directory, last: Option<nat>) returns (r: Result<nat, OpenError>)
    requires WellFormed(dir.fs) && NextSegment !in dir.fs.dir
    modifies dir
    ensures MarkerApart(old(dir.fs)) ==> Follows(old(dir.fs), OpenPlan(old(dir.fs), last), r, dir.fs)
    ensures dir.faults == old(dir.faults) + (if r == Err(Io) then 1 else 0)
  {
    hide Reached, Interrupted, OpenPlan, MarkerApart, PublishesAt, DerivesAt, MarkerValid, Planned;
    ghost var from, plan := dir.fs, OpenPlan(dir.fs, last);
    NoneMade(from, plan.cmds);
    var established := ReservationMarker in dir.fs.dir;
    if established {
      if !MarkerValid(dir.fs) {
        BadMarkerPlan(from, last);
        return Err(Data(InvalidData));
      }
    }
    UnpublishedCalls(from, last);
    ghost var n := 0;
    if established {
      var ok := dir.Step(Fsync(ReservationMarker), from, plan.cmds, 0);
      if !ok { return Err(Io); }
      ok := dir.Step(SyncDir, from, plan.cmds, 1);
      if !ok { return Err(Io); }
      n := 2;
    }
    SameReading(from, dir.fs, NextSegmentPending);
    r := OpenWithPending(dir, established, last, from, plan, n);
  }

  method OpenWithPending(dir: Directory, established: bool, last: Option<nat>, ghost from: Fs, ghost plan: Plan, ghost n: nat)
    returns (r: Result<nat, OpenError>)
    requires Reached(from, plan.cmds, n, dir.fs) && WellFormed(dir.fs) && n == (if established then 2 else 0)
    requires forall i | 0 <= i < n :: ReservationCmd(plan.cmds[i])
    requires match ReadSingle(dir.fs, NextSegmentPending)
             case Value(next) =>
               |plan.cmds| > n && plan.cmds[n] == Fsync(NextSegmentPending) && PublishesAt(from, plan, n + 1, next, last)
             case NotFound =>
               if established then |plan.cmds| == n && plan.outcome == Err(InvalidData) else DerivesAt(from, plan, 0, last)
             case Invalid => Planned(plan.cmds, n, DropPending) && DerivesAt(from, plan, n + 2, last)
    modifies dir
    ensures MarkerApart(from) ==> Follows(from, plan, r, dir.fs)
    ensures dir.faults == old(dir.faults) + (if r == Err(Io) then 1 else 0)
  {
    hide Reached, Interrupted, MarkerApart, PublishesAt, DerivesAt;
    match ReadSingle(dir.fs, NextSegmentPending)
    case Value(next) =>
      var ok := dir.Step(Fsync(NextSegmentPending), from, plan.cmds, n);
      if !ok { return Err(Io); }
      r := PublishNumber(dir, next, last, from, plan, n + 1);
    case NotFound =>
      if established { return Err(Data(InvalidData)); }
      r := DeriveNumber(dir, last, from, plan, 0);
    case Invalid =>
      MoreReservationCmds(plan.cmds, n, DropPending);
      var ok := DropPendingName(dir, from, plan.cmds, n);
      if !ok { return Err(Io); }
      r := DeriveNumber(dir, last, from, plan, n + 2);
  }

  /** Syncing changes nothing that can be read. */
  lemma SameReading(fs: Fs, fs': Fs, n: Name)
    requires WellFormed(fs) && WellFormed(fs') && fs'.dir == fs.dir && |fs'.files| == |fs.files|
    requires forall i | 0 <= i < |fs.files| :: fs'.files[i].bytes == fs.files[i].bytes
    ensures ReadSingle(fs', n) == ReadSingle(fs, n)
  {
    assert forall i :: Links(fs', i) == Links(fs, i);
  }

  method DeriveNumber(dir: Directory, last: Option<nat>, ghost from: Fs, ghost plan: Plan, ghost n: nat)
    returns (r: Result<nat, OpenError>)
    requires Reached(from, plan.cmds, n, dir.fs) && DerivesAt(from, plan, n, last)
    requires forall i | 0 <= i < n :: ReservationCmd(plan.cmds[i])
    modifies dir
    ensures MarkerApart(from) ==> Follows(from, plan, r, dir.fs)
    ensures dir.faults == old(dir.faults) + (if r == Err(Io) then 1 else 0)
  {
    match NextAfter(last)
    case Err(e) => r := Err(Data(e));
    case Ok(next) =>
      MoreReservationCmds(plan.cmds, n, WritePending(next));
      hide Reached, Interrupted, MarkerApart;
      var ok := WriteNextSegmentPending(dir, next, from, plan.cmds, n);
      if !ok { return Err(Io); }
      r := PublishNumber(dir, next, last, from, plan, n + 3);
  }

  method PublishNumber(dir: Directory, next: nat, last: Option<nat>, ghost from: Fs, ghost plan: Plan, ghost n: nat)
    returns (r: Result<nat, OpenError>)
    requires Reached(from, plan.cmds, n, dir.fs) && PublishesAt(from, plan, n, next, last)
    requires forall i | 0 <= i < n :: ReservationCmd(plan.cmds[i])
    modifies dir
    ensures MarkerApart(from) ==> Follows(from, plan, r, dir.fs)
    ensures dir.faults == old(dir.faults) + (if r == Err(Io) then 1 else 0)
  {
    if last.Some? && last.value >= next { return Err(Data(InvalidData)); }
    PublishCalls();
    MoreReservationCmds(plan.cmds, n, Reservation.PublishPending);
    ReachedWellFormed(from, plan.cmds, n, dir.fs);
    hide Reached, Interrupted, MarkerApart, EnsureMarker;
    var ok := PublishPending(dir, from, plan.cmds, n);
    if !ok { return Err(Io); }
    ReachedWellFormed(from, plan.cmds, n + 4, dir.fs);
    r := FinishOpen(dir, next, last, from, plan, n + 4);
  }

  lemma ReachedWellFormed(fs: Fs, plan: seq<Cmd>, n: nat, fs': Fs)
    requires Reached(fs, plan, n, fs')
    ensures WellFormed(fs) && WellFormed(fs')
  {}

  // ----- reserve_next_segment -----

  lemma ReserveCalls(fs: Fs, current: nat)
    requires WellFormed(fs) && ReadSingle(fs, NextSegment) == Value(current) && current < MAX_U64
    ensures var plan := ReservePlan(fs, current);
            var c := plan.cmds;
            var m := if NextSegmentPending in fs.dir then 2 else 0;
            && plan.outcome == Ok(current + 1) && |c| == m + 10
            && (m == 2 ==> Planned(c, 0, DropPending)) && Planned(c, m, WritePending(current + 1))
            && Planned(c, m + 3, Reservation.ReplaceWithPending)
  {
    ReplaceCalls();
  }

  /** `reserve_next_segment` */
  method ReserveNextSegment(dir: Directory, current: nat) returns (r: Result<nat, OpenError>)
    requires WellFormed(dir.fs)
    modifies dir
    ensures Follows(old(dir.fs), ReservePlan(old(dir.fs), current), r, dir.fs)
    ensures r == Err(Data(InvalidData)) <==> ReadSingle(old(dir.fs), NextSegment) != Value(current)
    ensures r == Err(Data(Exhausted)) <==> ReadSingle(old(dir.fs), NextSegment) == Value(current) && current >= MAX_U64
    ensures r.Ok? ==> r.value == current + 1
    ensures dir.faults == old(dir.faults) + (if r == Err(Io) then 1 else 0)
  {
    ghost var from, plan := dir.fs, ReservePlan(dir.fs, current);
    NoneMade(from, plan.cmds);
    if ReadSingle(dir.fs, NextSegment) != Value(current) { return Err(Data(InvalidData)); }
    if current >= MAX_U64 { return Err(Data(Exhausted)); }
    ReserveCalls(from, current);
    hide Reached, Interrupted, ReservePlan;
    ghost var n := 0;
    var ok;
    if NextSegmentPending in dir.fs.dir {
      ok := DropPendingName(dir, from, plan.cmds, 0);
      if !ok { return Err(Io); }
      n := 2;
    }
    ok := WriteNextSegmentPending(dir, current + 1, from, plan.cmds, n);
    if !ok { return Err(Io); }
    ok := ReplaceWithPending(dir, from, plan.cmds, n + 3);
    if !ok { return Err(Io); }
    r := Ok(current + 1);
  }
}
