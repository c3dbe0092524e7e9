/** `open_next_segment` from every state a crash or a failed call may leave. */
module ReservationOpen {
  import opened Wrappers
  import opened Decimal
  import opened FileSystem
  import opened MetadataText
  import opened CrashViews
  import opened Procedures
  import opened Reservation
  import opened ReservationOutcomes
  import opened ReservationSafety

  /** `last` is the greatest segment number in the directory. */
  ghost predicate IsLast(fs: Fs, last: Option<nat>)
  {
    && (forall n: nat | Segment(n) in fs.dir :: last.Some? && n <= last.value)
    && (last.Some? ==> Segment(last.value) in fs.dir)
  }

  lemma LastKnown(fs: Fs, last: Option<nat>, next: nat, exposed: set<nat>, established: bool)
    requires Inv(fs, exposed, established) && IsLast(fs, last) && Ahead(exposed, next)
    ensures AheadOf(next, last)
  {
    if last.Some? {
      assert May(fs, Segment(last.value), Some(fs.dir[Segment(last.value)]));
    }
  }

  /** Before anything is established the derived number is ahead of every exposed segment. */
  lemma DerivedAhead(fs: Fs, last: Option<nat>, exposed: set<nat>)
    requires Inv(fs, exposed, false) && IsLast(fs, last)
    ensures match NextAfter(last)
            case Ok(next) => Ahead(exposed, next)
            case Err(e) => e == Exhausted && exists n :: n in exposed && n >= MAX_U64
  {
    if last.Some? {
      assert May(fs, Segment(last.value), Some(fs.dir[Segment(last.value)]));
    }
  }

  ghost predicate OpensAs(fs: Fs, plan: Plan, exposed: set<nat>, established: bool)
  {
    && plan.outcome.Ok?
    && Ahead(exposed, plan.outcome.value)
    && Safe(InvOf(exposed, established), PublishedAs(plan.outcome.value), fs, plan.cmds)
  }

  lemma SyncPendingKeeps(fs: Fs, next: nat, exposed: set<nat>, established: bool)
    requires WellFormed(fs) && Inv(fs, exposed, established)
    requires NextSegmentPending in fs.dir && ReadNext(FileOf(fs, NextSegmentPending).bytes) == Some(next)
    ensures var fs1 := Exec(fs, Fsync(NextSegmentPending));
            && Inv(fs1, exposed, established) && Unshared(fs1) && Staged(fs1, next)
            && EnsureMarker(fs1) == EnsureMarker(fs)
            && (NextSegment in fs.dir ==> FileOf(fs1, NextSegment).bytes == FileOf(fs, NextSegment).bytes)
  {
    var fs1 := Exec(fs, Fsync(NextSegmentPending));
    SyncKeeps(fs, Fsync(NextSegmentPending), exposed, established);
    FsyncSlot(fs, NextSegmentPending, NextSegmentPending);
    KeptUnshared(fs, exposed, established);
    SameEnsureMarker(fs, fs1);
  }

  lemma BothLinked(fs: Fs)
    requires WellFormed(fs) && Unshared(fs)
    requires NextSegment in fs.dir && NextSegmentPending in fs.dir
    ensures fs.dir[NextSegment] == fs.dir[NextSegmentPending] ==> SameEntry(fs)
    ensures fs.dir[NextSegment] != fs.dir[NextSegmentPending] ==>
              SingleLink(fs, NextSegment) && SingleLink(fs, NextSegmentPending)
  {
    var i := fs.dir[NextSegment];
    if i == fs.dir[NextSegmentPending] {
      forall m | m in Links(fs, i) ensures m in {NextSegment, NextSegmentPending} {
        assert May(fs, m, Some(i)) && May(fs, NextSegment, Some(i));
      }
      assert Links(fs, i) == {NextSegment, NextSegmentPending};
    } else {
      OwnLink(fs, NextSegment);
      OwnLink(fs, NextSegmentPending);
    }
  }

  /** Both names are links of one inode: the publication is completed. */
  lemma OpenLinked(fs: Fs, next: nat, last: Option<nat>, exposed: set<nat>, established: bool)
    requires WellFormed(fs) && Unshared(fs) && Inv(fs, exposed, established) && IsLast(fs, last)
    requires ReadAnyLinks(fs, NextSegment) == Value(next) && NextSegmentPending in fs.dir
    requires fs.dir[NextSegment] == fs.dir[NextSegmentPending]
    ensures OpensAs(fs, OpenPublished(fs, next, last), exposed, established)
  {
    hide Inv, Safe, SlotOf, EnsureMarker, Staged;
    Present(fs, exposed, established);
    BothLinked(fs);
    var c, marker := Fsync(NextSegmentPending), EnsureMarker(fs);
    SyncPendingKeeps(fs, next, exposed, established);
    LastKnown(fs, last, next, exposed, established);
    SyncDropSafe(Exec(fs, c), next, marker, exposed, established);
    Step(InvOf(exposed, established), PublishedAs(next), fs, c, [SyncDir] + (DropPending + marker));
    FinishCalls(marker);
  }

  lemma FinishCalls(rest: seq<Cmd>)
    ensures [Fsync(NextSegmentPending)] + ([SyncDir] + (DropPending + rest)) == FinishPublication + rest
  {}

  /** A pending number that was not published yet replaces the final one, which is smaller. */
  lemma OpenNewer(fs: Fs, next: nat, pending: nat, last: Option<nat>, exposed: set<nat>, established: bool)
    requires WellFormed(fs) && Unshared(fs) && Inv(fs, exposed, established) && IsLast(fs, last)
    requires ReadAnyLinks(fs, NextSegment) == Value(next) && ReadAnyLinks(fs, NextSegmentPending) == Value(pending)
    requires fs.dir[NextSegment] != fs.dir[NextSegmentPending]
    ensures OpensAs(fs, OpenPublished(fs, next, last), exposed, established)
  {
    hide Inv, Safe, SlotOf, EnsureMarker, Staged;
    Present(fs, exposed, established);
    BothLinked(fs);
    var c, marker := Fsync(NextSegmentPending), EnsureMarker(fs);
    SyncPendingKeeps(fs, pending, exposed, established);
    LastKnown(fs, last, pending, exposed, established);
    ReplaceSafe(Exec(fs, c), pending, marker, exposed, established);
    Step(InvOf(exposed, established), PublishedAs(pending), fs, c, ReplaceWithPending + marker);
    assert [c] + (ReplaceWithPending + marker) == [c] + ReplaceWithPending + marker;
  }

  lemma OpenWithFinal(fs: Fs, next: nat, last: Option<nat>, exposed: set<nat>, established: bool)
    requires WellFormed(fs) && Unshared(fs) && Inv(fs, exposed, established) && IsLast(fs, last)
    requires ReadAnyLinks(fs, NextSegment) == Value(next) && !ReadAnyLinks(fs, NextSegmentPending).Value?
    ensures OpensAs(fs, OpenPublished(fs, next, last), exposed, established)
  {
    hide Inv, Safe, SlotOf, EnsureMarker;
    Present(fs, exposed, established);
    LastKnown(fs, last, next, exposed, established);
    if NextSegmentPending in fs.dir {
      BothLinked(fs);
      DropSafe(fs, next, EnsureMarker(fs), exposed, established);
    } else {
      OwnLink(fs, NextSegment);
      MarkerSafe(fs, next, exposed, established);
    }
  }

  /** Publishing a pending text found without a final one. */
  lemma OpenWithPending(fs: Fs, next: nat, last: Option<nat>, exposed: set<nat>, established: bool)
    requires WellFormed(fs) && Unshared(fs) && Inv(fs, exposed, established) && IsLast(fs, last)
    requires NextSegment !in fs.dir && ReadAnyLinks(fs, NextSegmentPending) == Value(next)
    ensures OpensAs(fs, OpenPlan(fs, last), exposed, established)
  {
    hide Inv, Safe, SlotOf, EnsureMarker;
    Present(fs, exposed, established);
    LastKnown(fs, last, next, exposed, established);
    OwnLink(fs, NextSegmentPending);
    PublishFoundSafe(fs, next, exposed, established);
    var marker := EnsureMarker(fs);
    var rest := [Fsync(NextSegmentPending)] + (PublishPending + marker);
    if ReservationMarker in fs.dir {
      OwnLink(fs, ReservationMarker);
      assert MarkerValid(fs);
      CheckThenPublishSafe(fs, next, exposed, established);
      assert CheckMarker + rest == (CheckMarker + [Fsync(NextSegmentPending)]) + PublishPending + marker;
    } else {
      assert rest == ([] + [Fsync(NextSegmentPending)]) + PublishPending + marker;
    }
  }

  lemma PublishFoundSafe(fs: Fs, next: nat, exposed: set<nat>, established: bool)
    requires WellFormed(fs) && Unshared(fs) && Inv(fs, exposed, established)
    requires NextSegment !in fs.dir && ReadAnyLinks(fs, NextSegmentPending) == Value(next)
    ensures Safe(InvOf(exposed, established), PublishedAs(next), fs,
                 [Fsync(NextSegmentPending)] + (PublishPending + EnsureMarker(fs)))
  {
    hide Inv, Safe, SlotOf, EnsureMarker;
    SyncPendingKeeps(fs, next, exposed, established);
    var fs1 := Exec(fs, Fsync(NextSegmentPending));
    PublishSafe(fs1, next, EnsureMarker(fs), exposed, established);
    Step(InvOf(exposed, established), PublishedAs(next), fs, Fsync(NextSegmentPending), PublishPending + EnsureMarker(fs));
  }

  lemma CheckThenPublishSafe(fs: Fs, next: nat, exposed: set<nat>, established: bool)
    requires WellFormed(fs) && Unshared(fs) && Inv(fs, exposed, established)
    requires NextSegment !in fs.dir && ReadAnyLinks(fs, NextSegmentPending) == Value(next)
    requires ReservationMarker in fs.dir
    ensures Safe(InvOf(exposed, established), PublishedAs(next), fs,
                 CheckMarker + ([Fsync(NextSegmentPending)] + (PublishPending + EnsureMarker(fs))))
  {
    hide Inv, Safe, SlotOf, EnsureMarker;
    var inv, goal := InvOf(exposed, established), PublishedAs(next);
    var c := Fsync(ReservationMarker);
    var fs1 := Exec(fs, c);
    var fs2 := Exec(fs1, SyncDir);
    SyncKeeps(fs, c, exposed, established);
    SyncKeeps(fs1, SyncDir, exposed, established);
    KeptUnshared(fs2, exposed, established);
    SameEnsureMarker(fs, fs2);
    PublishFoundSafe(fs2, next, exposed, established);
    var rest := [Fsync(NextSegmentPending)] + (PublishPending + EnsureMarker(fs));
    Step(inv, goal, fs1, SyncDir, rest);
    Step(inv, goal, fs, c, [SyncDir] + rest);
    assert [c] + ([SyncDir] + rest) == CheckMarker + rest;
  }

  lemma WritePublishSafe(fs: Fs, next: nat, marker: seq<Cmd>, exposed: set<nat>)
    requires WellFormed(fs) && Unshared(fs) && Inv(fs, exposed, false)
    requires NextSegment !in fs.dir && Fresh(fs, next, exposed) && marker == EnsureMarker(fs)
    requires NextSegmentPending !in fs.dir && next <= MAX_U64
    ensures Safe(InvOf(exposed, false), PublishedAs(next), fs, WritePending(next) + (PublishPending + marker))
  {
    hide Inv, Safe, SlotOf, EnsureMarker, Staged, Fresh;
    var fs1 := AfterWritePending(fs, next);
    WrittenStaged(fs, next);
    if Inv(fs1, exposed, false) {
      KeptUnshared(fs1, exposed, false);
      SameEnsureMarker(fs, fs1);
      PublishSafe(fs1, next, marker, exposed, false);
    }
    WritePendingSafe(fs, next, PublishPending + marker, PublishedAs(next), exposed, false);
  }

  /** Nothing published and nothing usable pending: the number follows the surviving segments. */
  lemma OpenDerivedSafe(fs: Fs, last: Option<nat>, exposed: set<nat>)
    requires WellFormed(fs) && Unshared(fs) && Inv(fs, exposed, false) && IsLast(fs, last)
    requires NextSegment !in fs.dir && !ReadAnyLinks(fs, NextSegmentPending).Value? && ReservationMarker !in fs.dir
    requires NextAfter(last).Ok?
    ensures OpensAs(fs, OpenPlan(fs, last), exposed, false)
  {
    hide Inv, Safe, SlotOf, EnsureMarker;
    var next := NextAfter(last).value;
    DerivedAhead(fs, last, exposed);
    Present(fs, exposed, false);
    LastKnown(fs, last, next, exposed, false);
    var marker := EnsureMarker(fs);
    var tail := WritePending(next) + (PublishPending + marker);
    if NextSegmentPending in fs.dir {
      OwnLink(fs, NextSegmentPending);
      DropDeriveSafe(fs, next, exposed);
      assert DropPending + tail == (([] + DropPending) + WritePending(next)) + PublishPending + marker;
    } else {
      assert Fresh(fs, next, exposed);
      WritePublishSafe(fs, next, marker, exposed);
      assert tail == ([] + WritePending(next)) + PublishPending + marker;
    }
  }

  lemma DropDeriveSafe(fs: Fs, next: nat, exposed: set<nat>)
    requires WellFormed(fs) && Unshared(fs) && Inv(fs, exposed, false)
    requires NextSegment !in fs.dir && ReservationMarker !in fs.dir
    requires NextSegmentPending in fs.dir && !ReadAnyLinks(fs, NextSegmentPending).Value?
    requires next <= MAX_U64 && Ahead(exposed, next)
    ensures Safe(InvOf(exposed, false), PublishedAs(next), fs,
                 DropPending + (WritePending(next) + (PublishPending + EnsureMarker(fs))))
  {
    hide Inv, Safe, SlotOf, EnsureMarker;
    var inv, goal := InvOf(exposed, false), PublishedAs(next);
    var c := Unlink(NextSegmentPending);
    var fs1 := Exec(fs, c);
    var fs2 := Exec(fs1, SyncDir);
    DropPendingKeeps(fs, exposed, false);
    SyncKeeps(fs1, SyncDir, exposed, false);
    KeptUnshared(fs2, exposed, false);
    SameEnsureMarker(fs, fs2);
    Present(fs2, exposed, false);
    assert Fresh(fs2, next, exposed);
    var tail := WritePending(next) + (PublishPending + EnsureMarker(fs));
    WritePublishSafe(fs2, next, EnsureMarker(fs), exposed);
    Step(inv, goal, fs1, SyncDir, tail);
    Step(inv, goal, fs, c, [SyncDir] + tail);
    assert [c] + ([SyncDir] + tail) == DropPending + tail;
  }

  ghost function Anything(): Fs -> bool { fs => true }

  /** The numbers are used up: a malformed pending text is still dropped. */
  ghost predicate UsedUp(fs: Fs, plan: Plan, exposed: set<nat>)
  {
    && plan.outcome == Err(Exhausted)
    && (exists n :: n in exposed && n >= MAX_U64)
    && Safe(InvOf(exposed, false), Anything(), fs, plan.cmds)
  }

  lemma UsedUpSafe(fs: Fs, last: Option<nat>, exposed: set<nat>)
    requires WellFormed(fs) && Unshared(fs) && Inv(fs, exposed, false) && IsLast(fs, last)
    requires NextSegment !in fs.dir && !ReadAnyLinks(fs, NextSegmentPending).Value? && ReservationMarker !in fs.dir
    requires NextAfter(last).Err?
    ensures UsedUp(fs, OpenPlan(fs, last), exposed)
  {
    hide Inv, Safe, SlotOf;
    DerivedAhead(fs, last, exposed);
    var inv, goal := InvOf(exposed, false), Anything();
    if NextSegmentPending in fs.dir {
      OwnLink(fs, NextSegmentPending);
      var c := Unlink(NextSegmentPending);
      var fs1 := Exec(fs, c);
      DropPendingKeeps(fs, exposed, false);
      SyncKeeps(fs1, SyncDir, exposed, false);
      Done(inv, goal, Exec(fs1, SyncDir));
      Step(inv, goal, fs1, SyncDir, []);
      assert [SyncDir] + [] == [SyncDir];
      Step(inv, goal, fs, c, [SyncDir]);
      assert [c] + [SyncDir] == [] + DropPending;
    } else {
      Done(inv, goal, fs);
    }
  }

  /**
   From every reachable directory the open either publishes a number ahead of everything exposed, through
   calls that may stop anywhere, or reports that the numbers are used up. Once the reservation has been
   established the number is never derived from the surviving segments.
   */
  lemma OpenSafe(fs: Fs, last: Option<nat>, exposed: set<nat>, established: bool)
    requires WellFormed(fs) && Inv(fs, exposed, established) && IsLast(fs, last)
    ensures var plan := OpenPlan(fs, last);
            || OpensAs(fs, plan, exposed, established)
            || (!established && UsedUp(fs, plan, exposed))
    ensures established ==> !Derives(fs)
  {
    hide Inv, Safe, SlotOf, OpenPublished;
    KeptUnshared(fs, exposed, established);
    Present(fs, exposed, established);
    match ReadAnyLinks(fs, NextSegment)
    case Value(next) =>
      if ReadAnyLinks(fs, NextSegmentPending).Value? {
        if fs.dir[NextSegment] == fs.dir[NextSegmentPending] {
          OpenLinked(fs, next, last, exposed, established);
        } else {
          OpenNewer(fs, next, ReadAnyLinks(fs, NextSegmentPending).v, last, exposed, established);
        }
      } else {
        OpenWithFinal(fs, next, last, exposed, established);
      }
    case NotFound =>
      if NextSegmentPending in fs.dir { OwnLink(fs, NextSegmentPending); }
      if ReadAnyLinks(fs, NextSegmentPending).Value? {
        OpenWithPending(fs, ReadAnyLinks(fs, NextSegmentPending).v, last, exposed, established);
      } else {
        if NextAfter(last).Ok? { OpenDerivedSafe(fs, last, exposed); } else { UsedUpSafe(fs, last, exposed); }
      }
    case Invalid =>
  }
}
