/**
 The two-file segment reservation. Each procedure is given as the list of calls it makes, which its first
 reads of the directory decide, together with what it returns once they are done.
 */
module Reservation {
  import opened Wrappers
  import opened Decimal
  import opened FileSystem
  import opened MetadataText

  datatype Failure = InvalidData | Exhausted

  /** The calls of one procedure and its result when none of them fails. */
  datatype Plan = Plan(cmds: seq<Cmd>, outcome: Result<nat, Failure>)

  datatype Reading = NotFound | Invalid | Value(v: nat)

  predicate SingleLink(fs: Fs, n: Name)
    requires n in fs.dir
  {
    |Links(fs, fs.dir[n])| == 1
  }

  /** `read_next_segment_allow_publication_link` */
  function ReadAnyLinks(fs: Fs, n: Name): Reading
    requires WellFormed(fs)
  {
    if n !in fs.dir then NotFound else
    match ReadNext(FileOf(fs, n).bytes)
    case None => Invalid
    case Some(v) => Value(v)
  }

  /** `read_next_segment` */
  function ReadSingle(fs: Fs, n: Name): Reading
    requires WellFormed(fs)
  {
    if n in fs.dir && !SingleLink(fs, n) then Invalid else ReadAnyLinks(fs, n)
  }

  predicate SameEntry(fs: Fs)
    requires NextSegment in fs.dir && NextSegmentPending in fs.dir
  {
    fs.dir[NextSegment] == fs.dir[NextSegmentPending] && |Links(fs, fs.dir[NextSegment])| == 2
  }

  predicate MarkerValid(fs: Fs)
    requires WellFormed(fs) && ReservationMarker in fs.dir
  {
    SingleLink(fs, ReservationMarker) && FileOf(fs, ReservationMarker).bytes == MARKER_TEXT
  }

  const PublishPending: seq<Cmd> :=
    [Link(NextSegmentPending, NextSegment), SyncDir, Unlink(NextSegmentPending), SyncDir]
  const ReplaceWithPending: seq<Cmd> := [SyncDir, Unlink(NextSegment), SyncDir] + PublishPending
  const CheckMarker: seq<Cmd> := [Fsync(ReservationMarker), SyncDir]
  const CreateMarker: seq<Cmd> :=
    [Create(ReservationMarker), Write(ReservationMarker, MARKER_TEXT), Fsync(ReservationMarker), SyncDir]
  const DropPending: seq<Cmd> := [Unlink(NextSegmentPending), SyncDir]
  const FinishPublication: seq<Cmd> := [Fsync(NextSegmentPending), SyncDir] + DropPending

  function WritePending(next: nat): seq<Cmd>
  {
    [Create(NextSegmentPending), Write(NextSegmentPending, NextText(next)), Fsync(NextSegmentPending)]
  }

  /** `ensure_reservation_marker` */
  function EnsureMarker(fs: Fs): seq<Cmd>
    requires WellFormed(fs)
  {
    if ReservationMarker !in fs.dir then CreateMarker
    else if MarkerValid(fs) then CheckMarker
    else [Unlink(ReservationMarker), SyncDir] + CreateMarker
  }

  predicate AheadOf(next: nat, last: Option<nat>) { last.None? || last.value < next }

  function ValidateAhead(next: nat, last: Option<nat>): Result<nat, Failure>
  {
    if AheadOf(next, last) then Ok(next) else Err(InvalidData)
  }

  /** `next_after_segments`: the least number ahead of all segments */
  function NextAfter(last: Option<nat>): (r: Result<nat, Failure>)
    ensures r.Ok? ==> AheadOf(r.value, last) && r.value <= MAX_U64 && forall m: nat | AheadOf(m, last) :: r.value <= m
    ensures r.Err? ==> r == Err(Exhausted) && forall m: nat | AheadOf(m, last) :: m > MAX_U64
  {
    if last.None? then Ok(0) else if last.value >= MAX_U64 then Err(Exhausted) else Ok(last.value + 1)
  }

  /** The branch of `open_next_segment` that derives the number from the surviving segments. */
  predicate Derives(fs: Fs)
    requires WellFormed(fs)
  {
    && NextSegment !in fs.dir
    && !(ReadSingle(fs, NextSegmentPending).Value?)
    && (ReservationMarker in fs.dir ==> MarkerValid(fs) && NextSegmentPending in fs.dir)
  }

  /** `open_next_segment`; `last` is the greatest segment number found. */
  function OpenPlan(fs: Fs, last: Option<nat>): Plan
    requires WellFormed(fs)
  {
    match ReadAnyLinks(fs, NextSegment)
    case Invalid => Plan([], Err(InvalidData))
    case Value(next) => OpenPublished(fs, next, last)
    case NotFound =>
      if ReservationMarker in fs.dir && !MarkerValid(fs) then Plan([], Err(InvalidData)) else
      var seen := if ReservationMarker in fs.dir then CheckMarker else [];
      match ReadSingle(fs, NextSegmentPending)
      case Value(next) => OpenPending(fs, seen + [Fsync(NextSegmentPending)], next, last)
      case NotFound =>
        if ReservationMarker in fs.dir then Plan(seen, Err(InvalidData)) else OpenDerived(fs, seen, last)
      case Invalid => OpenDerived(fs, seen + DropPending, last)
  }

  function OpenPublished(fs: Fs, next: nat, last: Option<nat>): Plan
    requires WellFormed(fs) && NextSegment in fs.dir
  {
    match ReadAnyLinks(fs, NextSegmentPending)
    case Value(pending) =>
      if pending == next && SameEntry(fs) then
        Plan(FinishPublication + EnsureMarker(fs), ValidateAhead(next, last))
      else if !SingleLink(fs, NextSegment) || !SingleLink(fs, NextSegmentPending) || pending <= next then
        Plan([Fsync(NextSegmentPending)], Err(InvalidData))
      else
        Plan([Fsync(NextSegmentPending)] + ReplaceWithPending + EnsureMarker(fs), ValidateAhead(pending, last))
    case NotFound =>
      if !SingleLink(fs, NextSegment) then Plan([], Err(InvalidData))
      else Plan(EnsureMarker(fs), ValidateAhead(next, last))
    case Invalid =>
      if !SingleLink(fs, NextSegment) then Plan(DropPending, Err(InvalidData))
      else Plan(DropPending + EnsureMarker(fs), ValidateAhead(next, last))
  }

  function OpenPending(fs: Fs, done: seq<Cmd>, next: nat, last: Option<nat>): Plan
    requires WellFormed(fs)
  {
    if !AheadOf(next, last) then Plan(done, Err(InvalidData))
    else Plan(done + PublishPending + EnsureMarker(fs), Ok(next))
  }

  function OpenDerived(fs: Fs, done: seq<Cmd>, last: Option<nat>): Plan
    requires WellFormed(fs)
  {
    match NextAfter(last)
    case Err(e) => Plan(done, Err(e))
    case Ok(next) => OpenPending(fs, done + WritePending(next), next, last)
  }

  /** `reserve_next_segment` */
  function ReservePlan(fs: Fs, current: nat): Plan
    requires WellFormed(fs)
  {
    if ReadSingle(fs, NextSegment) != Value(current) then Plan([], Err(InvalidData))
    else if current >= MAX_U64 then Plan([], Err(Exhausted))
    else Plan((if NextSegmentPending in fs.dir then DropPending else [])
              + WritePending(current + 1) + ReplaceWithPending, Ok(current + 1))
  }

  lemma OnlyName(fs: Fs, n: Name)
    requires n in fs.dir
    ensures SingleLink(fs, n) <==> forall m | m in fs.dir && fs.dir[m] == fs.dir[n] :: m == n
  {
    var links := Links(fs, fs.dir[n]);
    assert |links - {n}| == |links| - 1;
    if SingleLink(fs, n) {
      assert links - {n} == {};
      forall m | m in fs.dir && fs.dir[m] == fs.dir[n] ensures m == n {
        assert m in links;
      }
    } else {
      var m :| m in links - {n};
    }
  }

  lemma TwoNames(fs: Fs)
    requires NextSegment in fs.dir && NextSegmentPending in fs.dir
    ensures SameEntry(fs) <==>
              && fs.dir[NextSegment] == fs.dir[NextSegmentPending]
              && forall m | m in fs.dir && fs.dir[m] == fs.dir[NextSegment] :: m == NextSegment || m == NextSegmentPending
  {
    var links := Links(fs, fs.dir[NextSegment]);
    if fs.dir[NextSegment] == fs.dir[NextSegmentPending] {
      var others := links - {NextSegment} - {NextSegmentPending};
      assert |links - {NextSegment}| == |links| - 1 && |others| == |links - {NextSegment}| - 1;
      if SameEntry(fs) {
        forall m | m in fs.dir && fs.dir[m] == fs.dir[NextSegment] ensures m == NextSegment || m == NextSegmentPending {
          assert m !in others;
        }
      } else {
        assert others != {};
        var m :| m in others;
      }
    }
  }

  /** The marker counts only as a file of one name that holds a one and a newline. */
  lemma MarkerMeans(fs: Fs)
    requires WellFormed(fs) && ReservationMarker in fs.dir
    ensures MarkerValid(fs) <==>
              && FileOf(fs, ReservationMarker).bytes == "1\n"
              && forall m | m in fs.dir && fs.dir[m] == fs.dir[ReservationMarker] :: m == ReservationMarker
  {
    OnlyName(fs, ReservationMarker);
  }

  /** A name is read as a number exactly if it is the only name of a file with that number's text (or one with a plus sign). */
  lemma ReadSingleMeans(fs: Fs, n: Name, v: nat)
    requires WellFormed(fs) && (n in fs.dir && FileOf(fs, n).bytes != [] ==> FileOf(fs, n).bytes[0] != '+')
    ensures ReadSingle(fs, n) == Value(v) <==>
              && n in fs.dir && v <= MAX_U64 && FileOf(fs, n).bytes == NextText(v)
              && forall m | m in fs.dir && fs.dir[m] == fs.dir[n] :: m == n
  {
    if n in fs.dir {
      OnlyName(fs, n);
      ReadNextExact(FileOf(fs, n).bytes, v);
    }
  }

  /** No other name leads to the same file. */
  predicate Alone(fs: Fs, n: Name)
    requires n in fs.dir
  {
    forall m | m in fs.dir && fs.dir[m] == fs.dir[n] :: m == n
  }

  /** The two reservation names lead to one file, and no others do. */
  predicate Twins(fs: Fs)
    requires NextSegment in fs.dir && NextSegmentPending in fs.dir
  {
    && fs.dir[NextSegment] == fs.dir[NextSegmentPending]
    && forall m | m in fs.dir && fs.dir[m] == fs.dir[NextSegment] :: m == NextSegment || m == NextSegmentPending
  }

  /**
   Which number an open that is left alone returns, for every directory: the published one, the pending one if that
   is ahead or nothing is published, or the next after the segments; always ahead of the segments, and none if the
   names do not fit together.
   */
  lemma OpenOutcome(fs: Fs, last: Option<nat>, v: nat)
    requires WellFormed(fs)
    ensures OpenPlan(fs, last).outcome == Ok(v) <==>
              && AheadOf(v, last)
              && if NextSegment in fs.dir then
                   var published, pending := ReadAnyLinks(fs, NextSegment), ReadAnyLinks(fs, NextSegmentPending);
                   && published.Value?
                   && if pending.Value? then
                        if pending.v == published.v && Twins(fs) then v == published.v
                        else Alone(fs, NextSegment) && Alone(fs, NextSegmentPending) && v == pending.v > published.v
                      else Alone(fs, NextSegment) && v == published.v
                 else
                   && (ReservationMarker in fs.dir ==>
                         FileOf(fs, ReservationMarker).bytes == "1\n" && Alone(fs, ReservationMarker))
                   && if NextSegmentPending in fs.dir && Alone(fs, NextSegmentPending)
                         && ReadAnyLinks(fs, NextSegmentPending).Value?
                      then v == ReadAnyLinks(fs, NextSegmentPending).v
                      else && (ReservationMarker in fs.dir ==> NextSegmentPending in fs.dir)
                           && v <= MAX_U64 && forall m: nat | AheadOf(m, last) :: v <= m
  {
    if NextSegment in fs.dir { OnlyName(fs, NextSegment); }
    if NextSegmentPending in fs.dir { OnlyName(fs, NextSegmentPending); }
    if ReservationMarker in fs.dir { MarkerMeans(fs); }
    if NextSegment in fs.dir && NextSegmentPending in fs.dir { TwoNames(fs); }
    hide Links, ReadNext, EnsureMarker, SingleLink, SameEntry, MarkerValid;
    if NextSegment !in fs.dir { LeastAhead(last, v); }
  }

  lemma LeastAhead(last: Option<nat>, v: nat)
    ensures NextAfter(last) == Ok(v) <==> AheadOf(v, last) && v <= MAX_U64 && forall m: nat | AheadOf(m, last) :: v <= m
  {
    if NextAfter(last).Ok? {
      assert AheadOf(NextAfter(last).value, last);
    }
  }

  /** A reservation that goes ahead is for the next number; one that does not makes no call. */
  lemma ReserveOutcome(fs: Fs, current: nat)
    requires WellFormed(fs)
    ensures ReservePlan(fs, current).outcome.Ok? ==> ReservePlan(fs, current).outcome == Ok(current + 1)
    ensures ReservePlan(fs, current).outcome.Err? ==> ReservePlan(fs, current).cmds == []
  {}

  /** Calls on the reservation names leave the marker as it was. */
  ghost predicate SameMarker(fs: Fs, fs': Fs)
    requires WellFormed(fs) && WellFormed(fs')
  {
    && Lookup(fs', ReservationMarker) == Lookup(fs, ReservationMarker)
    && (ReservationMarker in fs.dir ==> FileOf(fs', ReservationMarker).bytes == FileOf(fs, ReservationMarker).bytes)
  }
}
