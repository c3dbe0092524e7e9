/** The segment files over every run of the journal, phase by phase. */
module JournalStorage {
  import opened Wrappers
  import opened FileSystem
  import opened Journal
  import opened JournalNumbers
  import opened JournalSegments

  /** Every segment but one is settled. */
  ghost predicate SettledBut(s: Sys, busy: Option<nat>)
  {
    forall n: nat, i: Ino | Holds(s.fs, n, i) && busy != Some(n) :: i < |s.fs.files| && Settled(s.fs.files[i])
  }

  ghost predicate Newest(s: Sys, n: nat) { n in s.hist && forall m | m in s.hist :: m <= n }

  /** An opening appender has found every segment and no removal is pending. */
  ghost predicate Surveyed(s: Sys, kept: set<nat>)
  {
    && s.fs.alt == {}
    && (forall n: nat :: n in kept <==> Segment(n) in s.fs.dir)
    && (forall n | n in kept :: n in s.hist)
  }

  ghost predicate CompleteFile(fs: Fs, n: nat)
    requires WellFormed(fs)
  {
    Segment(n) in fs.dir && EndsLine(FileOf(fs, Segment(n)).bytes)
  }

  function BusyNumber(w: Writer): Option<nat>
  {
    if w.active.Some? then Some(w.active.value.number) else None
  }

  /** The file that appends go to. */
  ghost predicate ActiveOk(s: Sys, a: Active)
    requires WellFormed(s.fs)
  {
    && Newest(s, a.number) && a.number !in s.pruned && a.number in s.acked && s.acked[a.number] == a.bytes
    && Segment(a.number) in s.fs.dir
    && (forall e :: (Segment(a.number), e) !in s.fs.alt)
    && a.bytes <= |FileOf(s.fs, Segment(a.number)).bytes|
  }

  /** Nothing was cut off the active file, and it holds `more` bytes that are not acknowledged. */
  ghost predicate Intact(s: Sys, a: Active, more: nat)
    requires WellFormed(s.fs)
  {
    && Segment(a.number) in s.fs.dir && a.number in s.hist
    && var f := FileOf(s.fs, Segment(a.number));
       f.bytes == s.hist[a.number] && f.lost == [] && |f.bytes| == a.bytes + more && EndsLine(f.bytes)
  }

  ghost predicate OpenOk(s: Sys, w: Writer)
    requires WellFormed(s.fs)
  {
    && (forall n | n in w.tracked :: n in s.hist)
    && (forall n: nat | Segment(n) in s.fs.dir && Wrote(s, n) :: n in w.tracked)
    && SettledBut(s, BusyNumber(w))
    && (w.active.Some? ==> ActiveOk(s, w.active.value) && w.active.value.number in w.tracked)
    && (w.poisoned ==> w.active.Some?)
  }

  ghost predicate Resting(s: Sys, w: Writer)
    requires WellFormed(s.fs)
  {
    w.active.Some? && !w.poisoned ==>
      Intact(s, w.active.value, 0) && Settled(FileOf(s.fs, Segment(w.active.value.number)))
  }

  predicate IsRecord(record: Bytes) { record != [] && EndsLine(record) }

  ghost predicate PhaseOk(s: Sys)
    requires WellFormed(s.fs)
  {
    match s.phase
    case Down => s.todo == []
    case Opening(_) => true
    case Cleaning(_, kept) => Surveyed(s, kept) && s.todo == []
    case Dropping(_, kept, g) =>
      && g in kept
      && (|| (s.todo == Drop(g) && Surveyed(s, kept))
          || (s.todo == [SyncDir] && g !in Found(s.fs) && DroppedFrom(s, kept, g))
          || (s.todo == [] && Surveyed(s, kept - {g})))
    case Repairing(_, kept) =>
      && Surveyed(s, kept)
      && (|| (s.todo == [] && forall n | n in kept :: CompleteFile(s.fs, n))
          || (exists n :: Newest(s, n) && n in kept
                && (forall m | m in kept && m != n :: CompleteFile(s.fs, m))
                && (|| (s.todo == [SetLen(Segment(n), ValidLen(FileOf(s.fs, Segment(n)).bytes)), Fsync(Segment(n))])
                    || (s.todo == [Fsync(Segment(n))] && CompleteFile(s.fs, n)))))
    case Sealing(_, kept, left) =>
      && Surveyed(s, kept) && left <= kept
      && (forall n | n in kept :: CompleteFile(s.fs, n))
      && (|| (s.todo == [] && forall n | n in kept - left :: Settled(FileOf(s.fs, Segment(n))))
          || (exists n :: n in kept - left && s.todo == [Fsync(Segment(n))]
                && forall m | m in kept - left && m != n :: Settled(FileOf(s.fs, Segment(m)))))
    case Finishing(_, kept) =>
      Surveyed(s, kept) && SettledBut(s, None) && (s.todo == [] || s.todo == [SyncDir])
    case Ready(w) => OpenOk(s, w) && Resting(s, w) && s.todo == []
    case Rotating(w, r) => OpenOk(s, w) && w.active.None? && !w.poisoned && IsRecord(r) && s.todo == []
    case Pruning(w, r, g) =>
      && OpenOk(s, w) && w.active.None? && !w.poisoned && IsRecord(r)
      && (|| (s.todo == Drop(g) && Segment(g) in s.fs.dir)
          || s.todo == [SyncDir]
          || (s.todo == [] && s.fs.alt == {}))
      && (s.todo != Drop(g) ==> Segment(g) !in s.fs.dir)
    case Reserving(w, r) =>
      OpenOk(s, w) && w.active.None? && !w.poisoned && IsRecord(r)
    case Creating(w, r, n) =>
      && OpenOk(s, w) && w.active.None? && !w.poisoned && IsRecord(r)
      && (|| s.todo == [Create(Segment(n)), SyncDir]
          || (Newest(s, n) && n !in s.pruned && s.hist[n] == [] && Segment(n) in s.fs.dir
              && (s.todo == [SyncDir] || (s.todo == [] && s.fs.alt == {}))))
    case Writing(w, r) =>
      && OpenOk(s, w) && w.active.Some? && !w.poisoned && IsRecord(r)
      && (|| (s.todo == [Write(Segment(w.active.value.number), r)] && Intact(s, w.active.value, 0))
          || (s.todo == [] && Intact(s, w.active.value, |r|)))
    case Truncating(w) =>
      && OpenOk(s, w) && w.active.Some? && w.poisoned
      && (s.todo == [] || s.todo == [SetLen(Segment(w.active.value.number), w.active.value.bytes)])
    case Syncing(w, r) =>
      && OpenOk(s, w) && w.active.Some? && !w.poisoned && IsRecord(r) && Intact(s, w.active.value, |r|)
      && (|| s.todo == [Fsync(Segment(w.active.value.number))]
          || (s.todo == [] && Settled(FileOf(s.fs, Segment(w.active.value.number)))))
  }

  ghost predicate DroppedFrom(s: Sys, kept: set<nat>, g: nat)
  {
    && (forall n: nat :: n in kept - {g} <==> Segment(n) in s.fs.dir)
    && (forall n | n in kept :: n in s.hist)
    && (forall n: nat, i: Ino | Holds(s.fs, n, i) :: n in kept)
  }

  ghost predicate StorageInv(s: Sys)
  {
    NumbersInv(s) && WellFormed(s.fs) && Core(s) && PhaseOk(s)
  }

  /** A directory whose segments, if any, are complete but for the last. */
  ghost predicate InitStorage(s: Sys)
  {
    && Init(s)
    && (forall n | n in s.hist ::
          && s.acked[n] == ValidLen(s.hist[n])
          && var f := FileOf(s.fs, Segment(n)); f.lost == [] && f.synced == |f.bytes|)
    && (forall m, n | m in s.hist && n in s.hist && m < n :: EndsLine(s.hist[m]))
  }
}
