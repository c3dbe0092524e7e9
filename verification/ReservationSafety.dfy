/** Why the reservation survives a crash or a failed call at any point of any procedure. */
module ReservationSafety {
  import opened Wrappers
  import opened Decimal
  import opened FileSystem
  import opened MetadataText
  import opened CrashViews
  import opened Procedures
  import opened Reservation
  import opened ReservationOutcomes

  /** Names that one protocol links to the same inode while it publishes. */
  predicate Partners(a: Name, b: Name)
  {
    || (a == NextSegment && b == NextSegmentPending)
    || (a == NextSegmentPending && b == NextSegment)
    || (a == Incarnation && b == IncarnationPending)
    || (a == IncarnationPending && b == Incarnation)
  }

  ghost predicate Unshared(fs: Fs)
  {
    forall a, b, i {:trigger May(fs, a, Some(i)), May(fs, b, Some(i))}
      | May(fs, a, Some(i)) && May(fs, b, Some(i)) && a != b :: Partners(a, b)
  }

  /** Segment names in sight were exposed; before the reservation is established they have not changed. */
  ghost predicate SegmentsKnown(fs: Fs, exposed: set<nat>, established: bool)
  {
    && (forall n, i {:trigger May(fs, Segment(n), Some(i))} | May(fs, Segment(n), Some(i)) :: n in exposed)
    && (!established ==>
          && (forall n | n in exposed :: Segment(n) in fs.dir)
          && (forall a | a in fs.alt :: !a.0.Segment?))
  }

  ghost predicate Inv(fs: Fs, exposed: set<nat>, established: bool)
  {
    && WellFormed(fs)
    && Unshared(fs)
    && SegmentsKnown(fs, exposed, established)
    && Sound(SlotOf(fs, NextSegment), SlotOf(fs, NextSegmentPending), SlotOf(fs, ReservationMarker), exposed, established)
  }

  /** The next number is published, durable and alone. */
  ghost predicate Published(fs: Fs, v: nat)
    requires WellFormed(fs)
  {
    && fs.alt == {}
    && NextSegment in fs.dir && NextSegmentPending !in fs.dir && ReservationMarker in fs.dir
    && ReadNext(FileOf(fs, NextSegment).bytes) == Some(v)
    && FileOf(fs, ReservationMarker).bytes == MARKER_TEXT
    && SlotOf(fs, NextSegment).all == {Whole(FileOf(fs, NextSegment).bytes, fs.dir[NextSegment])}
    && SlotOf(fs, ReservationMarker).all == {Whole(MARKER_TEXT, fs.dir[ReservationMarker])}
  }

  ghost function InvOf(exposed: set<nat>, established: bool): Fs -> bool
  {
    fs => Inv(fs, exposed, established)
  }

  ghost function PublishedAs(v: nat): Fs -> bool
  {
    fs => WellFormed(fs) && Published(fs, v)
  }

  /** A machine crash keeps the invariant. */
  lemma CrashKeeps(fs: Fs, fs': Fs, exposed: set<nat>, established: bool)
    requires Inv(fs, exposed, established) && Crash(fs, fs')
    ensures Inv(fs', exposed, established)
  {
    CrashWellFormed(fs, fs');
    CrashSlot(fs, fs', NextSegment);
    CrashSlot(fs, fs', NextSegmentPending);
    CrashSlot(fs, fs', ReservationMarker);
    SettleSound(SlotOf(fs, NextSegment), SlotOf(fs, NextSegmentPending), SlotOf(fs, ReservationMarker),
                SlotOf(fs', NextSegment), SlotOf(fs', NextSegmentPending), SlotOf(fs', ReservationMarker),
                exposed, established);
    forall n, i | May(fs', n, Some(i)) ensures May(fs, n, Some(i)) {
      assert May(fs, n, Lookup(fs', n));
    }
    forall n | n in exposed && !established ensures Segment(n) in fs'.dir {
      assert May(fs, Segment(n), Lookup(fs', Segment(n)));
    }
  }

  // ----- one call at a time -----

  predicate MetadataCmd(c: Cmd)
  {
    match c
    case SyncDir => true
    case Create(n) => !n.Segment?
    case Link(from, to) => Partners(from, to)
    case Unlink(n) => !n.Segment?
    case Write(n, _) => !n.Segment?
    case Fsync(n) => !n.Segment?
    case SetLen(_, _) => false
  }

  lemma CmdFrame(fs: Fs, c: Cmd, exposed: set<nat>, established: bool)
    requires WellFormed(fs) && Unshared(fs) && SegmentsKnown(fs, exposed, established)
    requires MetadataCmd(c) && Enabled(fs, c)
    ensures var fs' := Exec(fs, c); Unshared(fs') && SegmentsKnown(fs', exposed, established)
  {
    var fs' := Exec(fs, c);
    forall n, i | May(fs', n, Some(i))
      ensures || May(fs, n, Some(i))
              || (c.Create? && n == c.name && i == |fs.files|)
              || (c.Link? && n == c.to && May(fs, c.from, Some(i)))
    {
    }
    forall a, b, i | May(fs', a, Some(i)) && May(fs', b, Some(i)) && a != b ensures Partners(a, b) {
      assert c.Create? ==> !May(fs, a, Some(|fs.files|)) && !May(fs, b, Some(|fs.files|));
      if c.Link? {
        assert May(fs, a, Some(i)) || (a == c.to && May(fs, c.from, Some(i)));
        assert May(fs, b, Some(i)) || (b == c.to && May(fs, c.from, Some(i)));
      }
    }
  }

  /** Syncing the directory or a file only narrows what a crash may leave. */
  lemma SyncKeeps(fs: Fs, c: Cmd, exposed: set<nat>, established: bool)
    requires Inv(fs, exposed, established) && Enabled(fs, c)
    requires c.SyncDir? || (c.Fsync? && !c.name.Segment?)
    ensures Inv(Exec(fs, c), exposed, established)
  {
    CmdFrame(fs, c, exposed, established);
    SyncNarrows(fs, c, NextSegment);
    SyncNarrows(fs, c, NextSegmentPending);
    SyncNarrows(fs, c, ReservationMarker);
    var fs' := Exec(fs, c);
    NarrowSound(SlotOf(fs, NextSegment), SlotOf(fs, NextSegmentPending), SlotOf(fs, ReservationMarker),
                SlotOf(fs', NextSegment), SlotOf(fs', NextSegmentPending), SlotOf(fs', ReservationMarker),
                exposed, established);
  }

  lemma SyncNarrows(fs: Fs, c: Cmd, n: Name)
    requires WellFormed(fs) && Enabled(fs, c) && (c.SyncDir? || c.Fsync?)
    ensures Narrower(SlotOf(Exec(fs, c), n), SlotOf(fs, n))
  {
    if c.SyncDir? {
      SyncDirSlot(fs, n);
      SlotShape(fs, n);
    } else {
      FsyncSlot(fs, c.name, n);
    }
  }

  lemma OwnLink(fs: Fs, n: Name)
    requires WellFormed(fs) && Unshared(fs) && n in fs.dir
    requires forall m | m in fs.dir && Partners(n, m) :: fs.dir[m] != fs.dir[n]
    ensures SingleLink(fs, n)
  {
    assert Links(fs, fs.dir[n]) == {n} by {
      forall m | m in Links(fs, fs.dir[n]) ensures m == n {
        assert May(fs, m, Some(fs.dir[n])) && May(fs, n, Some(fs.dir[n]));
      }
    }
  }

  /** What the invariant says of the directory as the process reads it. */
  lemma Present(fs: Fs, exposed: set<nat>, established: bool)
    requires Inv(fs, exposed, established)
    ensures var f := Current(fs, NextSegment);
            var p := Current(fs, NextSegmentPending);
            var m := Current(fs, ReservationMarker);
            && Good(f, p, m, exposed, established)
            && (f.Whole? && p != f ==> Absent !in SlotOf(fs, NextSegment).all)
            && (f.Whole? ==> forall a | a in SlotOf(fs, NextSegment).all && a.Whole? :: Number(a) <= Number(f))
            && (f.Absent? && !m.Whole? ==> forall a | a in SlotOf(fs, NextSegment).all :: !a.Whole?)
            && (established ==> forall c | c in SlotOf(fs, ReservationMarker).all :: c.Whole?)
  {
    SlotShape(fs, NextSegment);
    SlotShape(fs, NextSegmentPending);
    SlotShape(fs, ReservationMarker);
    PresentOutcomes(SlotOf(fs, NextSegment), SlotOf(fs, NextSegmentPending), SlotOf(fs, ReservationMarker),
                    exposed, established);
  }

  lemma PresentOutcomes(f: Slot, p: Slot, m: Slot, exposed: set<nat>, established: bool)
    requires Sound(f, p, m, exposed, established) && Shaped(f) && Shaped(p) && Shaped(m)
    ensures Good(f.now, p.now, m.now, exposed, established)
    ensures f.now.Whole? && p.now != f.now ==> Absent !in f.all
    ensures f.now.Whole? ==> forall a | a in f.all && a.Whole? :: Number(a) <= Number(f.now)
    ensures f.now.Absent? && !m.now.Whole? ==> forall a | a in f.all :: !a.Whole?
    ensures established ==> forall c | c in m.all :: c.Whole?
  {
    forall c | c in m.all ensures Good(f.now, p.now, c, exposed, established) {}
  }

  // ----- the marker -----

  /** A published number without a pending link. */
  ghost predicate Sole(fs: Fs, next: nat)
    requires WellFormed(fs)
  {
    && NextSegment in fs.dir && NextSegmentPending !in fs.dir
    && ReadNext(FileOf(fs, NextSegment).bytes) == Some(next)
  }

  /** With the number published, any marker state is repaired and the open ends established. */
  lemma MarkerSafe(fs: Fs, next: nat, exposed: set<nat>, established: bool)
    requires Inv(fs, exposed, established) && Sole(fs, next)
    ensures Safe(InvOf(exposed, established), PublishedAs(next), fs, EnsureMarker(fs))
  {
    if ReservationMarker !in fs.dir {
      MarkerCreateSafe(fs, next, exposed, established);
    } else {
      OwnLink(fs, ReservationMarker);
      if MarkerValid(fs) {
        MarkerCheckSafe(fs, next, exposed, established);
      } else {
        MarkerReplaceSafe(fs, next, exposed, established);
      }
    }
  }

  lemma MarkerUnlinkKeeps(fs: Fs, next: nat, exposed: set<nat>, established: bool)
    requires Inv(fs, exposed, established) && Sole(fs, next)
    requires ReservationMarker in fs.dir && FileOf(fs, ReservationMarker).bytes != MARKER_TEXT
    ensures Inv(Exec(fs, Unlink(ReservationMarker)), exposed, established)
  {
    var c := Unlink(ReservationMarker);
    Rivals(fs, next, exposed, established);
    UnlinkSlot(fs, ReservationMarker, NextSegment);
    UnlinkSlot(fs, ReservationMarker, NextSegmentPending);
    CmdFrame(fs, c, exposed, established);
    MarkerSound(SlotOf(fs, NextSegment), SlotOf(fs, NextSegmentPending), SlotOf(fs, ReservationMarker),
                SlotOf(Exec(fs, c), ReservationMarker), exposed);
  }

  lemma MarkerReplaceSafe(fs: Fs, next: nat, exposed: set<nat>, established: bool)
    requires WellFormed(fs) && Inv(fs, exposed, established) && Sole(fs, next)
    requires ReservationMarker in fs.dir && FileOf(fs, ReservationMarker).bytes != MARKER_TEXT
    ensures Safe(InvOf(exposed, established), PublishedAs(next), fs, [Unlink(ReservationMarker), SyncDir] + CreateMarker)
  {
    hide Inv, Safe;
    var inv, goal := InvOf(exposed, established), PublishedAs(next);
    var c := Unlink(ReservationMarker);
    var fs1 := Exec(fs, c);
    MarkerUnlinkKeeps(fs, next, exposed, established);
    SyncKeeps(fs1, SyncDir, exposed, established);
    MarkerCreateSafe(Exec(fs1, SyncDir), next, exposed, established);
    Step(inv, goal, fs1, SyncDir, CreateMarker);
    Step(inv, goal, fs, c, [SyncDir] + CreateMarker);
    assert [c] + ([SyncDir] + CreateMarker) == [c, SyncDir] + CreateMarker;
  }

  /** While the marker is not whole, nothing pending competes with the published number. */
  lemma Rivals(fs: Fs, next: nat, exposed: set<nat>, established: bool)
    requires Inv(fs, exposed, established) && Sole(fs, next)
    requires ReservationMarker in fs.dir ==> FileOf(fs, ReservationMarker).bytes != MARKER_TEXT
    ensures !established && NoRival(SlotOf(fs, NextSegment), SlotOf(fs, NextSegmentPending))
    ensures SlotOf(fs, NextSegment).now.Whole? && SlotOf(fs, ReservationMarker).all != {}
  {
    SlotShape(fs, NextSegment);
    SlotShape(fs, NextSegmentPending);
    SlotShape(fs, ReservationMarker);
    NoMarkerNoRival(SlotOf(fs, NextSegment), SlotOf(fs, NextSegmentPending), SlotOf(fs, ReservationMarker),
                    exposed, established);
  }

  lemma MarkerCreateKeeps(fs: Fs, next: nat, exposed: set<nat>, established: bool)
    requires Inv(fs, exposed, established) && Sole(fs, next) && ReservationMarker !in fs.dir
    ensures Inv(Exec(fs, Create(ReservationMarker)), exposed, established)
  {
    var c := Create(ReservationMarker);
    Rivals(fs, next, exposed, established);
    CreateSlot(fs, ReservationMarker, NextSegment);
    CreateSlot(fs, ReservationMarker, NextSegmentPending);
    CmdFrame(fs, c, exposed, established);
    MarkerSound(SlotOf(fs, NextSegment), SlotOf(fs, NextSegmentPending), SlotOf(fs, ReservationMarker),
                SlotOf(Exec(fs, c), ReservationMarker), exposed);
  }

  lemma MarkerCreateSafe(fs: Fs, next: nat, exposed: set<nat>, established: bool)
    requires WellFormed(fs) && Inv(fs, exposed, established) && Sole(fs, next) && ReservationMarker !in fs.dir
    ensures Safe(InvOf(exposed, established), PublishedAs(next), fs, CreateMarker)
  {
    hide Inv, Safe, SlotOf, Published;
    var inv, goal := InvOf(exposed, established), PublishedAs(next);
    var c, w := Create(ReservationMarker), Write(ReservationMarker, MARKER_TEXT);
    var fs1 := Exec(fs, c);
    MarkerCreateKeeps(fs, next, exposed, established);
    forall k: nat | k <= 2 ensures Inv(Exec(fs1, Write(ReservationMarker, MARKER_TEXT[..k])), exposed, established) {
      MarkerWriteKeeps(fs1, MARKER_TEXT[..k], next, exposed, established);
    }
    assert MARKER_TEXT[..2] == MARKER_TEXT;
    MarkerCheckSafe(Exec(fs1, w), next, exposed, established);
    WriteStep(inv, goal, fs1, ReservationMarker, MARKER_TEXT, CheckMarker);
    Step(inv, goal, fs, c, [w] + CheckMarker);
    assert [c] + ([w] + CheckMarker) == CreateMarker;
  }

  lemma MarkerWriteKeeps(fs: Fs, text: Bytes, next: nat, exposed: set<nat>, established: bool)
    requires Inv(fs, exposed, established) && Sole(fs, next)
    requires ReservationMarker in fs.dir && FileOf(fs, ReservationMarker).bytes != MARKER_TEXT
    ensures Inv(Exec(fs, Write(ReservationMarker, text)), exposed, established)
  {
    var c := Write(ReservationMarker, text);
    Rivals(fs, next, exposed, established);
    CmdFrame(fs, c, exposed, established);
    assert May(fs, ReservationMarker, Some(fs.dir[ReservationMarker]));
    WriteSlotElsewhere(fs, ReservationMarker, text, NextSegment);
    WriteSlotElsewhere(fs, ReservationMarker, text, NextSegmentPending);
    MarkerSound(SlotOf(fs, NextSegment), SlotOf(fs, NextSegmentPending), SlotOf(fs, ReservationMarker),
                SlotOf(Exec(fs, c), ReservationMarker), exposed);
  }

  lemma MarkerCheckPublishes(fs: Fs, next: nat, exposed: set<nat>, established: bool)
    requires Inv(fs, exposed, established) && Sole(fs, next)
    requires ReservationMarker in fs.dir && FileOf(fs, ReservationMarker).bytes == MARKER_TEXT
    ensures Published(Exec(Exec(fs, Fsync(ReservationMarker)), SyncDir), next)
  {
    var fs1 := Exec(fs, Fsync(ReservationMarker));
    SyncKeeps(fs, Fsync(ReservationMarker), exposed, established);
    FsyncSlot(fs, ReservationMarker, ReservationMarker);
    SyncDirSlot(fs1, ReservationMarker);
    assert FileOf(fs1, NextSegment).bytes == FileOf(fs, NextSegment).bytes;
    FinalSettled(fs1, next, exposed, established);
  }

  lemma MarkerCheckSafe(fs: Fs, next: nat, exposed: set<nat>, established: bool)
    requires WellFormed(fs) && Inv(fs, exposed, established) && Sole(fs, next)
    requires ReservationMarker in fs.dir && FileOf(fs, ReservationMarker).bytes == MARKER_TEXT
    ensures Safe(InvOf(exposed, established), PublishedAs(next), fs, CheckMarker)
  {
    hide Inv, Safe, Published, SlotOf;
    var inv, goal := InvOf(exposed, established), PublishedAs(next);
    var c := Fsync(ReservationMarker);
    var fs1 := Exec(fs, c);
    SyncKeeps(fs, c, exposed, established);
    SyncKeeps(fs1, SyncDir, exposed, established);
    MarkerCheckPublishes(fs, next, exposed, established);
    Done(inv, goal, Exec(fs1, SyncDir));
    Step(inv, goal, fs1, SyncDir, []);
    assert [SyncDir] + [] == [SyncDir];
    Step(inv, goal, fs, c, [SyncDir]);
    assert [c] + [SyncDir] == CheckMarker;
  }

  /** A directory sync leaves exactly one reading of a published number without a pending link. */
  lemma FinalSettled(fs: Fs, next: nat, exposed: set<nat>, established: bool)
    requires Inv(fs, exposed, established) && Sole(fs, next)
    ensures SlotOf(Exec(fs, SyncDir), NextSegment).all == {Whole(FileOf(fs, NextSegment).bytes, fs.dir[NextSegment])}
  {
    SlotShape(fs, NextSegment);
    SlotShape(fs, NextSegmentPending);
    SlotShape(fs, ReservationMarker);
    SyncDirSlot(fs, NextSegment);
    CurAllWhole(SlotOf(fs, NextSegment), SlotOf(fs, NextSegmentPending), SlotOf(fs, ReservationMarker), exposed, established);
  }

  lemma CurAllWhole(f: Slot, p: Slot, m: Slot, exposed: set<nat>, established: bool)
    requires Sound(f, p, m, exposed, established) && Shaped(f) && Shaped(p) && Shaped(m)
    requires f.now.Whole? && (forall v | v in f.cur && v.Whole? :: v.ino == f.now.ino)
    requires forall v | v in f.cur :: !v.Absent?
    ensures f.cur == {f.now}
  {
    forall v | v in f.cur ensures v == f.now {
      assert Good(v, p.now, m.now, exposed, established);
    }
  }

  // ----- publication -----

  /** A pending text, whole for sure, of number `next`. */
  ghost predicate Staged(fs: Fs, next: nat)
    requires WellFormed(fs)
  {
    && NextSegmentPending in fs.dir
    && ReadNext(FileOf(fs, NextSegmentPending).bytes) == Some(next)
    && SlotOf(fs, NextSegmentPending).cur == {SlotOf(fs, NextSegmentPending).now}
  }

  lemma SameEnsureMarker(fs: Fs, fs': Fs)
    requires WellFormed(fs) && WellFormed(fs') && Unshared(fs) && Unshared(fs') && SameMarker(fs, fs')
    ensures EnsureMarker(fs') == EnsureMarker(fs)
  {
    if ReservationMarker in fs.dir {
      OwnLink(fs, ReservationMarker);
      OwnLink(fs', ReservationMarker);
    }
  }

  /** What follows a publication: the marker at the end of an open, nothing at the end of a reservation. */
  ghost predicate Finish(fs: Fs, marker: seq<Cmd>, established: bool)
    requires WellFormed(fs)
  {
    marker == EnsureMarker(fs) || (marker == [] && established)
  }

  lemma FinishSafe(fs: Fs, next: nat, marker: seq<Cmd>, exposed: set<nat>, established: bool)
    requires WellFormed(fs) && Inv(fs, exposed, established) && Sole(fs, next) && fs.alt == {}
    requires Finish(fs, marker, established)
    ensures Safe(InvOf(exposed, established), PublishedAs(next), fs, marker)
  {
    hide Inv, Safe, Published;
    if marker == EnsureMarker(fs) {
      MarkerSafe(fs, next, exposed, established);
    } else {
      EstablishedPublished(fs, next, exposed);
      Done(InvOf(exposed, established), PublishedAs(next), fs);
    }
  }

  lemma EstablishedPublished(fs: Fs, next: nat, exposed: set<nat>)
    requires Inv(fs, exposed, true) && Sole(fs, next) && fs.alt == {}
    ensures Published(fs, next)
  {
    assert Exec(fs, SyncDir) == fs;
    FinalSettled(fs, next, exposed, true);
    SlotShape(fs, NextSegment);
    SlotShape(fs, NextSegmentPending);
    SlotShape(fs, ReservationMarker);
    SyncDirSlot(fs, ReservationMarker);
    WholeMarkers(fs);
    MarkerSurelyWhole(SlotOf(fs, NextSegment), SlotOf(fs, NextSegmentPending), SlotOf(fs, ReservationMarker), exposed);
  }

  lemma WholeMarkers(fs: Fs)
    requires WellFormed(fs)
    ensures forall v | v in SlotOf(fs, ReservationMarker).all && v.Whole? :: v.text == MARKER_TEXT
  {
    forall v | v in Views(fs, ReservationMarker) && v.Whole? ensures v.text == MARKER_TEXT {
      var e := ViewFrom(fs, ReservationMarker, v);
    }
  }

  lemma MarkerSurelyWhole(f: Slot, p: Slot, m: Slot, exposed: set<nat>)
    requires Sound(f, p, m, exposed, true) && Shaped(f) && Shaped(p) && Shaped(m) && m.all == m.cur
    requires forall v | v in m.all && v.Whole? :: v.text == MARKER_TEXT
    requires forall v | v in m.cur && v.Whole? :: m.now.Whole? ==> v.ino == m.now.ino
    ensures m.now.Whole? && m.all == {m.now}
  {
    assert Good(f.now, p.now, m.now, exposed, true);
    forall v | v in m.all ensures v == m.now {
      assert Good(f.now, p.now, v, exposed, true);
    }
  }

  lemma LinkKeeps(fs: Fs, next: nat, exposed: set<nat>, established: bool)
    requires Inv(fs, exposed, established) && Staged(fs, next) && NextSegment !in fs.dir
    ensures Inv(Exec(fs, Link(NextSegmentPending, NextSegment)), exposed, established)
  {
    var c := Link(NextSegmentPending, NextSegment);
    CmdFrame(fs, c, exposed, established);
    SlotShape(fs, NextSegment);
    SlotShape(fs, NextSegmentPending);
    SlotShape(fs, ReservationMarker);
    LinkSlot(fs, NextSegmentPending, NextSegment, NextSegment);
    LinkSlot(fs, NextSegmentPending, NextSegment, NextSegmentPending);
    LinkSlot(fs, NextSegmentPending, NextSegment, ReservationMarker);
    LinkSound(SlotOf(fs, NextSegment), SlotOf(fs, NextSegmentPending), SlotOf(fs, ReservationMarker), exposed, established);
  }

  /** Dropping the pending name is safe when the final name cannot be lost, or nothing depends on it yet. */
  lemma DropPendingKeeps(fs: Fs, exposed: set<nat>, established: bool)
    requires Inv(fs, exposed, established) && NextSegmentPending in fs.dir
    requires Absent in SlotOf(fs, NextSegment).all ==>
               NextSegment !in fs.dir && !Current(fs, NextSegmentPending).Whole?
    ensures Inv(Exec(fs, Unlink(NextSegmentPending)), exposed, established)
  {
    var c := Unlink(NextSegmentPending);
    CmdFrame(fs, c, exposed, established);
    SlotShape(fs, NextSegment);
    SlotShape(fs, NextSegmentPending);
    UnlinkSlot(fs, NextSegmentPending, NextSegment);
    UnlinkSlot(fs, NextSegmentPending, NextSegmentPending);
    UnlinkSlot(fs, NextSegmentPending, ReservationMarker);
    DropPendingSound(SlotOf(fs, NextSegment), SlotOf(fs, NextSegmentPending), SlotOf(fs, ReservationMarker),
                     exposed, established);
  }

  /** After a directory sync a name that is there cannot be lost. */
  lemma SyncedFinalStays(fs: Fs)
    requires WellFormed(fs) && NextSegment in fs.dir
    ensures Absent !in SlotOf(Exec(fs, SyncDir), NextSegment).all
  {
    SyncDirSlot(fs, NextSegment);
    SlotShape(fs, NextSegment);
  }

  /** Sync, drop the pending name, sync, then settle the marker: the end of every successful open. */
  lemma DropSafe(fs: Fs, next: nat, marker: seq<Cmd>, exposed: set<nat>, established: bool)
    requires WellFormed(fs) && Unshared(fs) && Inv(fs, exposed, established)
    requires NextSegment in fs.dir && NextSegmentPending in fs.dir
    requires ReadNext(FileOf(fs, NextSegment).bytes) == Some(next)
    requires Finish(fs, marker, established)
    requires Absent !in SlotOf(fs, NextSegment).all
    ensures Safe(InvOf(exposed, established), PublishedAs(next), fs, DropPending + marker)
  {
    hide Inv, Safe, SlotOf;
    var inv, goal := InvOf(exposed, established), PublishedAs(next);
    var c := Unlink(NextSegmentPending);
    var fs1 := Exec(fs, c);
    var fs2 := Exec(fs1, SyncDir);
    DropPendingKeeps(fs, exposed, established);
    SyncKeeps(fs1, SyncDir, exposed, established);
    KeptUnshared(fs2, exposed, established);
    SameEnsureMarker(fs, fs2);
    FinishSafe(fs2, next, marker, exposed, established);
    Step(inv, goal, fs1, SyncDir, marker);
    Step(inv, goal, fs, c, [SyncDir] + marker);
    assert [c] + ([SyncDir] + marker) == DropPending + marker;
  }

  lemma KeptUnshared(fs: Fs, exposed: set<nat>, established: bool)
    requires Inv(fs, exposed, established)
    ensures Unshared(fs)
  {}

  lemma SyncDropSafe(fs: Fs, next: nat, marker: seq<Cmd>, exposed: set<nat>, established: bool)
    requires WellFormed(fs) && Unshared(fs) && Inv(fs, exposed, established)
    requires NextSegment in fs.dir && NextSegmentPending in fs.dir
    requires ReadNext(FileOf(fs, NextSegment).bytes) == Some(next)
    requires Finish(fs, marker, established)
    ensures Safe(InvOf(exposed, established), PublishedAs(next), fs, [SyncDir] + (DropPending + marker))
  {
    hide Inv, Safe, SlotOf;
    var fs1 := Exec(fs, SyncDir);
    SyncKeeps(fs, SyncDir, exposed, established);
    SyncedFinalStays(fs);
    KeptUnshared(fs1, exposed, established);
    SameEnsureMarker(fs, fs1);
    DropSafe(fs1, next, marker, exposed, established);
    Step(InvOf(exposed, established), PublishedAs(next), fs, SyncDir, DropPending + marker);
  }

  /** Publishing a staged text and settling the marker. */
  lemma PublishSafe(fs: Fs, next: nat, marker: seq<Cmd>, exposed: set<nat>, established: bool)
    requires WellFormed(fs) && Unshared(fs) && Inv(fs, exposed, established)
    requires Staged(fs, next) && NextSegment !in fs.dir
    requires Finish(fs, marker, established)
    ensures Safe(InvOf(exposed, established), PublishedAs(next), fs, PublishPending + marker)
  {
    hide Inv, Safe, SlotOf, EnsureMarker;
    var c := Link(NextSegmentPending, NextSegment);
    var fs1 := Exec(fs, c);
    LinkKeeps(fs, next, exposed, established);
    KeptUnshared(fs1, exposed, established);
    SameEnsureMarker(fs, fs1);
    SyncDropSafe(fs1, next, marker, exposed, established);
    Step(InvOf(exposed, established), PublishedAs(next), fs, c, [SyncDir] + (DropPending + marker));
    assert [c] + ([SyncDir] + (DropPending + marker)) == PublishPending + marker;
  }

  lemma UnlinkFinalKeeps(fs: Fs, next: nat, exposed: set<nat>, established: bool)
    requires Inv(fs, exposed, established) && Staged(fs, next) && fs.alt == {}
    requires NextSegment in fs.dir && fs.dir[NextSegment] != fs.dir[NextSegmentPending]
    ensures Inv(Exec(fs, Unlink(NextSegment)), exposed, established)
  {
    var c := Unlink(NextSegment);
    CmdFrame(fs, c, exposed, established);
    assert Exec(fs, SyncDir) == fs;
    SyncDirSlot(fs, NextSegmentPending);
    SlotShape(fs, NextSegment);
    SlotShape(fs, NextSegmentPending);
    SlotShape(fs, ReservationMarker);
    UnlinkSlot(fs, NextSegment, NextSegment);
    UnlinkSlot(fs, NextSegment, NextSegmentPending);
    UnlinkSlot(fs, NextSegment, ReservationMarker);
    Present(fs, exposed, established);
    UnlinkFinalSound(SlotOf(fs, NextSegment), SlotOf(fs, NextSegmentPending), SlotOf(fs, ReservationMarker),
                     exposed, established);
  }

  lemma StagedStays(fs: Fs, c: Cmd, next: nat)
    requires WellFormed(fs) && Staged(fs, next)
    requires c == SyncDir || (c == Unlink(NextSegment) && NextSegment in fs.dir)
    ensures Staged(Exec(fs, c), next)
  {
    if c.SyncDir? {
      SyncDirSlot(fs, NextSegmentPending);
    } else {
      UnlinkSlot(fs, NextSegment, NextSegmentPending);
    }
  }

  /** Replacing the final number by a staged, greater one. */
  lemma ReplaceSafe(fs: Fs, next: nat, marker: seq<Cmd>, exposed: set<nat>, established: bool)
    requires WellFormed(fs) && Unshared(fs) && Inv(fs, exposed, established) && Staged(fs, next)
    requires NextSegment in fs.dir && fs.dir[NextSegment] != fs.dir[NextSegmentPending]
    requires Finish(fs, marker, established)
    ensures Safe(InvOf(exposed, established), PublishedAs(next), fs, ReplaceWithPending + marker)
  {
    hide Inv, Safe, SlotOf, Staged;
    var inv, goal := InvOf(exposed, established), PublishedAs(next);
    var fs1 := Exec(fs, SyncDir);
    SyncKeeps(fs, SyncDir, exposed, established);
    StagedStays(fs, SyncDir, next);
    assert NextSegmentPending in fs1.dir by { StagedThere(fs1, next); }
    var c := Unlink(NextSegment);
    var fs2 := Exec(fs1, c);
    UnlinkFinalKeeps(fs1, next, exposed, established);
    StagedStays(fs1, c, next);
    var fs3 := Exec(fs2, SyncDir);
    SyncKeeps(fs2, SyncDir, exposed, established);
    StagedStays(fs2, SyncDir, next);
    KeptUnshared(fs3, exposed, established);
    SameEnsureMarker(fs, fs3);
    PublishSafe(fs3, next, marker, exposed, established);
    Step(inv, goal, fs2, SyncDir, PublishPending + marker);
    Step(inv, goal, fs1, c, [SyncDir] + (PublishPending + marker));
    Step(inv, goal, fs, SyncDir, [c] + ([SyncDir] + (PublishPending + marker)));
    assert [SyncDir] + ([c] + ([SyncDir] + (PublishPending + marker))) == ReplaceWithPending + marker;
  }

  lemma StagedThere(fs: Fs, next: nat)
    requires WellFormed(fs) && Staged(fs, next)
    ensures NextSegmentPending in fs.dir
  {}

  // ----- writing a pending text -----

  /** A new pending number is ahead of everything, and of whatever is published. */
  ghost predicate Fresh(fs: Fs, next: nat, exposed: set<nat>)
    requires WellFormed(fs)
  {
    && next <= MAX_U64
    && Ahead(exposed, next)
    && NextSegmentPending !in fs.dir
    && (forall a | a in SlotOf(fs, NextSegment).all && a.Whole? :: Number(a) < next)
    && (NextSegment in fs.dir ==> forall m | m in SlotOf(fs, ReservationMarker).all :: m.Whole?)
  }

  lemma CreatePendingKeeps(fs: Fs, exposed: set<nat>, established: bool)
    requires Inv(fs, exposed, established) && NextSegmentPending !in fs.dir
    ensures Inv(Exec(fs, Create(NextSegmentPending)), exposed, established)
  {
    CmdFrame(fs, Create(NextSegmentPending), exposed, established);
    SlotShape(fs, NextSegmentPending);
    CreateSlot(fs, NextSegmentPending, NextSegment);
    CreateSlot(fs, NextSegmentPending, NextSegmentPending);
    CreateSlot(fs, NextSegmentPending, ReservationMarker);
    CreatePendingSound(SlotOf(fs, NextSegment), SlotOf(fs, NextSegmentPending), SlotOf(fs, ReservationMarker),
                       exposed, established);
  }

  lemma WritePendingKeeps(fs: Fs, next: nat, k: nat, exposed: set<nat>, established: bool)
    requires Inv(fs, exposed, established) && Fresh(fs, next, exposed) && k <= |NextText(next)|
    ensures Inv(Exec(Exec(fs, Create(NextSegmentPending)), Write(NextSegmentPending, NextText(next)[..k])), exposed,
            established)
  {
    hide SlotOf, Sound, Views, NextText;
    var fs1 := Exec(fs, Create(NextSegmentPending));
    var c := Write(NextSegmentPending, NextText(next)[..k]);
    var fs2 := Exec(fs1, c);
    CmdFrame(fs, Create(NextSegmentPending), exposed, established);
    CmdFrame(fs1, c, exposed, established);
    NextTextReads(next);
    WriteSlot(fs, NextSegmentPending, NextText(next), k);
    WriteElsewhere(fs, NextText(next)[..k], NextSegment);
    WriteElsewhere(fs, NextText(next)[..k], ReservationMarker);
    SlotShape(fs, NextSegment);
    SlotShape(fs, NextSegmentPending);
    SlotShape(fs, ReservationMarker);
    SlotInodes(fs, NextSegment);
    assert NextText(next)[..|NextText(next)|] == NextText(next);
    WritePendingSound(SlotOf(fs, NextSegment), SlotOf(fs, NextSegmentPending), SlotOf(fs, ReservationMarker),
                      SlotOf(fs2, NextSegmentPending), ViewOf(NextSegmentPending, NextText(next)[..k], |fs.files|),
                      exposed, established);
  }

  lemma WriteElsewhere(fs: Fs, text: Bytes, n: Name)
    requires WellFormed(fs) && NextSegmentPending !in fs.dir && n != NextSegmentPending
    ensures SlotOf(Exec(Exec(fs, Create(NextSegmentPending)), Write(NextSegmentPending, text)), n) == SlotOf(fs, n)
  {
    var fs1 := Exec(fs, Create(NextSegmentPending));
    CreateSlot(fs, NextSegmentPending, n);
    assert !May(fs1, n, Some(|fs.files|));
    WriteSlotElsewhere(fs1, NextSegmentPending, text, n);
  }

  /** The staged state that `WritePending(next)` ends in. */
  ghost function AfterWritePending(fs: Fs, next: nat): (fs': Fs)
    requires WellFormed(fs) && NextSegmentPending !in fs.dir
    ensures WellFormed(fs')
  {
    Exec(Exec(Exec(fs, Create(NextSegmentPending)), Write(NextSegmentPending, NextText(next))), Fsync(NextSegmentPending))
  }

  lemma WrittenStaged(fs: Fs, next: nat)
    requires WellFormed(fs) && NextSegmentPending !in fs.dir && next <= MAX_U64
    ensures Staged(AfterWritePending(fs, next), next)
  {
    NextTextReads(next);
    var fs2 := Exec(Exec(fs, Create(NextSegmentPending)), Write(NextSegmentPending, NextText(next)));
    FsyncSlot(fs2, NextSegmentPending, NextSegmentPending);
    assert FileOf(fs2, NextSegmentPending).bytes == NextText(next);
  }

  lemma WritePendingSafe(fs: Fs, next: nat, rest: seq<Cmd>, goal: Fs -> bool, exposed: set<nat>, established: bool)
    requires WellFormed(fs) && Inv(fs, exposed, established) && Fresh(fs, next, exposed)
    requires NextSegmentPending !in fs.dir
    requires Inv(AfterWritePending(fs, next), exposed, established) ==>
               Safe(InvOf(exposed, established), goal, AfterWritePending(fs, next), rest)
    ensures Safe(InvOf(exposed, established), goal, fs, WritePending(next) + rest)
  {
    hide Inv, Safe, Fresh;
    var inv := InvOf(exposed, established);
    var c, w, y := Create(NextSegmentPending), Write(NextSegmentPending, NextText(next)), Fsync(NextSegmentPending);
    var fs1 := Exec(fs, c);
    CreatePendingKeeps(fs, exposed, established);
    forall k: nat | k <= |NextText(next)|
      ensures inv(Exec(fs1, Write(NextSegmentPending, NextText(next)[..k])))
    {
      WritePendingKeeps(fs, next, k, exposed, established);
    }
    assert NextText(next)[..|NextText(next)|] == NextText(next);
    var fs2 := Exec(fs1, w);
    SyncKeeps(fs2, y, exposed, established);
    Step(inv, goal, fs2, y, rest);
    WriteStep(inv, goal, fs1, NextSegmentPending, NextText(next), [y] + rest);
    Step(inv, goal, fs, c, [w] + ([y] + rest));
    assert [c] + ([w] + ([y] + rest)) == WritePending(next) + rest;
  }

  // ----- reserve_next_segment -----

  /** Stopped anywhere, a reservation keeps the invariant; completed, it publishes the following number. */
  lemma ReserveSafe(fs: Fs, current: nat, exposed: set<nat>)
    requires WellFormed(fs) && Inv(fs, exposed, true) && ReservePlan(fs, current).outcome.Ok?
    ensures Ahead(exposed, current)
    ensures Safe(InvOf(exposed, true), PublishedAs(current + 1), fs, ReservePlan(fs, current).cmds)
  {
    hide Inv, Safe, SlotOf;
    SingleMeansOwn(fs);
    if NextSegmentPending in fs.dir {
      RetrySafe(fs, current, exposed);
      assert DropPending + (WritePending(current + 1) + ReplaceWithPending) == ReservePlan(fs, current).cmds;
    } else {
      AdvanceSafe(fs, current, exposed);
      assert ReservePlan(fs, current).cmds == WritePending(current + 1) + ReplaceWithPending;
    }
  }

  lemma OnlyOne<T>(s: set<T>, a: T, b: T)
    requires |s| == 1 && a in s && b in s
    ensures a == b
  {
    assert |s - {a}| == 0;
    assert b !in s - {a};
  }

  lemma SingleMeansOwn(fs: Fs)
    requires WellFormed(fs) && NextSegment in fs.dir && SingleLink(fs, NextSegment)
    ensures NextSegmentPending in fs.dir ==> fs.dir[NextSegmentPending] != fs.dir[NextSegment]
  {
    var links := Links(fs, fs.dir[NextSegment]);
    if NextSegmentPending in links {
      OnlyOne(links, NextSegment, NextSegmentPending);
    }
  }

  /** A pending name left by an attempt that failed is dropped first. */
  lemma RetrySafe(fs: Fs, current: nat, exposed: set<nat>)
    requires WellFormed(fs) && Inv(fs, exposed, true) && current < MAX_U64
    requires NextSegment in fs.dir && ReadNext(FileOf(fs, NextSegment).bytes) == Some(current)
    requires NextSegmentPending in fs.dir && fs.dir[NextSegmentPending] != fs.dir[NextSegment]
    ensures Ahead(exposed, current)
    ensures Safe(InvOf(exposed, true), PublishedAs(current + 1), fs,
                 DropPending + (WritePending(current + 1) + ReplaceWithPending))
  {
    hide Inv, Safe, SlotOf;
    var inv, goal := InvOf(exposed, true), PublishedAs(current + 1);
    var c := Unlink(NextSegmentPending);
    var fs1 := Exec(fs, c);
    Present(fs, exposed, true);
    DropPendingKeeps(fs, exposed, true);
    SyncKeeps(fs1, SyncDir, exposed, true);
    AdvanceSafe(Exec(fs1, SyncDir), current, exposed);
    var rest := WritePending(current + 1) + ReplaceWithPending;
    Step(inv, goal, fs1, SyncDir, rest);
    Step(inv, goal, fs, c, [SyncDir] + rest);
    assert [c] + ([SyncDir] + rest) == DropPending + rest;
  }

  lemma AdvanceSafe(fs: Fs, current: nat, exposed: set<nat>)
    requires WellFormed(fs) && Inv(fs, exposed, true) && Sole(fs, current) && current < MAX_U64
    ensures Ahead(exposed, current)
    ensures Safe(InvOf(exposed, true), PublishedAs(current + 1), fs, WritePending(current + 1) + ReplaceWithPending)
  {
    hide Inv, Safe, SlotOf, Staged;
    var next := current + 1;
    Present(fs, exposed, true);
    assert Fresh(fs, next, exposed);
    var fs1 := AfterWritePending(fs, next);
    WrittenStaged(fs, next);
    if Inv(fs1, exposed, true) {
      KeptUnshared(fs1, exposed, true);
      ReplaceSafe(fs1, next, [], exposed, true);
      assert ReplaceWithPending + [] == ReplaceWithPending;
    }
    WritePendingSafe(fs, next, ReplaceWithPending, PublishedAs(next), exposed, true);
  }
}
