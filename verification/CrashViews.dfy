/**
 What a metadata name may be found to hold after a crash: nothing, a malformed text, or a whole text.
 Each call changes these sets in a fixed way, and a machine crash only narrows them.
 */
module CrashViews {
  import opened Wrappers
  import opened FileSystem
  import opened MetadataText

  datatype View = Absent | Malformed | Whole(text: Bytes, ino: Ino)

  predicate ValidText(n: Name, bytes: Bytes)
  {
    match n
    case NextSegment => ReadNext(bytes).Some?
    case NextSegmentPending => ReadNext(bytes).Some?
    case ReservationMarker => bytes == MARKER_TEXT
    case Incarnation => ValidIncarnation(bytes)
    case IncarnationPending => ValidIncarnation(bytes)
    case Segment(_) => true
  }

  function ViewOf(n: Name, bytes: Bytes, i: Ino): View
  {
    if ValidText(n, bytes) then Whole(bytes, i) else Malformed
  }

  function Reach(f: File): Bytes { f.bytes + f.lost }

  ghost function FileViews(n: Name, f: File, i: Ino): set<View>
  {
    set k | f.synced <= k <= |Reach(f)| :: ViewOf(n, Reach(f)[..k], i)
  }

  ghost function EntryViews(fs: Fs, n: Name, e: Option<Ino>): set<View>
  {
    if e.None? then {Absent} else if e.value < |fs.files| then FileViews(n, fs.files[e.value], e.value) else {}
  }

  ghost function Views(fs: Fs, n: Name): set<View>
  {
    EntryViews(fs, n, Lookup(fs, n)) + (set a, v | a in fs.alt && a.0 == n && v in EntryViews(fs, n, a.1) :: v)
  }

  /** What the running process reads now. */
  function Current(fs: Fs, n: Name): View
    requires WellFormed(fs)
  {
    if n in fs.dir then ViewOf(n, FileOf(fs, n).bytes, fs.dir[n]) else Absent
  }

  lemma ViewFrom(fs: Fs, n: Name, v: View) returns (e: Option<Ino>)
    requires v in Views(fs, n)
    ensures May(fs, n, e) && v in EntryViews(fs, n, e)
  {
    e := Lookup(fs, n);
    if v !in EntryViews(fs, n, e) {
      var a :| a in fs.alt && a.0 == n && v in EntryViews(fs, n, a.1);
      e := a.1;
      assert (n, e) == a;
    }
  }

  lemma ViewsInclude(fs: Fs, n: Name, e: Option<Ino>)
    requires May(fs, n, e)
    ensures EntryViews(fs, n, e) <= Views(fs, n)
  {
    if (n, e) in fs.alt {
      forall v | v in EntryViews(fs, n, e) ensures v in Views(fs, n) {
        var a := (n, e);
        assert a in fs.alt && a.0 == n && v in EntryViews(fs, n, a.1);
      }
    }
  }

  /** A crash only narrows what may be found. */
  lemma CrashNarrows(fs: Fs, fs': Fs, n: Name)
    requires WellFormed(fs) && Crash(fs, fs')
    ensures Views(fs', n) <= Views(fs, n)
  {
    assert May(fs, n, Lookup(fs', n));
    ViewsInclude(fs, n, Lookup(fs', n));
    forall v | v in Views(fs', n) ensures v in EntryViews(fs, n, Lookup(fs', n)) {
      if n in fs'.dir {
        CrashWellFormed(fs, fs');
        var i := fs'.dir[n];
        var f, f' := fs.files[i], fs'.files[i];
        assert CrashFile(f, f');
        var k :| f'.synced <= k <= |Reach(f')| && v == ViewOf(n, Reach(f')[..k], i);
        assert Reach(f')[..k] == Reach(f)[..k];
      }
    }
  }

  lemma SyncDirViews(fs: Fs, n: Name)
    requires WellFormed(fs)
    ensures Views(Exec(fs, SyncDir), n) == EntryViews(fs, n, Lookup(fs, n)) <= Views(fs, n)
  {}

  /** Adding one alternative to a name and giving it a new value. */
  lemma RenameViews(fs: Fs, fs': Fs, changed: Name, n: Name)
    requires WellFormed(fs) && fs.files <= fs'.files
    requires fs'.alt == fs.alt + {(changed, Lookup(fs, changed))}
    requires WellFormed(fs')
    requires forall m | m != changed :: Lookup(fs', m) == Lookup(fs, m)
    ensures Views(fs', n) == Views(fs, n) + (if n == changed then EntryViews(fs', n, Lookup(fs', n)) else {})
  {
    var extra := if n == changed then EntryViews(fs', n, Lookup(fs', n)) else {};
    forall e | May(fs, n, e) ensures EntryViews(fs', n, e) == EntryViews(fs, n, e) {
    }
    forall v | v in Views(fs', n) ensures v in Views(fs, n) + extra {
      var e := ViewFrom(fs', n, v);
      if May(fs, n, e) { ViewsInclude(fs, n, e); }
    }
    forall v | v in Views(fs, n) + extra ensures v in Views(fs', n) {
      if v in Views(fs, n) {
        var e := ViewFrom(fs, n, v);
        ViewsInclude(fs', n, e);
      }
    }
  }

  lemma UnlinkViews(fs: Fs, gone: Name, n: Name)
    requires WellFormed(fs) && gone in fs.dir
    ensures Views(Exec(fs, Unlink(gone)), n) == Views(fs, n) + (if n == gone then {Absent} else {})
  {
    RenameViews(fs, Exec(fs, Unlink(gone)), gone, n);
  }

  lemma LinkViews(fs: Fs, from: Name, to: Name, n: Name)
    requires WellFormed(fs) && from in fs.dir && to !in fs.dir
    ensures Views(Exec(fs, Link(from, to)), n)
         == Views(fs, n) + (if n == to then EntryViews(fs, n, Lookup(fs, from)) else {})
  {
    RenameViews(fs, Exec(fs, Link(from, to)), to, n);
  }

  lemma CreateViews(fs: Fs, made: Name, n: Name)
    requires WellFormed(fs) && made !in fs.dir
    ensures Views(Exec(fs, Create(made)), n)
         == Views(fs, n) + (if n == made then {ViewOf(n, [], |fs.files|)} else {})
  {
    RenameViews(fs, Exec(fs, Create(made)), made, n);
    assert EntryViews(Exec(fs, Create(made)), made, Some(|fs.files|)) == {ViewOf(made, [], |fs.files|)} by {
      var f := EmptyFile;
      assert Reach(f)[..0] == [];
    }
  }

  /** Only names that may reach the written inode see a write. */
  lemma WriteViews(fs: Fs, at: Name, text: Bytes, n: Name)
    requires WellFormed(fs) && at in fs.dir
    ensures var fs' := Exec(fs, Write(at, text));
            && Views(fs', n) <= Views(fs, n) + FileViews(n, FileOf(fs', at), fs.dir[at])
            && (!May(fs, n, Some(fs.dir[at])) ==> Views(fs', n) <= Views(fs, n))
  {
    var fs' := Exec(fs, Write(at, text));
    forall v | v in Views(fs', n)
      ensures v in Views(fs, n) || (May(fs, n, Some(fs.dir[at])) && v in FileViews(n, FileOf(fs', at), fs.dir[at]))
    {
      var e := ViewFrom(fs', n, v);
      assert May(fs, n, e);
      if e != Some(fs.dir[at]) { ViewsInclude(fs, n, e); }
    }
  }

  /** Syncing a file leaves only its current reading of that inode. */
  lemma FsyncViews(fs: Fs, at: Name, n: Name)
    requires WellFormed(fs) && at in fs.dir
    ensures var fs' := Exec(fs, Fsync(at));
            && Views(fs', n) <= Views(fs, n)
            && EntryViews(fs', n, Lookup(fs, at)) == {ViewOf(n, FileOf(fs, at).bytes, fs.dir[at])}
  {
    var fs' := Exec(fs, Fsync(at));
    var i := fs.dir[at];
    var f, f' := fs.files[i], fs'.files[i];
    assert Reach(f')[..|f.bytes|] == f.bytes == Reach(f)[..|f.bytes|];
    forall v | v in Views(fs', n) ensures v in Views(fs, n) {
      var e := ViewFrom(fs', n, v);
      assert May(fs, n, e);
      assert v in EntryViews(fs, n, e);
      ViewsInclude(fs, n, e);
    }
  }

  // ----- one name at a time -----

  /** What a name holds now, what a crash may make of its current entry, and what a crash may make of it. */
  datatype Slot = Slot(now: View, cur: set<View>, all: set<View>)

  ghost function SlotOf(fs: Fs, n: Name): Slot
    requires WellFormed(fs)
  {
    Slot(Current(fs, n), EntryViews(fs, n, Lookup(fs, n)), Views(fs, n))
  }

  const Nothing := Slot(Absent, {Absent}, {Absent})

  /** Fewer crash outcomes, the same present. */
  ghost predicate Narrower(a: Slot, b: Slot)
  {
    a.now == b.now && a.cur <= b.cur && a.all <= b.all
  }

  lemma EntryShape(n: Name, f: File, i: Ino)
    requires FileOk(f)
    ensures ViewOf(n, f.bytes, i) in FileViews(n, f, i)
    ensures forall v | v in FileViews(n, f, i) :: !v.Absent? && (v.Whole? ==> v.ino == i)
  {
    assert Reach(f)[..|f.bytes|] == f.bytes;
  }

  lemma SlotShape(fs: Fs, n: Name)
    requires WellFormed(fs)
    ensures var s := SlotOf(fs, n);
            && s.now in s.cur && s.cur <= s.all
            && (s.now.Absent? ==> s.cur == {Absent})
            && (forall v | v in s.cur && v.Whole? :: n in fs.dir && v.ino == fs.dir[n])
            && (forall v | v in s.cur :: v.Absent? <==> s.now.Absent?)
            && (s.now.Whole? ==> n in fs.dir && s.now.ino == fs.dir[n])
            && (n in fs.dir <==> !s.now.Absent?)
  {
    hide FileViews;
    if n in fs.dir { EntryShape(n, FileOf(fs, n), fs.dir[n]); }
  }

  lemma SlotInodes(fs: Fs, n: Name)
    requires WellFormed(fs)
    ensures forall v | v in SlotOf(fs, n).all && v.Whole? :: v.ino < |fs.files|
  {
    forall v | v in Views(fs, n) && v.Whole? ensures v.ino < |fs.files| {
      var e := ViewFrom(fs, n, v);
    }
  }

  lemma SyncDirSlot(fs: Fs, n: Name)
    requires WellFormed(fs)
    ensures var s := SlotOf(fs, n); SlotOf(Exec(fs, SyncDir), n) == s.(all := s.cur)
  {
    SyncDirViews(fs, n);
  }

  lemma UnlinkSlot(fs: Fs, gone: Name, n: Name)
    requires WellFormed(fs) && gone in fs.dir
    ensures var s := SlotOf(fs, n);
            SlotOf(Exec(fs, Unlink(gone)), n) == if n == gone then Slot(Absent, {Absent}, s.all + {Absent}) else s
  {
    UnlinkViews(fs, gone, n);
  }

  ghost predicate SameKind(a: Name, b: Name)
  {
    forall bytes :: ValidText(a, bytes) <==> ValidText(b, bytes)
  }

  lemma LinkSlot(fs: Fs, from: Name, to: Name, n: Name)
    requires WellFormed(fs) && from in fs.dir && to !in fs.dir && SameKind(from, to)
    ensures var s := SlotOf(fs, n);
            var p := SlotOf(fs, from);
            SlotOf(Exec(fs, Link(from, to)), n) == if n == to then Slot(p.now, p.cur, s.all + p.cur) else s
  {
    LinkViews(fs, from, to, n);
    SameEntryViews(fs, from, to);
    hide EntryViews;
  }

  lemma SameEntryViews(fs: Fs, from: Name, to: Name)
    requires WellFormed(fs) && from in fs.dir && SameKind(from, to)
    ensures EntryViews(fs, to, Lookup(fs, from)) == EntryViews(fs, from, Lookup(fs, from))
  {
    var f := FileOf(fs, from);
    forall k | f.synced <= k <= |Reach(f)|
      ensures ViewOf(to, Reach(f)[..k], fs.dir[from]) == ViewOf(from, Reach(f)[..k], fs.dir[from])
    {
    }
  }

  lemma CreateSlotElsewhere(fs: Fs, made: Name, n: Name)
    requires WellFormed(fs) && made !in fs.dir && n != made
    ensures SlotOf(Exec(fs, Create(made)), n) == SlotOf(fs, n)
  {
    CreateViews(fs, made, n);
  }

  lemma CreateSlot(fs: Fs, made: Name, n: Name)
    requires WellFormed(fs) && made !in fs.dir && !ValidText(made, [])
    ensures var s := SlotOf(fs, n);
            SlotOf(Exec(fs, Create(made)), n)
            == if n == made then Slot(Malformed, {Malformed}, s.all + {Malformed}) else s
  {
    CreateViews(fs, made, n);
    assert FileViews(made, EmptyFile, |fs.files|) == {Malformed} by {
      assert Reach(EmptyFile)[..0] == [];
    }
  }

  /** A text that is valid only when whole is found malformed or whole. */
  lemma PartialViews(n: Name, f: File, text: Bytes, k: nat, i: Ino)
    requires k <= |text| && f.bytes == text[..k] && f.lost == []
    requires forall j | 0 <= j < |text| :: !ValidText(n, text[..j])
    ensures FileViews(n, f, i) <= {Malformed, ViewOf(n, text[..k], i)}
  {
    forall j | f.synced <= j <= |Reach(f)| ensures ViewOf(n, Reach(f)[..j], i) in {Malformed, ViewOf(n, text[..k], i)} {
      assert Reach(f)[..j] == text[..j];
    }
  }

  /** Part of such a text, written to a new file. */
  lemma WriteSlot(fs: Fs, at: Name, text: Bytes, k: nat)
    requires WellFormed(fs) && at !in fs.dir && !ValidText(at, []) && k <= |text|
    requires forall j | 0 <= j < |text| :: !ValidText(at, text[..j])
    ensures var s := SlotOf(fs, at);
            var s' := SlotOf(Exec(Exec(fs, Create(at)), Write(at, text[..k])), at);
            var read := ViewOf(at, text[..k], |fs.files|);
            s'.now == read && s'.cur <= {Malformed, read} && s'.all <= s.all + {Malformed, read}
  {
    var fs1 := Exec(fs, Create(at));
    CreateViews(fs, at, at);
    WriteViews(fs1, at, text[..k], at);
    PartialViews(at, FileOf(Exec(fs1, Write(at, text[..k])), at), text, k, |fs.files|);
  }

  /** Changing an inode that a name cannot come to mean leaves that name as it was. */
  lemma FileSlotElsewhere(fs: Fs, i: Ino, f: File, n: Name)
    requires WellFormed(fs) && i < |fs.files| && FileOk(f) && !May(fs, n, Some(i))
    ensures var fs' := fs.(files := fs.files[i := f]); WellFormed(fs') && SlotOf(fs', n) == SlotOf(fs, n)
  {
    var fs' := fs.(files := fs.files[i := f]);
    forall v | v in Views(fs, n) ensures v in Views(fs', n) {
      var e := ViewFrom(fs, n, v);
      ViewsInclude(fs', n, e);
    }
    forall v | v in Views(fs', n) ensures v in Views(fs, n) {
      var e := ViewFrom(fs', n, v);
      assert May(fs, n, e);
      ViewsInclude(fs, n, e);
    }
  }

  lemma WriteSlotElsewhere(fs: Fs, at: Name, text: Bytes, n: Name)
    requires WellFormed(fs) && at in fs.dir && !May(fs, n, Some(fs.dir[at]))
    ensures SlotOf(Exec(fs, Write(at, text)), n) == SlotOf(fs, n)
  {
    FileSlotElsewhere(fs, fs.dir[at], WriteFile(FileOf(fs, at), text), n);
  }

  lemma FsyncSlot(fs: Fs, at: Name, n: Name)
    requires WellFormed(fs) && at in fs.dir
    ensures var s := SlotOf(fs, n);
            var s' := SlotOf(Exec(fs, Fsync(at)), n);
            Narrower(s', s) && (n == at ==> s'.cur == {s.now})
  {
    FsyncViews(fs, at, n);
    var fs' := Exec(fs, Fsync(at));
    if n in fs.dir {
      var f, f' := FileOf(fs, n), FileOf(fs', n);
      assert f'.bytes == f.bytes;
      assert Reach(f')[..|f.bytes|] == f.bytes == Reach(f)[..|f.bytes|];
      assert FileViews(n, f', fs.dir[n]) <= FileViews(n, f, fs.dir[n]);
    }
  }

  lemma CrashSlot(fs: Fs, fs': Fs, n: Name)
    requires WellFormed(fs) && Crash(fs, fs') && WellFormed(fs')
    ensures var s' := SlotOf(fs', n); s'.all <= SlotOf(fs, n).all && s'.all == s'.cur == {s'.now}
  {
    CrashNarrows(fs, fs', n);
    if n in fs'.dir {
      var f := FileOf(fs', n);
      assert CrashFile(fs.files[fs'.dir[n]], f);
      assert Reach(f)[..|f.bytes|] == f.bytes;
      assert FileViews(n, f, fs'.dir[n]) == {Current(fs', n)};
    }
  }
}
