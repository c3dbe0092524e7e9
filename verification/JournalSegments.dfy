/** What every call and every crash keeps of the segment files. */
module JournalSegments {
  import opened Wrappers
  import opened FileSystem
  import opened CrashViews
  import opened ReservationSafety
  import opened Journal

  /** Segment `n` may turn out to be inode `i`. */
  ghost predicate Holds(fs: Fs, n: nat, i: Ino) { May(fs, Segment(n), Some(i)) }

  /** Complete records only, all of them on disk. */
  predicate Settled(f: File) { f.lost == [] && f.synced == |f.bytes| && EndsLine(f.bytes) }

  /** Whatever a segment is found to hold is the beginning of what was written, and covers what was acknowledged. */
  ghost predicate Contents(s: Sys)
  {
    forall n: nat, i: Ino | Holds(s.fs, n, i) ::
      && n in s.hist && n in s.acked && i < |s.fs.files|
      && Reach(s.fs.files[i]) <= s.hist[n]
      && s.acked[n] <= s.fs.files[i].synced
  }

  ghost predicate OneInode(s: Sys)
  {
    forall n: nat, i: Ino, j: Ino | Holds(s.fs, n, i) && Holds(s.fs, n, j) :: i == j
  }

  ghost predicate Bounded(s: Sys)
  {
    && s.hist.Keys == s.acked.Keys && s.pruned <= s.hist.Keys
    && forall n | n in s.hist ::
         s.acked[n] <= |s.hist[n]| && EndsLine(s.hist[n][..s.acked[n]])
  }

  predicate Acknowledged(s: Sys, n: nat) { n in s.acked && s.acked[n] > 0 }

  predicate Wrote(s: Sys, n: nat) { n in s.hist && s.hist[n] != [] }

  /** A segment that was written to and not pruned is there for good. */
  ghost predicate Kept(s: Sys)
  {
    forall n | Wrote(s, n) && n !in s.pruned :: Segment(n) in s.fs.dir && forall e :: (Segment(n), e) !in s.fs.alt
  }

  /** A segment that has a successor never changes again. */
  ghost predicate Sealed(s: Sys)
  {
    forall n: nat, i: Ino, m: nat | Holds(s.fs, n, i) && m in s.hist && n < m :: i < |s.fs.files| && Settled(s.fs.files[i])
  }

  ghost predicate Core(s: Sys)
  {
    && WellFormed(s.fs) && Unshared(s.fs)
    && Contents(s) && OneInode(s) && Bounded(s) && Kept(s) && Sealed(s)
  }

  // ----- calls -----

  /** Such a call leaves the segments alone. */
  lemma MetadataHolders(s: Sys, c: Cmd)
    requires Core(s) && MetadataCmd(c) && Enabled(s.fs, c)
    ensures var fs' := Exec(s.fs, c);
            && WellFormed(fs') && Unshared(fs')
            && forall n: nat, i: Ino | Holds(fs', n, i) :: Holds(s.fs, n, i) && i < |fs'.files| && fs'.files[i] == s.fs.files[i]
  {
    hide OneInode, Bounded, Kept, Sealed;
    var fs' := Exec(s.fs, c);
    CmdFrame(s.fs, c, set n | n in s.hist, true) by {
      forall n, i | May(s.fs, Segment(n), Some(i)) ensures n in s.hist { assert Holds(s.fs, n, i); }
    }
    forall n: nat, i: Ino | Holds(fs', n, i) ensures Holds(s.fs, n, i) && fs'.files[i] == s.fs.files[i] {
      if c.Write? || c.Fsync? {
        assert May(s.fs, c.name, Some(s.fs.dir[c.name]));
      }
    }
  }

  lemma MetadataKept(s: Sys, c: Cmd)
    requires WellFormed(s.fs) && Kept(s) && MetadataCmd(c) && Enabled(s.fs, c)
    ensures Kept(Called(s, c))
  {}

  lemma MetadataCore(s: Sys, c: Cmd)
    requires Core(s) && MetadataCmd(c) && Enabled(s.fs, c)
    ensures Core(Called(s, c))
  {
    MetadataHolders(s, c);
    MetadataKept(s, c);
    hide Exec, Unshared, Holds, Kept, Settled, WellFormed;
  }

  lemma SyncDirCore(s: Sys)
    requires Core(s)
    ensures Core(Called(s, SyncDir))
  {
    MetadataCore(s, SyncDir);
  }

  /** The file of segment `n` is replaced by one that still fits the record of the past. */
  ghost predicate Replaces(s: Sys, s': Sys, n: nat, f: File)
    requires WellFormed(s.fs) && Segment(n) in s.fs.dir && n in s.hist && n in s.acked
  {
    && n in s'.hist && s'.hist == s.hist[n := s'.hist[n]]
    && s' == s.(fs := s.fs.(files := s.fs.files[s.fs.dir[Segment(n)] := f]), hist := s'.hist)
    && s.hist[n] <= s'.hist[n]
    && FileOk(f) && Reach(f) <= s'.hist[n] && s.acked[n] <= f.synced
    && ((exists m :: m in s.hist && n < m) ==> Settled(f))
    && (s'.hist[n] != s.hist[n] ==> (forall m | m in s.hist :: m <= n) && forall e :: (Segment(n), e) !in s.fs.alt)
  }

  lemma ReplacedHolder(s: Sys, s': Sys, n: nat, m: nat, i: Ino)
    requires Segment(n) in s.fs.dir && Unshared(s.fs) && s'.fs.dir == s.fs.dir && s'.fs.alt == s.fs.alt
    requires Holds(s'.fs, m, i)
    ensures Holds(s.fs, m, i) && (i == s.fs.dir[Segment(n)] ==> m == n)
  {
    assert May(s.fs, Segment(m), Some(i)) && May(s.fs, Segment(n), Some(s.fs.dir[Segment(n)]));
  }

  lemma ReplacedFiles(s: Sys, s': Sys, n: nat, f: File)
    requires Core(s) && Segment(n) in s.fs.dir && n in s.hist && Replaces(s, s', n, f)
    ensures WellFormed(s'.fs) && Contents(s') && OneInode(s') && Sealed(s')
  {
    hide Unshared, Bounded, Kept, Settled;
    forall m: nat, i: Ino | Holds(s'.fs, m, i)
      ensures Holds(s.fs, m, i) && (i == s.fs.dir[Segment(n)] ==> m == n)
    {
      ReplacedHolder(s, s', n, m, i);
    }
  }

  lemma ReplacedHistory(s: Sys, s': Sys, n: nat, f: File)
    requires Core(s) && Segment(n) in s.fs.dir && n in s.hist && Replaces(s, s', n, f)
    ensures Bounded(s') && Kept(s')
  {
    hide Unshared, Contents, OneInode, Sealed;
    assert s'.hist.Keys == s.hist.Keys;
    forall m | m in s'.hist ensures EndsLine(s'.hist[m][..s'.acked[m]]) && s'.acked[m] <= |s'.hist[m]| {
      assert s.hist[m][..s.acked[m]] == s'.hist[m][..s.acked[m]];
    }
  }

  lemma ReplacedNames(s: Sys, s': Sys, n: nat, f: File)
    requires Core(s) && Segment(n) in s.fs.dir && n in s.hist && Replaces(s, s', n, f)
    ensures Unshared(s'.fs)
  {
    hide Kept, OneInode, Sealed, Settled;
    forall a, b, i | May(s'.fs, a, Some(i)) && May(s'.fs, b, Some(i)) && a != b ensures Partners(a, b) {
      assert May(s.fs, a, Some(i)) && May(s.fs, b, Some(i));
    }
  }

  lemma FileCore(s: Sys, s': Sys, n: nat, f: File)
    requires Core(s) && Segment(n) in s.fs.dir && n in s.hist && Replaces(s, s', n, f)
    ensures Core(s')
  {
    hide Replaces, Unshared, Contents, OneInode, Bounded, Kept, Sealed;
    ReplacedFiles(s, s', n, f);
    ReplacedHistory(s, s', n, f);
    ReplacedNames(s, s', n, f);
  }

  lemma FsyncCore(s: Sys, n: nat)
    requires Core(s) && Segment(n) in s.fs.dir
    ensures Core(Called(s, Fsync(Segment(n))))
  {
    var at := s.fs.dir[Segment(n)];
    assert Holds(s.fs, n, at);
    var f := s.fs.files[at];
    assert f.bytes <= Reach(f);
    FileCore(s, Called(s, Fsync(Segment(n))), n, SyncFile(f));
  }

  lemma SetLenCore(s: Sys, n: nat, len: nat)
    requires Core(s) && Segment(n) in s.fs.dir && len <= |FileOf(s.fs, Segment(n)).bytes|
    requires n in s.acked && s.acked[n] <= len
    requires forall m | m in s.hist :: m <= n
    ensures Core(Called(s, SetLen(Segment(n), len)))
  {
    var at := s.fs.dir[Segment(n)];
    assert Holds(s.fs, n, at);
    var f := s.fs.files[at];
    assert f.bytes[..len] + (f.bytes[len..] + f.lost) == Reach(f);
    FileCore(s, Called(s, SetLen(Segment(n), len)), n, TruncateFile(f, len));
  }

  /** Appending to the newest segment, when nothing was cut off it. */
  lemma WriteCore(s: Sys, n: nat, text: Bytes)
    requires Core(s) && Segment(n) in s.fs.dir && n in s.hist
    requires FileOf(s.fs, Segment(n)).bytes == s.hist[n]
    requires forall m | m in s.hist :: m <= n
    requires forall e :: (Segment(n), e) !in s.fs.alt
    ensures Core(Called(s, Write(Segment(n), text)))
  {
    var at := s.fs.dir[Segment(n)];
    assert Holds(s.fs, n, at);
    var f := s.fs.files[at];
    FileCore(s, Called(s, Write(Segment(n), text)), n, WriteFile(f, text));
  }

  lemma CreateCore(s: Sys, n: nat)
    requires Core(s) && Segment(n) !in s.fs.dir
    requires forall m | m in s.hist :: m < n
    requires forall m: nat, i: Ino | Holds(s.fs, m, i) :: i < |s.fs.files| && Settled(s.fs.files[i])
    ensures Core(Called(s, Create(Segment(n))))
  {
    var s' := Called(s, Create(Segment(n)));
    forall m: nat, i: Ino | Holds(s'.fs, m, i) ensures (Holds(s.fs, m, i) && m < n) || (m == n && i == |s.fs.files|) {
      if Holds(s.fs, m, i) { assert m in s.hist; }
    }
    CreateUnshared(s.fs, Segment(n));
    hide Unshared, Settled;
  }

  lemma CreateUnshared(fs: Fs, name: Name)
    requires WellFormed(fs) && Unshared(fs) && name !in fs.dir
    ensures Unshared(Exec(fs, Create(name)))
  {
    var fs' := Exec(fs, Create(name));
    forall a, b, i | May(fs', a, Some(i)) && May(fs', b, Some(i)) && a != b ensures Partners(a, b) {
      assert May(fs, a, Some(i)) || (a == name && i == |fs.files|);
      assert May(fs, b, Some(i)) || (b == name && i == |fs.files|);
    }
  }

  lemma UnlinkCore(s: Sys, g: nat)
    requires Core(s) && Segment(g) in s.fs.dir
    ensures Core(Called(s, Unlink(Segment(g))))
  {
    var s' := Called(s, Unlink(Segment(g)));
    forall n, i | May(s'.fs, n, Some(i)) ensures May(s.fs, n, Some(i)) {}
    forall m: nat, i: Ino | Holds(s'.fs, m, i) ensures Holds(s.fs, m, i) {}
  }

  lemma CrashCore(s: Sys, fs': Fs)
    requires Core(s) && Crash(s.fs, fs')
    ensures Core(s.(fs := fs'))
  {
    var s' := s.(fs := fs');
    CrashWellFormed(s.fs, fs');
    forall n, i | May(fs', n, Some(i)) ensures May(s.fs, n, Some(i)) {
      assert May(s.fs, n, Lookup(fs', n));
    }
    forall n: nat, i: Ino | Holds(fs', n, i)
      ensures Holds(s.fs, n, i) && Reach(fs'.files[i]) <= Reach(s.fs.files[i])
              && s.fs.files[i].synced <= fs'.files[i].synced
              && (Settled(s.fs.files[i]) ==> Settled(fs'.files[i]))
    {
      assert May(s.fs, Segment(n), Some(i));
      assert CrashFile(s.fs.files[i], fs'.files[i]);
      SettledSurvives(s.fs.files[i], fs'.files[i]);
    }
    forall n | Wrote(s, n) && n !in s.pruned ensures Segment(n) in fs'.dir {
      assert May(s.fs, Segment(n), Lookup(fs', Segment(n)));
    }
  }

  lemma SettledSurvives(f: File, f': File)
    requires CrashFile(f, f')
    ensures Reach(f') <= Reach(f)
    ensures Settled(f) ==> f' == f
  {
    assert f'.bytes + f'.lost == f'.bytes;
    if Settled(f) {
      assert f.bytes + f.lost == f.bytes;
    }
  }
}
