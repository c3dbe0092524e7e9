/**
 The storage-generation identity of a journal directory: how it is created, published and recovered, given as
 the list of calls that the first reads decide.
 */
module IncarnationProtocol {
  import opened Wrappers
  import opened FileSystem
  import opened MetadataText
  import opened Reservation

  datatype IdPlan = IdPlan(cmds: seq<Cmd>, outcome: Result<Bytes, Failure>)

  const CommitPublication: seq<Cmd> := [SyncDir, Unlink(IncarnationPending), SyncDir]
  const Publish: seq<Cmd> := [Link(IncarnationPending, Incarnation)] + CommitPublication

  function WriteIdentity(id: Bytes): seq<Cmd>
  {
    [Create(IncarnationPending), Write(IncarnationPending, id), Fsync(IncarnationPending)]
  }

  /** `read_incarnation` of a name that is there */
  predicate ReadsWell(fs: Fs, n: Name)
    requires WellFormed(fs) && n in fs.dir
  {
    ValidIncarnation(FileOf(fs, n).bytes)
  }

  /** `validate_published_incarnation_links` */
  predicate LinksConsistent(fs: Fs)
    requires Incarnation in fs.dir
  {
    if IncarnationPending in fs.dir then
      fs.dir[IncarnationPending] == fs.dir[Incarnation] && |Links(fs, fs.dir[Incarnation])| == 2
    else SingleLink(fs, Incarnation)
  }

  /** `open_incarnation_locked`; `minted` is the identity it would generate. */
  function OpenIdentity(fs: Fs, minted: Bytes): IdPlan
    requires WellFormed(fs)
  {
    if Incarnation in fs.dir then
      if !ReadsWell(fs, Incarnation) || !LinksConsistent(fs) then IdPlan([], Err(InvalidData))
      else IdPlan(if IncarnationPending in fs.dir then CommitPublication else [], Ok(FileOf(fs, Incarnation).bytes))
    else if IncarnationPending !in fs.dir then
      IdPlan(WriteIdentity(minted) + Publish, Ok(minted))
    else if !ReadsWell(fs, IncarnationPending) then
      IdPlan([Unlink(IncarnationPending), SyncDir] + WriteIdentity(minted) + Publish, Ok(minted))
    else if !SingleLink(fs, IncarnationPending) then IdPlan([], Err(InvalidData))
    else IdPlan([Fsync(IncarnationPending)] + Publish, Ok(FileOf(fs, IncarnationPending).bytes))
  }

  lemma LinksMean(fs: Fs)
    requires Incarnation in fs.dir
    ensures LinksConsistent(fs) <==>
              && (IncarnationPending in fs.dir ==> fs.dir[IncarnationPending] == fs.dir[Incarnation])
              && forall m | m in fs.dir && fs.dir[m] == fs.dir[Incarnation] :: m == Incarnation || m == IncarnationPending
  {
    OnlyName(fs, Incarnation);
    var links := Links(fs, fs.dir[Incarnation]);
    if IncarnationPending in fs.dir && fs.dir[IncarnationPending] == fs.dir[Incarnation] {
      var others := links - {Incarnation} - {IncarnationPending};
      assert |links - {Incarnation}| == |links| - 1 && |others| == |links - {Incarnation}| - 1;
      if LinksConsistent(fs) {
        assert others == {};
        forall m | m in fs.dir && fs.dir[m] == fs.dir[Incarnation] ensures m == Incarnation || m == IncarnationPending {
          assert m in links;
        }
      } else {
        assert others != {};
        var m :| m in others;
      }
    }
  }

  /**
   Which identity an open that is left alone returns, for every directory: the published one if its text is whole and
   its names are in order, otherwise the pending one if that is whole and alone, otherwise a new one.
   */
  lemma IdentityOutcome(fs: Fs, minted: Bytes, id: Bytes)
    requires WellFormed(fs)
    ensures OpenIdentity(fs, minted).outcome == Ok(id) <==>
              if Incarnation in fs.dir then
                && id == FileOf(fs, Incarnation).bytes && ValidIncarnation(id)
                && (IncarnationPending in fs.dir ==> fs.dir[IncarnationPending] == fs.dir[Incarnation])
                && forall m | m in fs.dir && fs.dir[m] == fs.dir[Incarnation] :: m == Incarnation || m == IncarnationPending
              else if IncarnationPending in fs.dir && ValidIncarnation(FileOf(fs, IncarnationPending).bytes) then
                id == FileOf(fs, IncarnationPending).bytes && Alone(fs, IncarnationPending)
              else id == minted
  {
    if Incarnation in fs.dir { LinksMean(fs); }
    if IncarnationPending in fs.dir { OnlyName(fs, IncarnationPending); }
    hide LinksConsistent, SingleLink, ValidIncarnation;
  }
}

/** No crash, at any point of any open, makes a directory change its identity. */
module IncarnationSafety {
  import opened Wrappers
  import opened FileSystem
  import opened MetadataText
  import opened Procedures
  import opened Reservation
  import opened ReservationSafety
  import opened IncarnationProtocol

  /** A whole identity, on disk. */
  predicate Solid(f: File) { f.synced == |f.bytes| && f.lost == [] && ValidIncarnation(f.bytes) }

  /** `id` is the identity that some open has returned, if any has. */
  ghost predicate IdInv(fs: Fs, id: Option<Bytes>)
  {
    && WellFormed(fs) && Unshared(fs)
    && (forall i: Ino | May(fs, Incarnation, Some(i)) :: i < |fs.files| && Solid(fs.files[i]))
    && (forall i: Ino, j: Ino | May(fs, Incarnation, Some(i)) && May(fs, Incarnation, Some(j)) :: i == j)
    && (Incarnation !in fs.dir ==> forall e | May(fs, Incarnation, e) :: e.None?)
    && (Incarnation in fs.dir && IncarnationPending !in fs.dir ==>
          && (forall e | May(fs, Incarnation, e) :: e.Some?)
          && (forall e | May(fs, IncarnationPending, e) :: e.None? || e == Some(fs.dir[Incarnation])))
    && (id.Some? ==> Returned(fs, id.value))
  }

  /** The identity is published and cannot revert; the pending name is gone or comes back as the same file. */
  ghost predicate Returned(fs: Fs, id: Bytes)
    requires WellFormed(fs)
  {
    && Incarnation in fs.dir && FileOf(fs, Incarnation).bytes == id
    && (forall e | May(fs, Incarnation, e) :: e == Some(fs.dir[Incarnation]))
    && (forall e | May(fs, IncarnationPending, e) :: e.None? || e == Some(fs.dir[Incarnation]))
  }

  ghost function IdInvOf(id: Option<Bytes>): Fs -> bool { fs => IdInv(fs, id) }

  ghost function ReturnedAs(id: Bytes): Fs -> bool { fs => WellFormed(fs) && Returned(fs, id) }

  // ----- link counts -----

  lemma OnlyLink(fs: Fs, n: Name, other: Name)
    requires WellFormed(fs) && Unshared(fs) && n in fs.dir
    requires (n == Incarnation && other == IncarnationPending) || (n == IncarnationPending && other == Incarnation)
    ensures other !in fs.dir ==> Links(fs, fs.dir[n]) == {n}
    ensures other in fs.dir && fs.dir[other] == fs.dir[n] ==> Links(fs, fs.dir[n]) == {n, other}
  {
    forall a | a in Links(fs, fs.dir[n]) ensures a == n || a == other {
      assert May(fs, a, Some(fs.dir[n])) && May(fs, n, Some(fs.dir[n]));
    }
  }

  // ----- the calls -----

  /** The last steps of a publication: the final name is linked and the pending name is still there. */
  lemma CommitSafe(fs: Fs, id: Option<Bytes>)
    requires IdInv(fs, id) && Incarnation in fs.dir && IncarnationPending in fs.dir && !Mismatched(fs)
    ensures Safe(IdInvOf(id), ReturnedAs(FileOf(fs, Incarnation).bytes), fs, CommitPublication)
  {
    var inv, goal := IdInvOf(id), ReturnedAs(FileOf(fs, Incarnation).bytes);
    var fs1 := Exec(fs, SyncDir);
    SyncKeepsIdentity(fs, id);
    var fs2 := Exec(fs1, Unlink(IncarnationPending));
    UnlinkKeepsIdentity(fs1, id);
    var fs3 := Exec(fs2, SyncDir);
    SyncKeepsIdentity(fs2, id);
    assert Returned(fs3, FileOf(fs, Incarnation).bytes);
    hide IdInv, Returned;
    Done(inv, goal, fs3);
    Step(inv, goal, fs2, SyncDir, []);
    Step(inv, goal, fs1, Unlink(IncarnationPending), [SyncDir] + []);
    Step(inv, goal, fs, SyncDir, [Unlink(IncarnationPending)] + ([SyncDir] + []));
    assert [SyncDir] + ([Unlink(IncarnationPending)] + ([SyncDir] + [])) == CommitPublication;
  }

  lemma SyncKeepsIdentity(fs: Fs, id: Option<Bytes>)
    requires IdInv(fs, id)
    ensures IdInv(Exec(fs, SyncDir), id)
  {
    forall n, e | May(Exec(fs, SyncDir), n, e) ensures May(fs, n, e) {}
  }

  lemma UnlinkKeepsIdentity(fs: Fs, id: Option<Bytes>)
    requires IdInv(fs, id) && IncarnationPending in fs.dir && Incarnation in fs.dir && !Mismatched(fs) && fs.alt == {}
    ensures IdInv(Exec(fs, Unlink(IncarnationPending)), id)
  {
    forall n, i | May(Exec(fs, Unlink(IncarnationPending)), n, Some(i)) ensures May(fs, n, Some(i)) {}
  }

  /** Publication of a pending identity that is on disk. */
  lemma PublishSafe(fs: Fs)
    requires IdInv(fs, None) && Incarnation !in fs.dir && IncarnationPending in fs.dir
    requires Solid(FileOf(fs, IncarnationPending))
    ensures Safe(IdInvOf(None), ReturnedAs(FileOf(fs, IncarnationPending).bytes), fs, Publish)
  {
    var inv, goal := IdInvOf(None), ReturnedAs(FileOf(fs, IncarnationPending).bytes);
    var fs1 := Exec(fs, Link(IncarnationPending, Incarnation));
    var p := fs.dir[IncarnationPending];
    forall n, i | May(fs1, n, Some(i)) ensures May(fs, n, Some(i)) || (n == Incarnation && i == p) {}
    forall a, b, i | May(fs1, a, Some(i)) && May(fs1, b, Some(i)) && a != b ensures Partners(a, b) {
      assert May(fs, IncarnationPending, Some(p));
      assert a == Incarnation && i == p && b != IncarnationPending ==> May(fs, b, Some(p));
      assert b == Incarnation && i == p && a != IncarnationPending ==> May(fs, a, Some(p));
    }
    assert IdInv(fs1, None);
    CommitSafe(fs1, None);
    hide IdInv;
    Step(inv, goal, fs, Link(IncarnationPending, Incarnation), CommitPublication);
  }

  /** Calls that touch the pending name only, while nothing is published. */
  lemma PendingCallKeeps(fs: Fs, c: Cmd)
    requires IdInv(fs, None) && Incarnation !in fs.dir && Enabled(fs, c)
    requires c == SyncDir || c == Create(IncarnationPending) || c == Unlink(IncarnationPending)
             || (c.Write? && c.name == IncarnationPending) || c == Fsync(IncarnationPending)
    ensures IdInv(Exec(fs, c), None) && Incarnation !in Exec(fs, c).dir
  {
    var fs' := Exec(fs, c);
    forall n, i | May(fs', n, Some(i)) ensures May(fs, n, Some(i)) || (n == IncarnationPending && i == |fs.files|) {}
    forall a, b, i: Ino | May(fs', a, Some(i)) && May(fs', b, Some(i)) && a != b ensures Partners(a, b) {
      assert i < |fs.files| ==> May(fs, a, Some(i)) && May(fs, b, Some(i));
    }
  }

  lemma WriteSafe(fs: Fs, id: Bytes)
    requires IdInv(fs, None) && Incarnation !in fs.dir && IncarnationPending !in fs.dir && ValidIncarnation(id)
    ensures Safe(IdInvOf(None), ReturnedAs(id), fs, WriteIdentity(id) + Publish)
  {
    var inv, goal := IdInvOf(None), ReturnedAs(id);
    var fs1 := Exec(fs, Create(IncarnationPending));
    PendingCallKeeps(fs, Create(IncarnationPending));
    var fs2 := Exec(fs1, Write(IncarnationPending, id));
    PartKeeps(fs1, id);
    SyncedSafe(fs2, id) by { assert FileOf(fs2, IncarnationPending).bytes == [] + id == id; }
    hide IdInv, ReturnedAs, WriteIdentity;
    var rest := [Fsync(IncarnationPending)] + Publish;
    WriteStep(inv, goal, fs1, IncarnationPending, id, rest);
    Step(inv, goal, fs, Create(IncarnationPending), [Write(IncarnationPending, id)] + rest);
    WriteCalls(id, Publish);
  }

  lemma WriteCalls(id: Bytes, rest: seq<Cmd>)
    ensures [Create(IncarnationPending)] + ([Write(IncarnationPending, id)] + ([Fsync(IncarnationPending)] + rest))
            == WriteIdentity(id) + rest
  {}

  lemma PartKeeps(fs: Fs, id: Bytes)
    requires IdInv(fs, None) && Incarnation !in fs.dir && IncarnationPending in fs.dir
    ensures forall k: nat | k <= |id| :: IdInvOf(None)(Exec(fs, Write(IncarnationPending, id[..k])))
    ensures IdInv(Exec(fs, Write(IncarnationPending, id)), None)
  {
    forall k: nat | k <= |id| ensures IdInv(Exec(fs, Write(IncarnationPending, id[..k])), None) {
      PendingCallKeeps(fs, Write(IncarnationPending, id[..k]));
    }
    PendingCallKeeps(fs, Write(IncarnationPending, id));
  }

  /** A pending identity that reads well is made durable and published. */
  lemma SyncedSafe(fs: Fs, id: Bytes)
    requires IdInv(fs, None) && Incarnation !in fs.dir && IncarnationPending in fs.dir
    requires FileOf(fs, IncarnationPending).bytes == id && ValidIncarnation(id)
    ensures Safe(IdInvOf(None), ReturnedAs(id), fs, [Fsync(IncarnationPending)] + Publish)
  {
    var fs1 := Exec(fs, Fsync(IncarnationPending));
    PendingCallKeeps(fs, Fsync(IncarnationPending));
    PublishSafe(fs1);
    hide IdInv;
    Step(IdInvOf(None), ReturnedAs(id), fs, Fsync(IncarnationPending), Publish);
  }

  lemma RewriteSafe(fs: Fs, id: Bytes)
    requires IdInv(fs, None) && Incarnation !in fs.dir && IncarnationPending in fs.dir && ValidIncarnation(id)
    ensures Safe(IdInvOf(None), ReturnedAs(id), fs, [Unlink(IncarnationPending), SyncDir] + WriteIdentity(id) + Publish)
  {
    var inv, goal := IdInvOf(None), ReturnedAs(id);
    var fs1 := Exec(fs, Unlink(IncarnationPending));
    PendingCallKeeps(fs, Unlink(IncarnationPending));
    var fs2 := Exec(fs1, SyncDir);
    PendingCallKeeps(fs1, SyncDir);
    var rest := WriteIdentity(id) + Publish;
    WriteSafe(fs2, id);
    hide IdInv, ReturnedAs;
    Step(inv, goal, fs1, SyncDir, rest);
    Step(inv, goal, fs, Unlink(IncarnationPending), [SyncDir] + rest);
    assert [Unlink(IncarnationPending)] + ([SyncDir] + rest)
           == [Unlink(IncarnationPending), SyncDir] + WriteIdentity(id) + Publish;
  }

  /** The one state that an open refuses: a final name and a pending name that are different files. */
  predicate Mismatched(fs: Fs)
  {
    Incarnation in fs.dir && IncarnationPending in fs.dir && fs.dir[Incarnation] != fs.dir[IncarnationPending]
  }

  /**
   From every state the protocol can be in, an open succeeds unless the two names are different files; it may
   stop at any point; when it returns, its identity is durable; and an identity that was returned before is
   returned again.
   */
  lemma OpenIdentitySafe(fs: Fs, id: Option<Bytes>, minted: Bytes)
    requires IdInv(fs, id) && ValidIncarnation(minted)
    ensures OpenIdentity(fs, minted).outcome.Err? <==> Mismatched(fs)
    ensures id.Some? ==> !Mismatched(fs)
    ensures var plan := OpenIdentity(fs, minted);
            match plan.outcome
            case Ok(t) => Safe(IdInvOf(id), ReturnedAs(t), fs, plan.cmds) && (id.Some? ==> t == id.value)
            case Err(_) => plan.cmds == []
  {
    if Incarnation in fs.dir {
      assert May(fs, Incarnation, Some(fs.dir[Incarnation]));
      OnlyLink(fs, Incarnation, IncarnationPending);
      if IncarnationPending in fs.dir {
        assert May(fs, IncarnationPending, Some(fs.dir[IncarnationPending]));
        if !Mismatched(fs) { CommitSafe(fs, id); }
      } else {
        Done(IdInvOf(id), ReturnedAs(FileOf(fs, Incarnation).bytes), fs);
      }
    } else {
      if IncarnationPending !in fs.dir {
        WriteSafe(fs, minted);
      } else {
        OnlyLink(fs, IncarnationPending, Incarnation);
        if ReadsWell(fs, IncarnationPending) {
          SyncedSafe(fs, FileOf(fs, IncarnationPending).bytes);
        } else {
          RewriteSafe(fs, minted);
        }
      }
    }
  }

  lemma CrashKeepsIdentity(fs: Fs, fs': Fs, id: Option<Bytes>)
    requires IdInv(fs, id) && Crash(fs, fs')
    ensures IdInv(fs', id)
  {
    CrashWellFormed(fs, fs');
    forall n, e | May(fs', n, e) ensures May(fs, n, e) && e == Lookup(fs', n) {}
    forall i: Ino | May(fs', Incarnation, Some(i)) ensures i < |fs.files| && fs'.files[i] == fs.files[i] {
      assert May(fs, Incarnation, Some(i)) && CrashFile(fs.files[i], fs'.files[i]);
    }
    CrashUnshared(fs, fs');
    if id.Some? {
      assert May(fs', Incarnation, Lookup(fs', Incarnation));
      assert fs'.dir[Incarnation] == fs.dir[Incarnation];
    }
    if Incarnation in fs'.dir {
      assert May(fs', Incarnation, Some(fs'.dir[Incarnation]));
    }
  }

  lemma CrashUnshared(fs: Fs, fs': Fs)
    requires WellFormed(fs) && Unshared(fs) && Crash(fs, fs') && WellFormed(fs')
    ensures Unshared(fs')
  {
    forall n, e | May(fs', n, e) ensures May(fs, n, e) {}
  }
}
