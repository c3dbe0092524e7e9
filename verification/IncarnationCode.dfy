/** `open_incarnation_locked` in the source's form, proved to follow its plan. */
module IncarnationCode {
  import opened Wrappers
  import opened FileSystem
  import opened Reservation
  import opened DirectoryCode
  import opened ReservationCode
  import opened IncarnationProtocol

  ghost predicate FollowsId(fs: Fs, plan: IdPlan, r: Result<Bytes, OpenError>, fs': Fs)
    requires WellFormed(fs)
  {
    match r
    case Ok(v) => plan.outcome == Ok(v) && Reached(fs, plan.cmds, |plan.cmds|, fs')
    case Err(Data(f)) => plan.outcome == Err(f) && Reached(fs, plan.cmds, |plan.cmds|, fs')
    case Err(Io) => Interrupted(fs, plan.cmds, fs')
  }

  /** The final name is committed before the evidence of its publication goes. */
  method CommitPending(dir: Directory, ghost from: Fs, ghost plan: seq<Cmd>, ghost n: nat) returns (ok: bool)
    requires Reached(from, plan, n, dir.fs) && Planned(plan, n, CommitPublication)
    modifies dir
    ensures ok ==> Reached(from, plan, n + 3, dir.fs)
    ensures !ok ==> Interrupted(from, plan, dir.fs)
    ensures dir.faults == old(dir.faults) + (if ok then 0 else 1)
  {
    assert CommitPublication[0] == SyncDir && CommitPublication[1] == Unlink(IncarnationPending)
           && CommitPublication[2] == SyncDir;
    hide Reached, Interrupted;
    ok := dir.Step(SyncDir, from, plan, n);
    if !ok { return; }
    ok := dir.Step(Unlink(IncarnationPending), from, plan, n + 1);
    if !ok { return; }
    ok := dir.Step(SyncDir, from, plan, n + 2);
  }

  /** `write_pending` */
  method WritePendingIdentity(dir: Directory, id: Bytes, ghost from: Fs, ghost plan: seq<Cmd>, ghost n: nat)
    returns (ok: bool)
    requires Reached(from, plan, n, dir.fs) && Planned(plan, n, WriteIdentity(id))
    modifies dir
    ensures ok ==> Reached(from, plan, n + 3, dir.fs)
    ensures !ok ==> Interrupted(from, plan, dir.fs)
    ensures dir.faults == old(dir.faults) + (if ok then 0 else 1)
  {
    var calls := WriteIdentity(id);
    assert calls[0] == Create(IncarnationPending) && calls[1] == Write(IncarnationPending, id)
           && calls[2] == Fsync(IncarnationPending);
    hide Reached, Interrupted;
    ok := dir.Step(Create(IncarnationPending), from, plan, n);
    if !ok { return; }
    ok := dir.Step(Write(IncarnationPending, id), from, plan, n + 1);
    if !ok { return; }
    ok := dir.Step(Fsync(IncarnationPending), from, plan, n + 2);
  }

  lemma IdentityCalls(fs: Fs, minted: Bytes)
    requires WellFormed(fs) && Incarnation !in fs.dir
    requires IncarnationPending in fs.dir && ReadsWell(fs, IncarnationPending) ==> SingleLink(fs, IncarnationPending)
    ensures var plan := OpenIdentity(fs, minted);
            var c := plan.cmds;
            var n := |c| - 4;
            && n >= 0 && c[n] == Link(IncarnationPending, Incarnation) && Planned(c, n + 1, CommitPublication)
            && (if IncarnationPending !in fs.dir
                then n == 3 && plan.outcome == Ok(minted) && Planned(c, 0, WriteIdentity(minted))
                else if !ReadsWell(fs, IncarnationPending) then
                  n == 5 && plan.outcome == Ok(minted) && c[0] == Unlink(IncarnationPending) && c[1] == SyncDir
                  && Planned(c, 2, WriteIdentity(minted))
                else n == 1 && plan.outcome == Ok(FileOf(fs, IncarnationPending).bytes) && c[0] == Fsync(IncarnationPending))
  {}

  /** The final name is there. */
  method OpenPublishedIdentity(dir: Directory, minted: Bytes) returns (r: Result<Bytes, OpenError>)
    requires WellFormed(dir.fs) && Incarnation in dir.fs.dir
    modifies dir
    ensures FollowsId(old(dir.fs), OpenIdentity(old(dir.fs), minted), r, dir.fs)
    ensures dir.faults == old(dir.faults) + (if r == Err(Io) then 1 else 0)
  {
    ghost var from, plan := dir.fs, OpenIdentity(dir.fs, minted);
    NoneMade(from, plan.cmds);
    hide Reached, Interrupted;
    if !ReadsWell(dir.fs, Incarnation) { return Err(Data(InvalidData)); }
    var identity := FileOf(dir.fs, Incarnation).bytes;
    if !LinksConsistent(dir.fs) { return Err(Data(InvalidData)); }
    if IncarnationPending in dir.fs.dir {
      var ok := CommitPending(dir, from, plan.cmds, 0);
      if !ok { return Err(Io); }
    }
    r := Ok(identity);
  }

  /** The pending name is prepared: kept and synced, or written anew. */
  method PreparePending(dir: Directory, minted: Bytes, ghost from: Fs, ghost plan: IdPlan)
    returns (r: Result<Bytes, OpenError>, ghost n: nat)
    requires WellFormed(dir.fs) && Incarnation !in dir.fs.dir && from == dir.fs && plan == OpenIdentity(dir.fs, minted)
    modifies dir
    ensures r.Ok? ==> Reached(from, plan.cmds, n, dir.fs) && |plan.cmds| == n + 4 && plan.outcome == Ok(r.value)
                      && plan.cmds[n] == Link(IncarnationPending, Incarnation) && Planned(plan.cmds, n + 1, CommitPublication)
    ensures r.Err? ==> FollowsId(from, plan, r, dir.fs)
    ensures dir.faults == old(dir.faults) + (if r == Err(Io) then 1 else 0)
  {
    NoneMade(from, plan.cmds);
    n := 0;
    if IncarnationPending in dir.fs.dir && ReadsWell(dir.fs, IncarnationPending) && !SingleLink(dir.fs, IncarnationPending) {
      return Err(Data(InvalidData)), n;
    }
    IdentityCalls(from, minted);
    hide Reached, Interrupted, OpenIdentity;
    var ok;
    if IncarnationPending in dir.fs.dir && ReadsWell(dir.fs, IncarnationPending) {
      r := Ok(FileOf(dir.fs, IncarnationPending).bytes);
      ok := dir.Step(Fsync(IncarnationPending), from, plan.cmds, 0);
      if !ok { return Err(Io), n; }
      n := 1;
    } else {
      if IncarnationPending in dir.fs.dir {
        ok := dir.Step(Unlink(IncarnationPending), from, plan.cmds, 0);
        if !ok { return Err(Io), n; }
        ok := dir.Step(SyncDir, from, plan.cmds, 1);
        if !ok { return Err(Io), n; }
        n := 2;
      }
      ok := WritePendingIdentity(dir, minted, from, plan.cmds, n);
      if !ok { return Err(Io), n; }
      r, n := Ok(minted), n + 3;
    }
  }

  /** `open_incarnation_locked` */
  method OpenIncarnationLocked(dir: Directory, minted: Bytes) returns (r: Result<Bytes, OpenError>)
    requires WellFormed(dir.fs)
    modifies dir
    ensures FollowsId(old(dir.fs), OpenIdentity(old(dir.fs), minted), r, dir.fs)
    ensures dir.faults == old(dir.faults) + (if r == Err(Io) then 1 else 0)
  {
    if Incarnation in dir.fs.dir {
      r := OpenPublishedIdentity(dir, minted);
      return;
    }
    ghost var from, plan := dir.fs, OpenIdentity(dir.fs, minted);
    hide Reached, Interrupted, OpenIdentity;
    ghost var n;
    r, n := PreparePending(dir, minted, from, plan);
    if r.Err? { return; }
    var ok := dir.Step(Link(IncarnationPending, Incarnation), from, plan.cmds, n);
    if !ok { return Err(Io); }
    ok := CommitPending(dir, from, plan.cmds, n + 1);
    if !ok { return Err(Io); }
  }
}
