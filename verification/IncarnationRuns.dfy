/** Every run of opens, failures and crashes of one directory agrees on its identity. */
module IncarnationRuns {
  import opened Wrappers
  import opened FileSystem
  import opened MetadataText
  import opened Procedures
  import opened Reservation
  import opened ReservationSafety
  import opened IncarnationProtocol
  import opened IncarnationSafety

  datatype Phase = Down | Opening(outcome: Result<Bytes, Failure>)

  /** `returned` is what the latest open that succeeded has returned. */
  datatype Sys = Sys(fs: Fs, todo: seq<Cmd>, phase: Phase, returned: Option<Bytes>)

  /** How far the next call got before it was interrupted. */
  ghost predicate Partly(s: Sys, fs': Fs)
  {
    || fs' == s.fs
    || (s.todo != [] && WellFormed(s.fs) && Enabled(s.fs, s.todo[0]) && Torn(s.fs, s.todo[0], fs'))
  }

  ghost predicate Start(s: Sys, s': Sys)
  {
    && s.phase.Down? && WellFormed(s.fs)
    && exists minted :: ValidIncarnation(minted)
         && s' == s.(phase := Opening(OpenIdentity(s.fs, minted).outcome), todo := OpenIdentity(s.fs, minted).cmds)
  }

  ghost predicate Call(s: Sys, s': Sys)
  {
    && s.phase.Opening? && s.todo != [] && WellFormed(s.fs) && Enabled(s.fs, s.todo[0])
    && s' == s.(fs := Exec(s.fs, s.todo[0]), todo := s.todo[1..])
  }

  ghost predicate Return(s: Sys, s': Sys)
  {
    && s.phase.Opening? && s.todo == []
    && s' == s.(phase := Down, returned := if s.phase.outcome.Ok? then Some(s.phase.outcome.value) else s.returned)
  }

  /** A call fails, or the process ends. */
  ghost predicate Stop(s: Sys, s': Sys)
  {
    exists fs :: Partly(s, fs) && s' == s.(fs := fs, todo := [], phase := Down)
  }

  ghost predicate PowerLoss(s: Sys, s': Sys)
  {
    exists fs :: Partly(s, fs) && Crash(fs, s'.fs) && s' == s.(fs := s'.fs, todo := [], phase := Down)
  }

  predicate Foreign(n: Name) { n != Incarnation && n != IncarnationPending }

  predicate ForeignCmd(c: Cmd)
  {
    match c
    case SyncDir => true
    case Link(from, to) => Foreign(from) && Foreign(to) && Partners(from, to)
    case Create(n) => Foreign(n)
    case Unlink(n) => Foreign(n)
    case Write(n, _) => Foreign(n)
    case Fsync(n) => Foreign(n)
    case SetLen(n, _) => Foreign(n)
  }

  /** A call on any other name of the directory. The lock keeps these out of an open that has calls to make. */
  ghost predicate Elsewhere(s: Sys, s': Sys)
  {
    && s.phase.Down? && WellFormed(s.fs)
    && exists c :: Enabled(s.fs, c) && ForeignCmd(c) && s' == s.(fs := Exec(s.fs, c))
  }

  ghost predicate Next(s: Sys, s': Sys)
  {
    Start(s, s') || Call(s, s') || Return(s, s') || Stop(s, s') || PowerLoss(s, s') || Elsewhere(s, s')
  }

  ghost predicate Init(s: Sys)
  {
    && WellFormed(s.fs) && Unshared(s.fs) && s.todo == [] && s.phase.Down? && s.returned.None?
    && (forall e | May(s.fs, Incarnation, e) || May(s.fs, IncarnationPending, e) :: e.None?)
  }

  ghost predicate Run(run: seq<Sys>)
  {
    run != [] && Init(run[0]) && forall i | 0 <= i < |run| - 1 :: Next(run[i], run[i + 1])
  }

  ghost predicate RunInv(s: Sys)
  {
    && IdInv(s.fs, s.returned)
    && match s.phase
       case Down => s.todo == []
       case Opening(Err(_)) => s.todo == []
       case Opening(Ok(t)) =>
         && Safe(IdInvOf(s.returned), ReturnedAs(t), s.fs, s.todo)
         && (s.returned.Some? ==> t == s.returned.value)
  }

  lemma ElsewhereKeeps(s: Sys, s': Sys, id: Option<Bytes>)
    requires IdInv(s.fs, id) && Elsewhere(s, s')
    ensures IdInv(s'.fs, id)
  {
    var c :| Enabled(s.fs, c) && ForeignCmd(c) && s' == s.(fs := Exec(s.fs, c));
    ForeignUnshared(s.fs, c);
    forall n, i: Ino {:trigger May(s.fs, n, Some(i))} | May(s.fs, n, Some(i)) && !Foreign(n)
      ensures i < |s.fs.files| && s'.fs.files[i] == s.fs.files[i]
    {
      ForeignFile(s.fs, c, n, i);
    }
    ForeignNames(s.fs, c);
    hide *;
    IdFrame(s.fs, s'.fs, id);
  }

  lemma ForeignNames(fs: Fs, c: Cmd)
    requires WellFormed(fs) && Enabled(fs, c) && ForeignCmd(c)
    ensures forall n | !Foreign(n) :: Lookup(Exec(fs, c), n) == Lookup(fs, n)
    ensures forall n, e | May(Exec(fs, c), n, e) && !Foreign(n) :: May(fs, n, e)
    ensures |Exec(fs, c).files| >= |fs.files|
  {}

  /** The invariant only looks at the two names and their files. */
  lemma IdFrame(fs: Fs, fs': Fs, id: Option<Bytes>)
    requires IdInv(fs, id) && WellFormed(fs') && Unshared(fs') && |fs'.files| >= |fs.files|
    requires forall n | !Foreign(n) :: Lookup(fs', n) == Lookup(fs, n)
    requires forall n, e | May(fs', n, e) && !Foreign(n) :: May(fs, n, e)
    requires forall n, i: Ino {:trigger May(fs, n, Some(i))} | May(fs, n, Some(i)) && !Foreign(n) ::
               i < |fs.files| && fs'.files[i] == fs.files[i]
    ensures IdInv(fs', id)
  {
    assert !Foreign(Incarnation) && !Foreign(IncarnationPending);
    assert Lookup(fs', Incarnation) == Lookup(fs, Incarnation);
    assert Lookup(fs', IncarnationPending) == Lookup(fs, IncarnationPending);
    assert Incarnation in fs.dir ==> May(fs, Incarnation, Some(fs.dir[Incarnation]));
  }

  /** Such a call leaves the files of the two names alone. */
  lemma ForeignFile(fs: Fs, c: Cmd, n: Name, i: Ino)
    requires WellFormed(fs) && Unshared(fs) && Enabled(fs, c) && ForeignCmd(c) && !Foreign(n) && May(fs, n, Some(i))
    ensures i < |fs.files| && Exec(fs, c).files[i] == fs.files[i]
  {
    if c.Write? || c.Fsync? || c.SetLen? {
      assert May(fs, c.name, Some(fs.dir[c.name]));
    }
  }

  lemma ForeignUnshared(fs: Fs, c: Cmd)
    requires WellFormed(fs) && Unshared(fs) && Enabled(fs, c) && ForeignCmd(c)
    ensures Unshared(Exec(fs, c))
  {
    var fs' := Exec(fs, c);
    assert c.Link? ==> May(fs, c.from, Some(fs.dir[c.from]));
    forall n, i: Ino | May(fs', n, Some(i))
      ensures || May(fs, n, Some(i))
              || (c.Create? && n == c.name && i == |fs.files|)
              || (c.Link? && n == c.to && i == fs.dir[c.from])
    {}
    forall a, b, i: Ino | May(fs', a, Some(i)) && May(fs', b, Some(i)) && a != b ensures Partners(a, b) {
      assert c.Link? && a == c.to && May(fs, b, Some(i)) && May(fs, c.from, Some(i)) ==> b == c.from || Partners(b, c.from);
      assert c.Link? && b == c.to && May(fs, a, Some(i)) && May(fs, c.from, Some(i)) ==> a == c.from || Partners(a, c.from);
    }
  }

  lemma PartlyKeeps(s: Sys, fs: Fs)
    requires RunInv(s) && Partly(s, fs)
    ensures IdInv(fs, s.returned)
  {
    hide IdInv;
    if fs != s.fs {
      assert IdInvOf(s.returned)(fs);
    }
  }

  lemma StartKeeps(s: Sys, s': Sys)
    requires RunInv(s) && Start(s, s')
    ensures RunInv(s')
  {
    hide IdInv, Returned, Safe, OpenIdentity;
    var minted :| ValidIncarnation(minted)
      && s' == s.(phase := Opening(OpenIdentity(s.fs, minted).outcome), todo := OpenIdentity(s.fs, minted).cmds);
    OpenIdentitySafe(s.fs, s.returned, minted);
  }

  lemma CallKeeps(s: Sys, s': Sys)
    requires RunInv(s) && Call(s, s')
    ensures RunInv(s')
  {
    hide IdInv, Returned;
    assert IdInvOf(s.returned)(s'.fs);
  }

  lemma ReturnKeeps(s: Sys, s': Sys)
    requires RunInv(s) && Return(s, s')
    ensures RunInv(s') && (s.returned.Some? ==> s'.returned == s.returned)
  {
    if s.phase.outcome.Ok? {
      assert ReturnedAs(s.phase.outcome.value)(s.fs);
    }
  }

  lemma StopKeeps(s: Sys, s': Sys)
    requires RunInv(s) && (Stop(s, s') || PowerLoss(s, s'))
    ensures RunInv(s')
  {
    hide IdInv, Safe, Partly;
    if Stop(s, s') {
      var fs :| Partly(s, fs) && s' == s.(fs := fs, todo := [], phase := Down);
      PartlyKeeps(s, fs);
    } else {
      var fs :| Partly(s, fs) && Crash(fs, s'.fs) && s' == s.(fs := s'.fs, todo := [], phase := Down);
      PartlyKeeps(s, fs);
      CrashKeepsIdentity(fs, s'.fs, s.returned);
    }
  }

  lemma StepKeeps(s: Sys, s': Sys)
    requires RunInv(s) && Next(s, s')
    ensures RunInv(s') && (s.returned.Some? ==> s'.returned == s.returned)
  {
    hide IdInv, Safe, OpenIdentity, Partly;
    if Start(s, s') { StartKeeps(s, s');
    } else if Call(s, s') { CallKeeps(s, s');
    } else if Return(s, s') { ReturnKeeps(s, s');
    } else if Elsewhere(s, s') { ElsewhereKeeps(s, s', s.returned);
    } else { StopKeeps(s, s'); }
  }

  lemma {:induction false} RunHolds(run: seq<Sys>, k: nat)
    requires Run(run) && k < |run|
    ensures RunInv(run[k])
  {
    if k > 0 {
      hide Next, RunInv;
      RunHolds(run, k - 1);
      StepKeeps(run[k - 1], run[k]);
    }
  }

  /** Once an open has returned an identity, every later open of the directory that succeeds returns the same. */
  lemma {:induction false} OneIdentity(run: seq<Sys>, i: nat, j: nat)
    requires Run(run) && i <= j < |run| && run[i].returned.Some?
    ensures run[j].returned == run[i].returned
    decreases j - i
  {
    hide Next, RunInv, Init;
    if i < j {
      OneIdentity(run, i, j - 1);
      RunHolds(run, j - 1);
      StepKeeps(run[j - 1], run[j]);
    }
  }

  /**
   After an identity was returned, an open that is left alone succeeds: each of its calls is possible in turn, it
   returns that identity, and then the identity is published for good.
   */
  lemma OpenAgain(run: seq<Sys>, k: nat, minted: Bytes)
    requires Run(run) && k < |run| && run[k].returned.Some? && ValidIncarnation(minted) && WellFormed(run[k].fs)
    ensures var plan, id := OpenIdentity(run[k].fs, minted), run[k].returned.value;
            && plan.outcome == Ok(id) && AllEnabled(run[k].fs, plan.cmds)
            && ReturnedAs(id)(ExecAll(run[k].fs, plan.cmds))
  {
    hide OpenIdentity, IdInv;
    RunHolds(run, k);
    var s, id := run[k], run[k].returned.value;
    OpenIdentitySafe(s.fs, s.returned, minted);
    SafeCompletes(IdInvOf(s.returned), ReturnedAs(id), s.fs, OpenIdentity(s.fs, minted).cmds);
  }

  /** A published name without a pending name is on disk: no crash takes it away or changes it. */
  lemma PublishedIsDurable(run: seq<Sys>, k: nat, fs: Fs)
    requires Run(run) && k < |run| && WellFormed(run[k].fs) && Crash(run[k].fs, fs)
    requires Incarnation in run[k].fs.dir && IncarnationPending !in run[k].fs.dir
    ensures WellFormed(fs) && Incarnation in fs.dir
    ensures FileOf(fs, Incarnation).bytes == FileOf(run[k].fs, Incarnation).bytes
    ensures ValidIncarnation(FileOf(fs, Incarnation).bytes)
  {
    RunHolds(run, k);
    var was := run[k].fs;
    CrashWellFormed(was, fs);
    assert May(was, Incarnation, Lookup(fs, Incarnation));
    assert May(was, Incarnation, Some(was.dir[Incarnation]));
    assert CrashFile(was.files[fs.dir[Incarnation]], fs.files[fs.dir[Incarnation]]);
  }

  /** An open fails in exactly one kind of state: both names are there and are different files. */
  lemma OpenFailsOnlyMismatched(run: seq<Sys>, k: nat, minted: Bytes)
    requires Run(run) && k < |run| && ValidIncarnation(minted) && WellFormed(run[k].fs)
    ensures OpenIdentity(run[k].fs, minted).outcome.Err? <==> Mismatched(run[k].fs)
    ensures run[k].returned.Some? ==> !Mismatched(run[k].fs)
  {
    RunHolds(run, k);
    OpenIdentitySafe(run[k].fs, run[k].returned, minted);
  }

  // ----- that state can be reached before any open has returned -----

  lemma Extend(run: seq<Sys>, s: Sys)
    requires Run(run) && Next(run[|run| - 1], s)
    ensures Run(run + [s])
  {
    hide Next;
  }

  lemma StopExample(s: Sys)
    ensures Next(s, s.(todo := [], phase := Down))
  {
    assert Partly(s, s.fs) && s.(todo := [], phase := Down) == s.(fs := s.fs, todo := [], phase := Down);
    assert Stop(s, s.(todo := [], phase := Down));
  }

  lemma StartExample(s: Sys, minted: Bytes)
    requires s.phase.Down? && WellFormed(s.fs) && ValidIncarnation(minted)
    ensures Next(s, s.(phase := Opening(OpenIdentity(s.fs, minted).outcome), todo := OpenIdentity(s.fs, minted).cmds))
  {
    hide OpenIdentity;
    var s' := s.(phase := Opening(OpenIdentity(s.fs, minted).outcome), todo := OpenIdentity(s.fs, minted).cmds);
    assert Start(s, s');
  }

  lemma CallExample(s: Sys, c: Cmd, rest: seq<Cmd>)
    requires s.phase.Opening? && WellFormed(s.fs) && Enabled(s.fs, c) && s.todo == [c] + rest
    ensures Next(s, s.(fs := Exec(s.fs, c), todo := rest))
  {
    assert s.todo[1..] == rest;
    assert Call(s, s.(fs := Exec(s.fs, c), todo := rest));
  }

  /** An interrupted open leaves an empty pending file, and an interrupted repair leaves its removal unsynced. */
  lemma LeftoverRemoval(a: Bytes) returns (run: seq<Sys>, s: Sys)
    requires ValidIncarnation(a)
    ensures Run(run) && s == run[|run| - 1] && s.phase.Down? && s.returned.None?
    ensures s.fs == Fs(map[], {(IncarnationPending, None), (IncarnationPending, Some(0))}, [EmptyFile])
  {
    var fs0 := Fs(map[], {}, []);
    s := Sys(fs0, [], Down, None);
    run := [s];
    StartExample(s, a);
    s := s.(phase := Opening(Ok(a)), todo := WriteIdentity(a) + Publish);
    Extend(run, s);
    run := run + [s];
    var rest := [Write(IncarnationPending, a), Fsync(IncarnationPending)] + Publish;
    CallExample(s, Create(IncarnationPending), rest);
    s := s.(fs := Exec(fs0, Create(IncarnationPending)), todo := rest);
    Extend(run, s);
    run := run + [s];
    StopExample(s);
    s := s.(todo := [], phase := Down);
    Extend(run, s);
    run := run + [s];
    run, s := LeftoverRemovalRest(a, run, s);
  }

  lemma LeftoverRemovalRest(a: Bytes, was: seq<Sys>, s0: Sys) returns (run: seq<Sys>, s: Sys)
    requires ValidIncarnation(a) && Run(was) && s0 == was[|was| - 1]
    requires s0 == Sys(Exec(Fs(map[], {}, []), Create(IncarnationPending)), [], Down, None)
    ensures Run(run) && s == run[|run| - 1] && s.phase.Down? && s.returned.None?
    ensures s.fs == Fs(map[], {(IncarnationPending, None), (IncarnationPending, Some(0))}, [EmptyFile])
  {
    run, s := was, s0;
    var fs1 := s.fs;
    StartExample(s, a);
    var rest := [SyncDir] + WriteIdentity(a) + Publish;
    s := s.(phase := Opening(Ok(a)), todo := [Unlink(IncarnationPending), SyncDir] + WriteIdentity(a) + Publish);
    Extend(run, s);
    run := run + [s];
    CallExample(s, Unlink(IncarnationPending), rest);
    s := s.(fs := Exec(fs1, Unlink(IncarnationPending)), todo := rest);
    Extend(run, s);
    run := run + [s];
    StopExample(s);
    s := s.(todo := [], phase := Down);
    Extend(run, s);
    run := run + [s];
    assert s.fs.dir == map[];
  }

  /** A third open writes a new identity and syncs it. */
  lemma NewIdentityWritten(a: Bytes, b: Bytes) returns (run: seq<Sys>, s: Sys)
    requires ValidIncarnation(a) && ValidIncarnation(b)
    ensures Run(run) && s == run[|run| - 1] && s.phase == Opening(Ok(b)) && s.todo == Publish && s.returned.None?
    ensures s.fs.dir == map[IncarnationPending := 1] && (IncarnationPending, Some(0)) in s.fs.alt
    ensures s.fs.files == [EmptyFile, File([] + b, |[] + b|, [])] && WellFormed(s.fs)
  {
    run, s := LeftoverRemoval(a);
    StartExample(s, b);
    s := s.(phase := Opening(Ok(b)), todo := WriteIdentity(b) + Publish);
    Extend(run, s);
    run := run + [s];
    hide Run, Next;
    var r1 := [Write(IncarnationPending, b), Fsync(IncarnationPending)] + Publish;
    CallExample(s, Create(IncarnationPending), r1);
    s := s.(fs := Exec(s.fs, Create(IncarnationPending)), todo := r1);
    Extend(run, s);
    run := run + [s];
    var r2 := [Fsync(IncarnationPending)] + Publish;
    CallExample(s, Write(IncarnationPending, b), r2);
    s := s.(fs := Exec(s.fs, Write(IncarnationPending, b)), todo := r2);
    Extend(run, s);
    run := run + [s];
    CallExample(s, Fsync(IncarnationPending), Publish);
    s := s.(fs := Exec(s.fs, Fsync(IncarnationPending)), todo := Publish);
    Extend(run, s);
    run := run + [s];
  }

  /** It is linked, the machine crashes, and the link is kept while the older changes are lost. */
  lemma MismatchReached(a: Bytes, b: Bytes) returns (run: seq<Sys>)
    requires ValidIncarnation(a) && ValidIncarnation(b)
    ensures Run(run) && Mismatched(run[|run| - 1].fs) && run[|run| - 1].returned.None?
  {
    var s;
    run, s := NewIdentityWritten(a, b);
    hide Run, Next;
    CallExample(s, Link(IncarnationPending, Incarnation), CommitPublication);
    s := s.(fs := Exec(s.fs, Link(IncarnationPending, Incarnation)), todo := CommitPublication);
    Extend(run, s);
    run := run + [s];
    var s' := MismatchCrash(s, b);
    Extend(run, s');
    run := run + [s'];
  }

  lemma MismatchCrash(s: Sys, b: Bytes) returns (s': Sys)
    requires s.fs.dir == map[IncarnationPending := 1, Incarnation := 1]
    requires (IncarnationPending, Some(0)) in s.fs.alt && s.fs.files == [EmptyFile, File([] + b, |[] + b|, [])]
    ensures Next(s, s') && Mismatched(s'.fs) && s'.returned == s.returned
  {
    var f := s.fs.files[1];
    var fs' := Fs(map[IncarnationPending := 0, Incarnation := 1], {}, [EmptyFile, f]);
    s' := s.(fs := fs', todo := [], phase := Down);
    assert May(s.fs, IncarnationPending, Lookup(fs', IncarnationPending));
    assert May(s.fs, Incarnation, Lookup(fs', Incarnation));
    assert CrashFile(EmptyFile, EmptyFile) && CrashFile(f, f);
    assert Crash(s.fs, fs');
    assert Partly(s, s.fs);
    assert PowerLoss(s, s');
  }
}
