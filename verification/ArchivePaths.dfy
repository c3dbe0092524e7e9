/** Paths of the archive's step machine, as the archive's code walks them. */
module ArchivePaths {
  import opened ArchiveDisk
  import opened ArchiveLedger
  import opened ArchiveQuota

  /** The machine can go from `s` to `s'`. */
  ghost predicate Leads(world: World, s: Sys, s': Sys)
  {
    exists run :: PathOf(world, run, s, s')
  }

  ghost predicate PathOf(world: World, run: seq<Sys>, s: Sys, s': Sys)
  {
    && run != [] && run[0] == s && run[|run| - 1] == s'
    && forall i | 0 <= i < |run| - 1 :: Next(world, run[i], run[i + 1])
  }

  lemma Stay(world: World, s: Sys)
    ensures Leads(world, s, s)
  {
    assert PathOf(world, [s], s, s);
  }

  lemma Then(world: World, s: Sys, m: Sys, s': Sys)
    requires Leads(world, s, m) && Next(world, m, s')
    ensures Leads(world, s, s')
  {
    hide Next;
    var run :| PathOf(world, run, s, m);
    assert PathOf(world, run + [s'], s, s');
  }

  /** A call that was made, or that failed part way, is a step. */
  lemma CallIsStep(world: World, s: Sys, d: Disk, ok: bool)
    requires s.todo != [] && Possible(s.disk, s.todo[0])
    requires if ok then d == Do(s.disk, s.todo[0]) else Partly(s.disk, s.todo[0], d)
    ensures Next(world, s, if ok then s.(disk := d, todo := s.todo[1..]) else AfterFailure(s).(disk := d))
  {
    if ok {
      assert Proceed(s, s.(disk := d, todo := s.todo[1..]));
    } else {
      assert Stopped(s, d);
      assert Fail(s, AfterFailure(s).(disk := d));
    }
  }

  /** Giving up before the next call. */
  lemma GivingUpIsStep(world: World, s: Sys)
    requires s.todo != []
    ensures Next(world, s, AfterFailure(s))
  {
    assert Stopped(s, s.disk) && AfterFailure(s) == AfterFailure(s).(disk := s.disk);
    assert Fail(s, AfterFailure(s));
  }

  lemma ExitIsStep(world: World, s: Sys)
    ensures Next(world, s, Ended(s))
  {
    assert Stopped(s, s.disk) && Ended(s) == Ended(s).(disk := s.disk);
    assert Exit(s, Ended(s));
  }

  /** What the code does in a reachable state leads to a reachable state. */
  lemma StaysReachable(world: World, run: seq<Sys>, s': Sys) returns (run': seq<Sys>)
    requires Run(world, run) && Leads(world, run[|run| - 1], s')
    ensures Run(world, run') && run'[|run'| - 1] == s'
  {
    hide Next, Init;
    var path :| PathOf(world, path, run[|run| - 1], s');
    run' := run + path[1..];
    forall i | 0 <= i < |run'| - 1 ensures Next(world, run'[i], run'[i + 1]) {
      if i >= |run| - 1 {
        var j := i - (|run| - 1);
        assert run'[i] == path[j] && run'[i + 1] == path[j + 1];
      }
    }
  }

  /** The code never reports damage: no path from a reachable state ends in a failed process. */
  lemma CodeNeverFails(world: World, run: seq<Sys>, s': Sys)
    requires Run(world, run) && Leads(world, run[|run| - 1], s')
    ensures !s'.process.Failed?
  {
    hide Leads, Run;
    var run' := StaysReachable(world, run, s');
    LastIsReached(world, run');
  }

  lemma LastIsReached(world: World, run: seq<Sys>)
    requires Run(world, run)
    ensures !run[|run| - 1].process.Failed?
  {
    RecoverySucceeds(world, run, |run| - 1);
  }
}
