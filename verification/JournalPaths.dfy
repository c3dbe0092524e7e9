/** Paths of the journal's step machine, as the appender's code walks them. */
module JournalPaths {
  import opened FileSystem
  import opened Journal
  import opened DirectoryCode

  /** The machine can go from `s` to `s'`. */
  ghost predicate Leads(cfg: Config, s: Sys, s': Sys)
  {
    exists run :: PathOf(cfg, run, s, s')
  }

  ghost predicate PathOf(cfg: Config, run: seq<Sys>, s: Sys, s': Sys)
  {
    && run != [] && run[0] == s && run[|run| - 1] == s'
    && forall i | 0 <= i < |run| - 1 :: Next(cfg, run[i], run[i + 1])
  }

  lemma Stay(cfg: Config, s: Sys)
    ensures Leads(cfg, s, s)
  {
    assert PathOf(cfg, [s], s, s);
  }

  lemma Then(cfg: Config, s: Sys, m: Sys, s': Sys)
    requires Leads(cfg, s, m) && Next(cfg, m, s')
    ensures Leads(cfg, s, s')
  {
    hide Next;
    var run :| PathOf(cfg, run, s, m);
    assert PathOf(cfg, run + [s'], s, s');
  }

  /** What the machine makes of a call that was issued. */
  lemma AfterIssue(cfg: Config, s: Sys, c: Cmd, ok: bool, fs': Fs) returns (m: Sys)
    requires WellFormed(s.fs) && s.todo != [] && s.todo[0] == c
    requires ok ==> Enabled(s.fs, c) && fs' == Exec(s.fs, c)
    requires !ok ==> fs' == s.fs || (Enabled(s.fs, c) && Torn(s.fs, c, fs'))
    ensures m.fs == fs' && m.phase == s.phase
    ensures ok ==> m == Called(s, c).(todo := s.todo[1..]) && Next(cfg, s, m)
    ensures !ok ==> Stopped(s, m) && Next(cfg, s, m.(todo := ErrorCalls(s.phase), phase := AfterError(s.phase)))
  {
    if ok {
      m := Called(s, c).(todo := s.todo[1..]);
      assert Call(s, m);
    } else {
      m := s;
      if fs' != s.fs {
        if fs' == Exec(s.fs, c) {
          m := Called(s, c);
        } else {
          var k: nat :| k <= |c.text| && fs' == Exec(s.fs, Write(c.name, c.text[..k]));
          m := Called(s, Write(c.name, c.text[..k]));
        }
      }
      assert Stopped(s, m);
      assert Fault(s, m.(todo := ErrorCalls(s.phase), phase := AfterError(s.phase)));
    }
  }

  /** The machine after all calls that were waiting. */
  ghost function AllCalled(s: Sys): (s': Sys)
    requires WellFormed(s.fs) && AllEnabled(s.fs, s.todo)
    ensures s'.phase == s.phase && s'.todo == [] && s'.fs == ExecAll(s.fs, s.todo)
    decreases |s.todo|
  {
    if s.todo == [] then s else AllCalled(Called(s, s.todo[0]).(todo := s.todo[1..]))
  }

  lemma {:induction false} CallsLead(cfg: Config, s0: Sys, s: Sys)
    requires WellFormed(s.fs) && AllEnabled(s.fs, s.todo) && Leads(cfg, s0, s)
    ensures Leads(cfg, s0, AllCalled(s))
    decreases |s.todo|
  {
    hide Leads;
    if s.todo != [] {
      var m := AfterIssue(cfg, s, s.todo[0], true, Exec(s.fs, s.todo[0]));
      Then(cfg, s0, s, m);
      CallsLead(cfg, s0, m);
    }
  }

  /** A list of calls that was given up on is some calls and a failure. */
  lemma {:induction false} InterruptLeads(cfg: Config, s0: Sys, s: Sys, fs': Fs, n: nat) returns (s': Sys)
    requires WellFormed(s.fs) && InterruptedAt(s.fs, s.todo, fs', n) && Leads(cfg, s0, s)
    ensures Leads(cfg, s0, s') && s'.fs == fs' && s'.todo == ErrorCalls(s.phase) && s'.phase == AfterError(s.phase)
    decreases n
  {
    hide Leads, Next;
    if n == 0 {
      assert s.todo[..0] == [];
      var m := AfterIssue(cfg, s, s.todo[0], false, fs');
      s' := m.(todo := ErrorCalls(s.phase), phase := AfterError(s.phase));
      Then(cfg, s0, s, s');
    } else {
      var c := s.todo[0];
      assert s.todo[..n][0] == c && s.todo[..n][1..] == s.todo[1..][..n - 1];
      var m := AfterIssue(cfg, s, c, true, Exec(s.fs, c));
      Then(cfg, s0, s, m);
      s' := InterruptLeads(cfg, s0, m, fs', n - 1);
    }
  }
}
