/** The journal directory as an object, whose calls may fail, and procedures that follow a plan of calls. */
module DirectoryCode {
  import opened FileSystem

  /** A list of calls that was given up on: some were done, and the next failed, perhaps part way. */
  ghost predicate Interrupted(fs: Fs, cmds: seq<Cmd>, fs': Fs)
    requires WellFormed(fs)
  {
    exists n: nat :: InterruptedAt(fs, cmds, fs', n)
  }

  ghost predicate InterruptedAt(fs: Fs, cmds: seq<Cmd>, fs': Fs, n: nat)
    requires WellFormed(fs)
  {
    && n < |cmds| && AllEnabled(fs, cmds[..n])
    && var mid := ExecAll(fs, cmds[..n]);
       fs' == mid || (Enabled(mid, cmds[n]) && Torn(mid, cmds[n], fs'))
  }

  /** The first `n` calls of a plan were made. */
  ghost predicate Reached(fs: Fs, plan: seq<Cmd>, n: nat, fs': Fs)
  {
    WellFormed(fs) && n <= |plan| && AllEnabled(fs, plan[..n]) && fs' == ExecAll(fs, plan[..n])
  }

  lemma {:induction false} ExecOneMore(fs: Fs, cmds: seq<Cmd>, c: Cmd)
    requires WellFormed(fs) && AllEnabled(fs, cmds) && Enabled(ExecAll(fs, cmds), c)
    ensures AllEnabled(fs, cmds + [c]) && ExecAll(fs, cmds + [c]) == Exec(ExecAll(fs, cmds), c)
    decreases |cmds|
  {
    if cmds == [] {
      assert [c][1..] == [];
    } else {
      assert (cmds + [c])[1..] == cmds[1..] + [c];
      ExecOneMore(Exec(fs, cmds[0]), cmds[1..], c);
    }
  }

  lemma NoneMade(fs: Fs, plan: seq<Cmd>)
    requires WellFormed(fs)
    ensures Reached(fs, plan, 0, fs)
  {
    assert plan[..0] == [];
  }

  class Directory {
    var fs: Fs
    /** How many calls have failed. */
    ghost var faults: nat

    constructor (fs: Fs)
      ensures this.fs == fs
    {
      this.fs := fs;
    }

    /** One system call. It may fail for reasons of its own, before, after or within its effect. */
    method Issue(c: Cmd) returns (ok: bool)
      requires WellFormed(fs)
      modifies this
      ensures WellFormed(fs)
      ensures ok ==> Enabled(old(fs), c) && fs == Exec(old(fs), c)
      ensures !ok ==> fs == old(fs) || (Enabled(old(fs), c) && Torn(old(fs), c, fs))
      ensures faults == old(faults) + (if ok then 0 else 1)
    {
      ok, faults := false, faults + 1;
      if Enabled(fs, c) {
        if
        case true =>
          fs, ok, faults := Exec(fs, c), true, old(faults);
        case true =>
          fs := Exec(fs, c);
        case true =>
          if c.Write? {
            var k: nat :| k <= |c.text|;
            fs := Exec(fs, Write(c.name, c.text[..k]));
          }
        case true =>
      }
    }

    /** The next call of a plan. */
    method Step(c: Cmd, ghost from: Fs, ghost plan: seq<Cmd>, ghost n: nat) returns (ok: bool)
      requires n < |plan| && plan[n] == c && Reached(from, plan, n, fs)
      modifies this
      ensures ok ==> Reached(from, plan, n + 1, fs) && Enabled(old(fs), c) && fs == Exec(old(fs), c)
      ensures !ok ==> Interrupted(from, plan, fs)
      ensures WellFormed(fs) && faults == old(faults) + (if ok then 0 else 1)
    {
      ok := Issue(c);
      if ok {
        ExecOneMore(from, plan[..n], c);
        assert plan[..n + 1] == plan[..n] + [c];
      } else {
        assert InterruptedAt(from, plan, fs, n);
      }
    }
  }
}
