/** A procedure that may be interrupted: the rest of its calls, run from a state, keep an invariant throughout. */
module Procedures {
  import opened FileSystem

  /** Stopping anywhere, inside a call too, leaves `inv`; running to the end reaches `goal`. */
  ghost predicate Safe(inv: Fs -> bool, goal: Fs -> bool, fs: Fs, todo: seq<Cmd>)
    decreases |todo|
  {
    && WellFormed(fs)
    && inv(fs)
    && (todo == [] ==> goal(fs))
    && (todo != [] ==>
          && Enabled(fs, todo[0])
          && (forall fs' | Torn(fs, todo[0], fs') :: inv(fs'))
          && Safe(inv, goal, Exec(fs, todo[0]), todo[1..]))
  }

  lemma Step(inv: Fs -> bool, goal: Fs -> bool, fs: Fs, c: Cmd, rest: seq<Cmd>)
    requires WellFormed(fs) && inv(fs) && Enabled(fs, c) && !c.Write?
    requires Safe(inv, goal, Exec(fs, c), rest)
    ensures Safe(inv, goal, fs, [c] + rest)
  {
    assert ([c] + rest)[1..] == rest;
    assert inv(Exec(fs, c));
  }

  lemma WriteStep(inv: Fs -> bool, goal: Fs -> bool, fs: Fs, n: Name, text: Bytes, rest: seq<Cmd>)
    requires WellFormed(fs) && inv(fs) && n in fs.dir
    requires forall k: nat | k <= |text| :: inv(Exec(fs, Write(n, text[..k])))
    requires Safe(inv, goal, Exec(fs, Write(n, text)), rest)
    ensures Safe(inv, goal, fs, [Write(n, text)] + rest)
  {
    assert ([Write(n, text)] + rest)[1..] == rest;
    assert inv(Exec(fs, Write(n, text)));
  }

  lemma Done(inv: Fs -> bool, goal: Fs -> bool, fs: Fs)
    requires WellFormed(fs) && inv(fs) && goal(fs)
    ensures Safe(inv, goal, fs, [])
  {}

  /** Left alone, a safe procedure is never refused and ends at its goal. */
  lemma {:induction false} SafeCompletes(inv: Fs -> bool, goal: Fs -> bool, fs: Fs, todo: seq<Cmd>)
    requires Safe(inv, goal, fs, todo)
    ensures AllEnabled(fs, todo) && goal(ExecAll(fs, todo)) && inv(ExecAll(fs, todo))
    decreases |todo|
  {
    if todo != [] {
      SafeCompletes(inv, goal, Exec(fs, todo[0]), todo[1..]);
    }
  }
}
