/**
 The rolling journal's single writer as a step machine. A step is one system call, one decision between
 calls, a failed call, the end of the process at any point, or a machine crash at any point.
 */
module Journal {
  import opened Wrappers
  import opened FileSystem
  import opened Reservation
  import opened ReservationOpen

  datatype Config = Config(maxFileBytes: nat, maxFiles: nat)

  predicate ValidConfig(cfg: Config) { cfg.maxFileBytes > 0 && cfg.maxFiles > 0 }

  datatype Active = Active(number: nat, bytes: nat)

  /** The fields of an open appender. */
  datatype Writer = Writer(next: nat, tracked: set<nat>, active: Option<Active>, poisoned: bool)

  datatype Phase =
    | Down                                                // no appender
    | Opening(outcome: Result<nat, Failure>)              // open: reservation
    | Cleaning(next: nat, kept: set<nat>)                 // open: limits
    | Dropping(next: nat, kept: set<nat>, gone: nat)      // open: one removal
    | Repairing(next: nat, kept: set<nat>)                // open: incomplete tail
    | Sealing(next: nat, kept: set<nat>, left: set<nat>)  // open: sync every kept segment
    | Finishing(next: nat, kept: set<nat>)                // open: last directory sync
    | Ready(w: Writer)
    | Rotating(w: Writer, record: Bytes)                  // rotate: limit
    | Pruning(w: Writer, record: Bytes, gone: nat)        // rotate: one removal
    | Reserving(w: Writer, record: Bytes)                 // rotate: reservation
    | Creating(w: Writer, record: Bytes, number: nat)     // rotate: the new file
    | Writing(w: Writer, record: Bytes)
    | Truncating(w: Writer)                               // after a failed write
    | Syncing(w: Writer, record: Bytes)

  /**
   `hist` is the longest content ever written to each segment number, `acked` how much of it an append
   has reported as persisted, `pruned` the numbers that were removed, `established` whether an open has
   got past the reservation. They record the past and steer nothing.
   */
  datatype Sys = Sys(fs: Fs, todo: seq<Cmd>, phase: Phase,
                     hist: map<nat, Bytes>, acked: map<nat, nat>, pruned: set<nat>, established: bool)

  predicate EndsLine(b: Bytes) { b == [] || b[|b| - 1] == '\n' }

  /** The length that keeps everything up to the last newline. */
  function ValidLen(b: Bytes): (n: nat)
    ensures n <= |b| && EndsLine(b[..n])
    ensures forall k | n < k <= |b| :: !EndsLine(b[..k])
  {
    if EndsLine(b) then assert b[..|b|] == b; |b| else
    var n := ValidLen(b[..|b| - 1]);
    assert b[..|b| - 1][..n] == b[..n];
    assert forall k | n < k < |b| :: b[..|b| - 1][..k] == b[..k];
    assert b[..|b|] == b;
    n
  }

  function Found(fs: Fs): set<nat>
  {
    set n: Name | n in fs.dir && n.Segment? :: n.number
  }

  ghost predicate Oldest(s: set<nat>, n: nat) { n in s && forall m | m in s :: n <= m }

  function Drop(n: nat): seq<Cmd> { [Unlink(Segment(n)), SyncDir] }

  /** What the record of the past gains from one call. */
  function Noted(hist: map<nat, Bytes>, fs: Fs, c: Cmd): map<nat, Bytes>
    requires WellFormed(fs) && Enabled(fs, c)
  {
    match c
    case Create(Segment(n)) => hist[n := []]
    case Write(Segment(n), text) => hist[n := FileOf(fs, Segment(n)).bytes + text]
    case _ => hist
  }

  function Removed(pruned: set<nat>, c: Cmd): set<nat>
  {
    if c.Unlink? && c.name.Segment? then pruned + {c.name.number} else pruned
  }

  function Called(s: Sys, c: Cmd): Sys
    requires WellFormed(s.fs) && Enabled(s.fs, c)
  {
    s.(fs := Exec(s.fs, c), hist := Noted(s.hist, s.fs, c),
       acked := (match c case Create(Segment(n)) => s.acked[n := 0] case _ => s.acked),
       pruned := Removed(s.pruned, c))
  }

  /** The next call succeeds. */
  ghost predicate Call(s: Sys, s': Sys)
  {
    && s.todo != [] && WellFormed(s.fs) && Enabled(s.fs, s.todo[0])
    && s' == Called(s, s.todo[0]).(todo := s.todo[1..])
  }

  /** The next call stops part way: before its effect, after it, or inside a write. */
  ghost predicate Stopped(s: Sys, s': Sys)
  {
    || s' == s
    || (s.todo != [] && WellFormed(s.fs) && Enabled(s.fs, s.todo[0])
        && (|| s' == Called(s, s.todo[0])
            || (s.todo[0].Write?
                && exists k: nat | k <= |s.todo[0].text| ::
                     s' == Called(s, Write(s.todo[0].name, s.todo[0].text[..k])))))
  }

  /** Where an error takes the appender. */
  function AfterError(p: Phase): Phase
  {
    match p
    case Pruning(w, _, _) => Ready(w)
    case Reserving(w, _) => Ready(w)
    case Creating(w, _, _) => Ready(w)
    case Writing(w, _) => Truncating(w.(poisoned := true))
    case Truncating(w) => Ready(w)
    case Syncing(w, _) => Ready(w.(poisoned := true))
    case _ => Down
  }

  /** A failed write is followed by one attempt to cut it off. */
  function ErrorCalls(p: Phase): seq<Cmd>
  {
    if p.Writing? && p.w.active.Some? then [SetLen(Segment(p.w.active.value.number), p.w.active.value.bytes)] else []
  }

  ghost predicate Fault(s: Sys, s': Sys)
  {
    && s.todo != []
    && (exists m ::
          && Stopped(s, m)
          && s' == m.(todo := ErrorCalls(s.phase), phase := AfterError(s.phase)))
  }

  ghost predicate Exit(s: Sys, s': Sys)
  {
    exists m :: Stopped(s, m) && s' == m.(todo := [], phase := Down)
  }

  ghost predicate PowerLoss(s: Sys, s': Sys)
  {
    exists m :: Stopped(s, m) && Crash(m.fs, s'.fs) && s' == m.(fs := s'.fs, todo := [], phase := Down)
  }

  /** `open` starts with a valid configuration; `last` is the greatest segment number found. */
  ghost predicate OpenCall(cfg: Config, s: Sys, s': Sys)
  {
    && ValidConfig(cfg) && s.phase.Down? && WellFormed(s.fs)
    && exists last ::
         && IsLast(s.fs, last)
         && s' == s.(phase := Opening(OpenPlan(s.fs, last).outcome), todo := OpenPlan(s.fs, last).cmds)
  }

  /** `append_record` past its checks. */
  ghost predicate AppendCall(cfg: Config, s: Sys, s': Sys)
  {
    && s.phase.Ready? && !s.phase.w.poisoned
    && exists record: Bytes ::
         && record != [] && EndsLine(record) && |record| <= cfg.maxFileBytes
         && var w := s.phase.w;
            s' == if w.active.None? || (w.active.value.bytes > 0 && w.active.value.bytes + |record| > cfg.maxFileBytes)
                  then s.(phase := Rotating(w.(active := None), record))
                  else s.(phase := Writing(w, record), todo := [Write(Segment(w.active.value.number), record)])
  }

  /** What follows when the calls of a phase are done. */
  ghost predicate Decide(cfg: Config, s: Sys, s': Sys)
  {
    && s.todo == [] && WellFormed(s.fs)
    && match s.phase
       case Down => false
       case Ready(_) => false
       case Opening(Err(_)) => s' == s.(phase := Down)
       case Opening(Ok(next)) => s' == s.(phase := Cleaning(next, Found(s.fs)), established := true)
       case Cleaning(next, kept) =>
         if exists n :: n in kept && Oversized(cfg, s.fs, n) then
           exists n :: n in kept && Oversized(cfg, s.fs, n)
                       && s' == s.(phase := Dropping(next, kept, n), todo := Drop(n))
         else if |kept| > cfg.maxFiles then
           exists n :: Oldest(kept, n) && s' == s.(phase := Dropping(next, kept, n), todo := Drop(n))
         else
           exists cmds :: Repairs(s.fs, kept, cmds) && s' == s.(phase := Repairing(next, kept), todo := cmds)
       case Dropping(next, kept, gone) => s' == s.(phase := Cleaning(next, kept - {gone}))
       case Repairing(next, kept) => s' == s.(phase := Sealing(next, kept, kept))
       case Sealing(next, kept, left) =>
         if left == {} then s' == s.(phase := Finishing(next, kept), todo := [SyncDir])
         else exists n :: n in left && s' == s.(phase := Sealing(next, kept, left - {n}), todo := [Fsync(Segment(n))])
       case Finishing(next, kept) => s' == s.(phase := Ready(Writer(next, kept, None, false)))
       case Rotating(w, record) =>
         if |w.tracked| >= cfg.maxFiles then
           exists n :: Oldest(w.tracked, n)
                       && s' == if Segment(n) in s.fs.dir then s.(phase := Pruning(w, record, n), todo := Drop(n))
                                else s.(phase := Ready(w))
         else
           (match ReservePlan(s.fs, w.next)
            case Plan(_, Err(_)) => s' == s.(phase := Ready(w))
            case Plan(cmds, Ok(_)) => s' == s.(phase := Reserving(w, record), todo := cmds))
       case Pruning(w, record, gone) => s' == s.(phase := Rotating(w.(tracked := w.tracked - {gone}), record))
       case Reserving(w, record) =>
         s' == s.(phase := Creating(w.(next := w.next + 1), record, w.next),
                  todo := [Create(Segment(w.next)), SyncDir])
       case Creating(w, record, n) =>
         s' == s.(phase := Writing(w.(tracked := w.tracked + {n}, active := Some(Active(n, 0))), record),
                  todo := [Write(Segment(n), record)])
       case Writing(w, record) =>
         w.active.Some? && s' == s.(phase := Syncing(w, record), todo := [Fsync(Segment(w.active.value.number))])
       case Truncating(w) => s' == s.(phase := Ready(w))
       case Syncing(w, record) =>
         w.active.Some?
         && var a := Active(w.active.value.number, w.active.value.bytes + |record|);
            s' == s.(phase := Ready(w.(active := Some(a))), acked := s.acked[a.number := a.bytes])
  }

  ghost predicate Oversized(cfg: Config, fs: Fs, n: nat)
    requires WellFormed(fs)
  {
    Segment(n) in fs.dir && |FileOf(fs, Segment(n)).bytes| > cfg.maxFileBytes
  }

  /** `repair_tail` of the last kept segment. */
  ghost predicate Repairs(fs: Fs, kept: set<nat>, cmds: seq<Cmd>)
    requires WellFormed(fs)
  {
    if kept == {} then cmds == [] else
    exists n :: n in kept && (forall m | m in kept :: m <= n) && Segment(n) in fs.dir
                && var b := FileOf(fs, Segment(n)).bytes;
                   cmds == if ValidLen(b) == |b| then [] else [SetLen(Segment(n), ValidLen(b)), Fsync(Segment(n))]
  }

  ghost predicate Next(cfg: Config, s: Sys, s': Sys)
  {
    || Call(s, s')
    || Fault(s, s')
    || Exit(s, s')
    || PowerLoss(s, s')
    || OpenCall(cfg, s, s')
    || AppendCall(cfg, s, s')
    || Decide(cfg, s, s')
  }

  /** A directory that no reservation has touched yet; its segments, if any, are on disk for good. */
  ghost predicate Init(s: Sys)
  {
    && WellFormed(s.fs) && s.fs.alt == {}
    && s.todo == [] && s.phase.Down? && !s.established && s.pruned == {}
    && (forall n | n in s.fs.dir :: n.Segment? || n.Incarnation? || n.IncarnationPending?)
    && (forall a, b | a in s.fs.dir && b in s.fs.dir && a != b :: s.fs.dir[a] != s.fs.dir[b])
    && s.hist.Keys == Found(s.fs) == s.acked.Keys
    && (forall n | n in s.hist :: s.hist[n] == FileOf(s.fs, Segment(n)).bytes && s.acked[n] <= |s.hist[n]|)
  }

  /** One step, under whatever configuration. */
  ghost predicate Advances(s: Sys, s': Sys) { exists cfg :: Next(cfg, s, s') }

  /** The states of a run, each one step from the one before. The configuration may change with every step. */
  ghost predicate Run(run: seq<Sys>)
  {
    && run != [] && Init(run[0])
    && forall i | 0 <= i < |run| - 1 :: Advances(run[i], run[i + 1])
  }
}
