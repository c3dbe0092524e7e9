/**
 The way from a journal to its archive: the journal with its writer and its crashes, any number of fetches that read
 it, the collector's row for the stream, and the archive with its ledger, all as one step machine. The commit of a
 batch moves the row's cursor and inserts the frame in one step.
 */
module Collection {
  import opened Wrappers
  import opened FileSystem
  import opened JournalReader
  import opened JournalRace
  import J = Journal
  import JournalSteadiness
  import S = JournalStreams
  import A = ArchiveLedger
  import D = ArchiveDisk

  /**
   What is fixed for a run: the journal's configuration and identity, the reader's limits, the stream that collects
   the journal, and how records are encoded as a frame.
   */
  datatype Setup = Setup(cfg: J.Config, inc: S.Incarnation, lim: Limits, id: S.StreamId, target: nat,
                         world: A.World, encode: Bytes -> Bytes)

  /** A fetch for the row as it was opened: `from` is what the row stood for then, `r` the reader since. */
  datatype Fetch = Fetch(e: S.Expected, from: Reader, r: Reader, result: Option<Batch>)

  /** One committed frame of the stream. */
  datatype Entry = Entry(generation: nat, key: D.Key, text: Bytes)

  /**
   `gens` says of every generation of the row under the journal's identity what it has collected, and `log` are the
   frames in the order of their commits. They record the past and steer nothing.
   */
  datatype Coll = Coll(s: J.Sys, last: map<nat, Bytes>, fetches: map<nat, Fetch>, table: S.Table, arch: A.Sys,
                       gens: map<nat, Reader>, log: seq<Entry>)

  function Seen(x: Coll, r: Reader): Race { Race(x.s, x.last, r) }

  function Nobody(): Reader { Reader(None, Idle, Cursor(0, 0), [], NoPrelude) }

  // ----- the journal -----

  /** The writer moves, or the machine it runs on crashes, which ends all reads. */
  ghost predicate JournalMoves(u: Setup, x: Coll, x': Coll)
  {
    && WellFormed(x'.s.fs) && x'.last == Recorded(x.last, x'.s.fs)
    && x' == x.(s := x'.s, last := x'.last, fetches := x'.fetches)
    && (|| (JournalSteadiness.Works(u.cfg, x.s, x'.s) && x'.fetches == x.fetches)
        || (J.PowerLoss(x.s, x'.s)
            && x'.fetches == map i | i in x.fetches :: x.fetches[i].(r := x.fetches[i].r.(stage := Idle))))
  }

  // ----- a fetch -----

  /** A fetch begins from the row as it is. */
  ghost predicate Begin(u: Setup, x: Coll, x': Coll, i: nat)
  {
    && i !in x.fetches && u.id in x.table && x.table[u.id].incarnation == u.inc && x.table[u.id].generation in x.gens
    && var from := x.gens[x.table[u.id].generation];
       x' == x.(fetches := x.fetches[i := Fetch(S.ExpectedOf(u.id, x.table[u.id]), from, from, None)])
  }

  ghost predicate Read(u: Setup, x: Coll, x': Coll, i: nat)
  {
    && i in x.fetches && x.fetches[i].result.None? && i in x'.fetches
    && x' == x.(fetches := x.fetches[i := x.fetches[i].(r := x'.fetches[i].r, result := x'.fetches[i].result)])
    && var before, after := Seen(x, x.fetches[i].r), Seen(x, x'.fetches[i].r);
       if x'.fetches[i].result.None? then Reads(u.lim, before, after)
       else Delivers(u.lim, before, after, x'.fetches[i].result.value)
  }

  /** An error, a refused batch, a stale commit, or the collector stops. */
  ghost predicate Forget(x: Coll, x': Coll, i: nat) { x' == x.(fetches := x.fetches - {i}) }

  // ----- transactions -----

  function RowBatch(b: Batch): S.Batch { S.Batch(b.next, b.gap, b.records == []) }

  /** A frame of the stream goes into the ledger; whether the worker learns of it or not. */
  ghost predicate Inserts(u: Setup, a: A.Sys, a': A.Sys, t: nat, k: D.Key, text: Bytes)
  {
    && a.process.Running? && A.WorkerOf(a, t).Holding?
    && var f := A.WorkerOf(a, t).frame;
       && f.key == k && k.stream == u.id && f.data == u.encode(text)
       && (|| a' == A.Put(a, t, A.Idle).(ledger := A.Insert(u.world, a.ledger, f))
           || a' == A.Put(a, t, A.Dead).(ledger := A.Insert(u.world, a.ledger, f)))
  }

  /** The frame of a batch is inserted; a batch without records has none. */
  ghost predicate Archives(u: Setup, x: Coll, x': Coll, generation: nat, text: Bytes)
  {
    if text == [] then x'.arch == x.arch && x'.log == x.log
    else exists t: nat, k: D.Key ::
           Inserts(u, x.arch, x'.arch, t, k, text) && x'.log == x.log + [Entry(generation, k, text)]
  }

  /** `commit_journal_batch` of a fetched batch. */
  ghost predicate Commit(u: Setup, x: Coll, x': Coll, i: nat)
  {
    && i in x.fetches && x.fetches[i].result.Some?
    && var f := x.fetches[i];
       var b := f.result.value;
       && S.Matches(x.table, u.target, f.e) && S.Follows(f.e.cursor, RowBatch(b))
       && x'.table == S.CommitBatch(x.table, u.target, f.e, RowBatch(b))
       && var g := f.e.generation + (if b.gap then 1 else 0);
          && Archives(u, x, x', g, b.records)
          && x' == x.(table := x'.table, arch := x'.arch, log := x'.log, fetches := x.fetches - {i},
                      gens := if b.records == [] && !b.gap then x.gens else x.gens[g := f.r])
  }

  /** The row begins again under a listed identity, or is made. */
  ghost predicate Restart(u: Setup, x: Coll, x': Coll, op: S.Op)
  {
    && (op.Open? || op.Change?) && S.Step(x.table, op, x'.table) && u.id in x'.table
    && (u.id in x.table ==> x'.table[u.id] != x.table[u.id])
    && x' == x.(table := x'.table,
                gens := if x'.table[u.id].incarnation == u.inc then x.gens[x'.table[u.id].generation := Nobody()] else x.gens)
  }

  /** The row belongs to another identity, whose batches are committed. */
  ghost predicate Elsewhere(u: Setup, x: Coll, x': Coll, op: S.Op, text: Bytes)
  {
    && op.Commit? && op.e.id == u.id && u.id in x.table && x.table[u.id].incarnation != u.inc
    && S.Step(x.table, op, x'.table)
    && Archives(u, x, x', x'.table[u.id].generation, text)
    && x' == x.(table := x'.table, arch := x'.arch, log := x'.log)
  }

  /** Transactions on other rows. */
  ghost predicate OtherRow(u: Setup, x: Coll, x': Coll, op: S.Op)
  {
    && S.Step(x.table, op, x'.table) && x' == x.(table := x'.table)
    && (u.id in x.table <==> u.id in x'.table) && (u.id in x.table ==> x'.table[u.id] == x.table[u.id])
  }

  // ----- the archive -----

  /** The archive moves, and no frame of the stream is committed; retention may take its old days. */
  ghost predicate ArchiveMoves(u: Setup, x: Coll, x': Coll)
  {
    && A.Next(u.world, x.arch, x'.arch) && x' == x.(arch := x'.arch)
    && forall k: D.Key | k.stream == u.id ::
         A.RowsOf(x'.arch.ledger, k) == A.RowsOf(x.arch.ledger, k) || A.RowsOf(x'.arch.ledger, k) == []
  }

  ghost predicate Next(u: Setup, x: Coll, x': Coll)
  {
    || JournalMoves(u, x, x')
    || (exists i :: Begin(u, x, x', i)) || (exists i :: Read(u, x, x', i)) || (exists i :: Forget(x, x', i))
    || (exists i :: Commit(u, x, x', i))
    || (exists op :: Restart(u, x, x', op)) || (exists op, text :: Elsewhere(u, x, x', op, text))
    || (exists op :: OtherRow(u, x, x', op))
    || ArchiveMoves(u, x, x')
  }

  ghost predicate Init(u: Setup, x: Coll)
  {
    && RaceInit(u.cfg, Seen(x, Nobody())) && A.Init(x.arch)
    && x.fetches == map[] && x.table == map[] && x.gens == map[] && x.log == []
  }

  ghost predicate Run(u: Setup, run: seq<Coll>)
  {
    && run != [] && Init(u, run[0])
    && forall i | 0 <= i < |run| - 1 :: Next(u, run[i], run[i + 1])
  }

  // ----- what was collected -----

  /** What a generation has committed: the records in front of a skipped line, and those since the gap. */
  function Collected(r: Reader): Bytes { (if r.prelude.Prelude? then r.prelude.text else []) + r.got }

  /** The committed texts of a generation, in commit order. */
  function Joined(log: seq<Entry>, g: nat): Bytes
  {
    if log == [] then [] else
    Joined(log[..|log| - 1], g) + (if log[|log| - 1].generation == g then log[|log| - 1].text else [])
  }

  /** The committed frames of one archive file, in commit order. */
  function Frames(u: Setup, log: seq<Entry>, k: D.Key): seq<Bytes>
  {
    if log == [] then [] else
    Frames(u, log[..|log| - 1], k) + (if log[|log| - 1].key == k then [u.encode(log[|log| - 1].text)] else [])
  }
}
