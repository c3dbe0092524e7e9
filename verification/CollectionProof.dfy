/** What the collector has committed of a journal is the journal's text, and what it archives is what it committed. */
module CollectionProof {
  import opened Wrappers
  import opened FileSystem
  import opened JournalReader
  import opened JournalRace
  import opened JournalRaceSafety
  import opened JournalRaceProof
  import opened Collection
  import J = Journal
  import JournalOrder
  import JournalSteadiness
  import S = JournalStreams
  import A = ArchiveLedger
  import D = ArchiveDisk
  import R = ArchiveRuns
  import Q = ArchiveQuota

  // ----- the invariant -----

  ghost predicate ReaderInv(u: Setup, x: Coll, r: Reader) { RaceInv(Seen(x, r)) && LongSkip(u.lim, r.prelude) }

  ghost predicate JournalInv(u: Setup, x: Coll) { ReaderInv(u, x, Nobody()) && JournalOrder.Orderly(u.cfg, x.s) }

  ghost predicate GensInv(u: Setup, x: Coll)
  {
    forall g | g in x.gens :: ReaderInv(u, x, x.gens[g]) && x.gens[g].stage.Idle?
  }

  /** The row is where its generation has got to. */
  ghost predicate RowInv(u: Setup, x: Coll)
  {
    if u.id !in x.table then x.gens == map[] && x.log == [] && x.fetches == map[] else
    var row := x.table[u.id];
    && (row.incarnation == u.inc <==> row.generation in x.gens)
    && (row.generation in x.gens ==> x.gens[row.generation].cursor == row.cursor)
    && (forall g | g in x.gens :: g <= row.generation)
    && (forall j | 0 <= j < |x.log| :: x.log[j].generation <= row.generation)
  }

  /** The row has moved on since it was opened, or stands where it stood. */
  predicate Behind(e: S.Expected, row: S.Stream)
  {
    && e.generation <= row.generation
    && (e.generation == row.generation ==>
          && row.incarnation == e.incarnation
          && (e.cursor == row.cursor || e.cursor.None? || (row.cursor.Some? && S.Before(e.cursor.value, row.cursor.value))))
  }

  ghost predicate Fetched(f: Fetch)
  {
    if f.result.None? then f.r == f.from.(stage := f.r.stage) else
    var b := f.result.value;
    && f.r.stage.Idle? && b.next == f.r.cursor && S.Follows(f.e.cursor, RowBatch(b))
    && Collected(f.r) == (if b.gap then [] else Collected(f.from)) + b.records
  }

  ghost predicate FetchInv(u: Setup, x: Coll, f: Fetch)
  {
    && ReaderInv(u, x, f.r) && Fetched(f)
    && f.e.id == u.id && f.e.incarnation == u.inc && f.from.cursor == f.e.cursor
    && u.id in x.table && Behind(f.e, x.table[u.id])
    && (f.e == S.ExpectedOf(u.id, x.table[u.id]) ==> f.e.generation in x.gens && x.gens[f.e.generation] == f.from)
  }

  ghost predicate FetchesInv(u: Setup, x: Coll)
  {
    forall i | i in x.fetches :: FetchInv(u, x, x.fetches[i])
  }

  ghost predicate LogInv(x: Coll)
  {
    forall g | g in x.gens :: Joined(x.log, g) == Collected(x.gens[g])
  }

  function Data(rows: seq<A.Row>): seq<Bytes> { seq(|rows|, i requires 0 <= i < |rows| => rows[i].data) }

  /** The ledger's rows of a file are its latest committed frames. */
  ghost predicate RowsMatch(u: Setup, x: Coll, k: D.Key)
  {
    var frames, rows := Frames(u, x.log, k), A.RowsOf(x.arch.ledger, k);
    |rows| <= |frames| && Data(rows) == frames[|frames| - |rows|..]
  }

  ghost predicate ArchiveInv(u: Setup, x: Coll)
  {
    && R.SysInv(u.world, x.arch) && Q.CountInv(u.world, x.arch)
    && forall k: D.Key | k.stream == u.id :: RowsMatch(u, x, k)
  }

  ghost predicate Inv(u: Setup, x: Coll)
  {
    JournalInv(u, x) && GensInv(u, x) && RowInv(u, x) && FetchesInv(u, x) && LogInv(x) && ArchiveInv(u, x)
  }

  // ----- the journal moves -----

  lemma ReaderStays(u: Setup, x: Coll, x': Coll, r: Reader, r': Reader)
    requires ReaderInv(u, x, r) && JournalOrder.Orderly(u.cfg, x.s) && JournalMoves(u, x, x')
    requires (JournalSteadiness.Works(u.cfg, x.s, x'.s) && r' == r) || (J.PowerLoss(x.s, x'.s) && r' == r.(stage := Idle))
    ensures ReaderInv(u, x', r') && JournalOrder.Orderly(u.cfg, x'.s)
  {
    hide RaceInv, JournalOrder.Orderly, J.PowerLoss, JournalSteadiness.Works, Recorded;
    WriterKeeps(u.cfg, Seen(x, r), Seen(x', r'));
  }

  /** A reader that is not in the middle of a read. */
  lemma IdleStays(u: Setup, x: Coll, x': Coll, r: Reader)
    requires ReaderInv(u, x, r) && r.stage.Idle? && JournalOrder.Orderly(u.cfg, x.s) && JournalMoves(u, x, x')
    ensures ReaderInv(u, x', r) && JournalOrder.Orderly(u.cfg, x'.s)
  {
    hide ReaderInv, JournalOrder.Orderly, J.PowerLoss, JournalSteadiness.Works, Recorded;
    ReaderStays(u, x, x', r, r);
  }

  lemma FetchStays(u: Setup, x: Coll, x': Coll, i: nat)
    requires FetchesInv(u, x) && JournalOrder.Orderly(u.cfg, x.s) && JournalMoves(u, x, x') && i in x'.fetches
    ensures FetchInv(u, x', x'.fetches[i])
  {
    hide ReaderInv, JournalOrder.Orderly, J.PowerLoss, JournalSteadiness.Works, Recorded, Collected;
    assert i in x.fetches;
    ReaderStays(u, x, x', x.fetches[i].r, x'.fetches[i].r);
  }

  lemma JournalKeeps(u: Setup, x: Coll, x': Coll)
    requires Inv(u, x) && JournalMoves(u, x, x')
    ensures Inv(u, x')
  {
    hide FetchInv, ReaderInv, JournalOrder.Orderly, J.PowerLoss, JournalSteadiness.Works, Recorded, ArchiveInv, RowInv;
    IdleStays(u, x, x', Nobody());
    forall i | i in x'.fetches ensures FetchInv(u, x', x'.fetches[i]) { FetchStays(u, x, x', i); }
    forall g | g in x'.gens ensures ReaderInv(u, x', x'.gens[g]) { IdleStays(u, x, x', x.gens[g]); }
    SameArchive(u, x, x');
    SameRow(u, x, x') by { FetchKeys(u, x, x'); }
  }

  lemma FetchKeys(u: Setup, x: Coll, x': Coll)
    requires JournalMoves(u, x, x')
    ensures x'.fetches.Keys == x.fetches.Keys
  {
    hide J.PowerLoss, JournalSteadiness.Works, Recorded;
  }

  lemma SameRow(u: Setup, x: Coll, x': Coll)
    requires RowInv(u, x) && x'.table == x.table && x'.gens == x.gens && x'.log == x.log && x'.fetches.Keys == x.fetches.Keys
    ensures RowInv(u, x')
  {
    if u.id !in x.table { assert x'.fetches == map[]; }
  }

  lemma SameArchive(u: Setup, x: Coll, x': Coll)
    requires ArchiveInv(u, x) && x'.arch == x.arch && x'.log == x.log
    ensures ArchiveInv(u, x')
  {
    forall k: D.Key | k.stream == u.id ensures RowsMatch(u, x', k) {
      assert RowsMatch(u, x, k);
    }
  }

  lemma SameReader(u: Setup, x: Coll, x': Coll, r: Reader)
    requires ReaderInv(u, x, r) && x'.s == x.s && x'.last == x.last
    ensures ReaderInv(u, x', r)
  {
    assert Seen(x', r) == Seen(x, r);
    hide RaceInv;
  }

  /** Steps that leave the journal alone keep what is known of it. */
  lemma SameJournal(u: Setup, x: Coll, x': Coll)
    requires JournalInv(u, x) && x'.s == x.s && x'.last == x.last
    ensures JournalInv(u, x')
  {
    hide ReaderInv, JournalOrder.Orderly;
    SameReader(u, x, x', Nobody());
  }

  lemma SameGens(u: Setup, x: Coll, x': Coll)
    requires GensInv(u, x) && x'.s == x.s && x'.last == x.last && x'.gens == x.gens
    ensures GensInv(u, x')
  {
    hide ReaderInv;
    forall g | g in x'.gens ensures ReaderInv(u, x', x'.gens[g]) { SameReader(u, x, x', x.gens[g]); }
  }

  /** A fetch stays good while neither its row nor what the row stands for changes. */
  lemma SameFetch(u: Setup, x: Coll, x': Coll, f: Fetch)
    requires FetchInv(u, x, f) && x'.s == x.s && x'.last == x.last && x'.gens == x.gens
    requires u.id in x'.table && u.id in x.table && x'.table[u.id] == x.table[u.id]
    ensures FetchInv(u, x', f)
  {
    hide ReaderInv, Fetched, Behind;
    SameReader(u, x, x', f.r);
  }

  // ----- fetches -----

  lemma BeginKeeps(u: Setup, x: Coll, x': Coll, i: nat)
    requires Inv(u, x) && Begin(u, x, x', i)
    ensures Inv(u, x')
  {
    hide ReaderInv, ArchiveInv, Collected, Joined;
    SameJournal(u, x, x');
    SameGens(u, x, x');
    SameArchive(u, x, x');
    var from := x.gens[x.table[u.id].generation];
    SameReader(u, x, x', from);
    forall j | j in x'.fetches ensures FetchInv(u, x', x'.fetches[j]) {
      if j != i { SameFetch(u, x, x', x.fetches[j]); }
    }
  }

  lemma ForgetKeeps(u: Setup, x: Coll, x': Coll, i: nat)
    requires Inv(u, x) && Forget(x, x', i)
    ensures Inv(u, x')
  {
    hide ReaderInv, ArchiveInv, Collected, Joined, FetchInv;
    SameJournal(u, x, x');
    SameGens(u, x, x');
    SameArchive(u, x, x');
    forall j | j in x'.fetches ensures FetchInv(u, x', x'.fetches[j]) {
      TableThere(u, x, x.fetches[j]);
      SameFetch(u, x, x', x.fetches[j]);
    }
  }

  lemma TableThere(u: Setup, x: Coll, f: Fetch)
    requires FetchInv(u, x, f)
    ensures u.id in x.table
  {}

  /** What a returned batch is to the reader. */
  lemma DeliveryMeans(lim: Limits, x: Race, x': Race, b: Batch)
    requires RaceInv(x) && Delivers(lim, x, x', b)
    ensures x'.r.stage.Idle? && b.next == x'.r.cursor
    ensures Collected(x'.r) == (if b.gap then [] else Collected(x.r)) + b.records
  {
    Beginnings(x);
    hide RaceInv, Collected;
    if Return(lim, x, x') {
      ReturnMeans(lim, x, x');
    } else if Skip(lim, x, x') {
      SkipMeans(lim, x, x');
    } else {
      EmptyMeans(x, x');
    }
  }

  lemma Beginnings(x: Race)
    requires RaceInv(x)
    ensures x.r.cursor.None? ==> x.r.got == [] && x.r.prelude.NoPrelude?
  {}

  lemma ReturnMeans(lim: Limits, x: Race, x': Race)
    requires Return(lim, x, x') && (x.r.cursor.None? ==> x.r.got == [] && x.r.prelude.NoPrelude?)
    ensures x'.r.stage.Idle? && x.r.stage.next == x'.r.cursor
    ensures Collected(x'.r) == (if x.r.stage.gap then [] else Collected(x.r)) + x.r.stage.records
  {
    hide Line, Exhausted;
    var p := if x.r.prelude.Prelude? then x.r.prelude.text else [];
    assert p + (x.r.got + x.r.stage.records) == (p + x.r.got) + x.r.stage.records;
  }

  lemma SkipMeans(lim: Limits, x: Race, x': Race)
    requires Skip(lim, x, x')
    ensures x'.r.stage.Idle? && Collected(x'.r) == [] + x.r.stage.records
  {
    hide Line, Exhausted;
  }

  lemma EmptyMeans(x: Race, x': Race)
    requires List(x, x') && J.Found(x.s.fs) == {} && (x.r.cursor.None? ==> x.r.got == [] && x.r.prelude.NoPrelude?)
    ensures x'.r.stage.Idle? && x'.r.cursor.None? && Collected(x'.r) == [] && (x.r.cursor.None? ==> Collected(x.r) == [])
  {}

  lemma Pictures(x: Race)
    requires RaceInv(x)
    ensures CursorOk(x) && StageOk(x)
  {}

  /** The checks of a batch against its cursor pass. */
  lemma DeliveryFollows(lim: Limits, x: Race, x': Race, b: Batch)
    requires RaceInv(x) && Delivers(lim, x, x', b)
    ensures S.Follows(x.r.cursor, RowBatch(b))
  {
    Pictures(x);
    hide RaceInv, PreludeOk, FileHeld, Listing;
    if Return(lim, x, x') {
      var st := x.r.stage;
      assert Progressed(x, st);
      if st.records != [] && !st.gap && x.r.cursor.Some? {
        TextMoves(x, st.start, st.next.value, st.records);
      }
    }
  }

  lemma TextMoves(x: Race, a: Cursor, c: Cursor, text: Bytes)
    requires Spans(x.s.hist, x.last, a, c, text) && text != []
    ensures S.Before(a, c)
  {}

  lemma ReadIsNext(u: Setup, x: Race, x': Race, b: Batch)
    requires Reads(u.lim, x, x') || Delivers(u.lim, x, x', b)
    ensures RaceNext(u.cfg, u.lim, x, x')
  {
    hide List, Check, FromOldest, Fill, Take, Advance, Return, Skip, WriterStep;
  }

  lemma ReadsOn(lim: Limits, x: Race, x': Race)
    requires Reads(lim, x, x')
    ensures x'.r == x.r.(stage := x'.r.stage)
  {}

  lemma ReadReader(u: Setup, x: Coll, x': Coll, i: nat)
    requires Inv(u, x) && Read(u, x, x', i)
    ensures ReaderInv(u, x', x'.fetches[i].r)
  {
    hide Reads, Delivers, RaceInv, JournalOrder.Orderly, ArchiveInv, LongSkip;
    var before, after := Seen(x, x.fetches[i].r), Seen(x, x'.fetches[i].r);
    assert FetchInv(u, x, x.fetches[i]);
    ReadIsNext(u, before, after, if x'.fetches[i].result.Some? then x'.fetches[i].result.value else Batch([], None, false));
    RaceKeeps(u.cfg, u.lim, before, after);
    StepSkipsLong(u.cfg, u.lim, before, after);
    assert Seen(x', x'.fetches[i].r) == after;
  }

  lemma ReadFetched(u: Setup, x: Coll, x': Coll, i: nat)
    requires FetchesInv(u, x) && Read(u, x, x', i)
    ensures Fetched(x'.fetches[i])
  {
    hide Reads, Delivers, RaceInv, LongSkip, Collected;
    var f, f' := x.fetches[i], x'.fetches[i];
    var before, after := Seen(x, f.r), Seen(x, f'.r);
    assert FetchInv(u, x, f);
    if f'.result.None? {
      ReadsOn(u.lim, before, after);
    } else {
      DeliveryMeans(u.lim, before, after, f'.result.value);
      DeliveryFollows(u.lim, before, after, f'.result.value);
      SameCollected(f.from, f.r);
    }
  }

  lemma SameCollected(r: Reader, r': Reader)
    requires r' == r.(stage := r'.stage)
    ensures Collected(r') == Collected(r)
  {}

  lemma ReadKeeps(u: Setup, x: Coll, x': Coll, i: nat)
    requires Inv(u, x) && Read(u, x, x', i)
    ensures Inv(u, x')
  {
    hide ReaderInv, ArchiveInv, Collected, Joined, Reads, Delivers, FetchInv, RowInv, GensInv, JournalOrder.Orderly;
    SameJournal(u, x, x');
    SameGens(u, x, x');
    SameArchive(u, x, x');
    assert x'.fetches.Keys == x.fetches.Keys;
    SameRow(u, x, x');
    forall j | j in x'.fetches ensures FetchInv(u, x', x'.fetches[j]) {
      if j != i {
        TableThere(u, x, x.fetches[j]);
        SameFetch(u, x, x', x.fetches[j]);
      } else {
        ReadFetch(u, x, x', i);
      }
    }
  }

  lemma ReadFetch(u: Setup, x: Coll, x': Coll, i: nat)
    requires Inv(u, x) && Read(u, x, x', i)
    ensures FetchInv(u, x', x'.fetches[i])
  {
    ReadReader(u, x, x', i);
    ReadFetched(u, x, x', i);
    hide ReaderInv, ArchiveInv, Reads, Delivers, Fetched, Behind, JournalInv, GensInv, RowInv, LogInv;
    assert FetchInv(u, x, x.fetches[i]);
  }

  // ----- transactions -----

  lemma OtherRowKeeps(u: Setup, x: Coll, x': Coll, op: S.Op)
    requires Inv(u, x) && OtherRow(u, x, x', op)
    ensures Inv(u, x')
  {
    hide ReaderInv, ArchiveInv, Collected, Joined, FetchInv, S.Step;
    SameJournal(u, x, x');
    SameGens(u, x, x');
    SameArchive(u, x, x');
    forall j | j in x'.fetches ensures FetchInv(u, x', x'.fetches[j]) {
      TableThere(u, x, x.fetches[j]);
      SameFetch(u, x, x', x.fetches[j]);
    }
  }

  lemma RestartedRow(u: Setup, x: Coll, x': Coll, op: S.Op)
    requires Restart(u, x, x', op)
    ensures x'.table[u.id].cursor.None?
    ensures u.id in x.table ==> x'.table[u.id].generation == x.table[u.id].generation + 1
  {}

  /** Nothing was committed yet in a generation that has just begun. */
  lemma {:induction false} NothingJoined(log: seq<Entry>, g: nat)
    requires forall j | 0 <= j < |log| :: log[j].generation < g
    ensures Joined(log, g) == []
  {
    if log != [] {
      NothingJoined(log[..|log| - 1], g);
    }
  }

  lemma NobodyCollects()
    ensures Collected(Nobody()) == []
  {}

  lemma RestartFetch(u: Setup, x: Coll, x': Coll, f: Fetch)
    requires FetchInv(u, x, f) && x'.s == x.s && x'.last == x.last && u.id in x.table && u.id in x'.table
    requires x'.table[u.id].generation > x.table[u.id].generation
    ensures FetchInv(u, x', f)
  {
    hide ReaderInv, Fetched;
    SameReader(u, x, x', f.r);
  }

  lemma RestartGens(u: Setup, x: Coll, x': Coll, op: S.Op)
    requires GensInv(u, x) && JournalInv(u, x) && Restart(u, x, x', op)
    ensures GensInv(u, x')
  {
    hide ReaderInv, S.Step, JournalOrder.Orderly;
    SameReader(u, x, x', Nobody());
    forall g | g in x'.gens ensures ReaderInv(u, x', x'.gens[g]) && x'.gens[g].stage.Idle? {
      if g in x.gens && x'.gens[g] == x.gens[g] { SameReader(u, x, x', x.gens[g]); }
    }
  }

  lemma RestartRowInv(u: Setup, x: Coll, x': Coll, op: S.Op)
    requires RowInv(u, x) && Restart(u, x, x', op)
    ensures RowInv(u, x')
  {
    RestartedRow(u, x, x', op);
    hide S.Step;
  }

  lemma RestartLog(u: Setup, x: Coll, x': Coll, op: S.Op)
    requires RowInv(u, x) && LogInv(x) && Restart(u, x, x', op)
    ensures LogInv(x')
  {
    RestartedRow(u, x, x', op);
    NobodyCollects();
    NothingJoined(x.log, x'.table[u.id].generation);
    hide S.Step, Joined, Collected;
  }

  lemma RestartKeeps(u: Setup, x: Coll, x': Coll, op: S.Op)
    requires Inv(u, x) && Restart(u, x, x', op)
    ensures Inv(u, x')
  {
    RestartGens(u, x, x', op);
    RestartRowInv(u, x, x', op);
    RestartLog(u, x, x', op);
    RestartedRow(u, x, x', op);
    hide ReaderInv, ArchiveInv, LogInv, GensInv, FetchInv, S.Step;
    SameJournal(u, x, x');
    SameArchive(u, x, x');
    forall j | j in x'.fetches ensures FetchInv(u, x', x'.fetches[j]) {
      RestartFetch(u, x, x', x.fetches[j]);
    }
  }

  // ----- commits -----

  lemma JoinedMore(log: seq<Entry>, e: Entry, g: nat)
    ensures Joined(log + [e], g) == Joined(log, g) + (if e.generation == g then e.text else [])
  {
    assert (log + [e])[..|log|] == log;
  }

  lemma FramesMore(u: Setup, log: seq<Entry>, e: Entry, k: D.Key)
    ensures Frames(u, log + [e], k) == Frames(u, log, k) + (if e.key == k then [u.encode(e.text)] else [])
  {
    assert (log + [e])[..|log|] == log;
  }

  /** What a commit of records adds to the texts of the generations. */
  lemma ArchivesJoined(u: Setup, x: Coll, x': Coll, g: nat, text: Bytes, h: nat)
    requires Archives(u, x, x', g, text)
    ensures Joined(x'.log, h) == Joined(x.log, h) + (if g == h then text else [])
    ensures forall j | 0 <= j < |x'.log| :: x'.log[j].generation == g || (j < |x.log| && x'.log[j] == x.log[j])
  {
    if text == [] {
      assert Joined(x.log, h) + [] == Joined(x.log, h);
    } else {
      var t: nat, k :| Inserts(u, x.arch, x'.arch, t, k, text) && x'.log == x.log + [Entry(g, k, text)];
      JoinedMore(x.log, Entry(g, k, text), h);
    }
  }

  lemma InsertIsCommit(u: Setup, a: A.Sys, a': A.Sys, t: nat, k: D.Key, text: Bytes)
    requires Inserts(u, a, a', t, k, text)
    ensures A.Next(u.world, a, a')
  {
    assert A.Commit(u.world, a, a', t);
  }

  lemma InsertedRows(u: Setup, a: A.Sys, a': A.Sys, t: nat, k: D.Key, text: Bytes, j: D.Key)
    requires Inserts(u, a, a', t, k, text)
    ensures Data(A.RowsOf(a'.ledger, j)) == Data(A.RowsOf(a.ledger, j)) + (if j == k then [u.encode(text)] else [])
    ensures |A.RowsOf(a'.ledger, j)| == |A.RowsOf(a.ledger, j)| + (if j == k then 1 else 0)
  {}

  lemma ArchivesKeeps(u: Setup, x: Coll, x': Coll, g: nat, text: Bytes)
    requires ArchiveInv(u, x) && Archives(u, x, x', g, text)
    ensures ArchiveInv(u, x')
  {
    if text == [] {
      SameArchive(u, x, x');
    } else {
      var t: nat, k :| Inserts(u, x.arch, x'.arch, t, k, text) && x'.log == x.log + [Entry(g, k, text)];
      InsertIsCommit(u, x.arch, x'.arch, t, k, text);
      Q.StepKeeps(u.world, x.arch, x'.arch);
      forall j: D.Key | j.stream == u.id ensures RowsMatch(u, x', j) {
        assert RowsMatch(u, x, j);
        InsertMatches(u, x, x', t, k, g, text, j);
      }
    }
  }

  lemma InsertMatches(u: Setup, x: Coll, x': Coll, t: nat, k: D.Key, g: nat, text: Bytes, j: D.Key)
    requires Inserts(u, x.arch, x'.arch, t, k, text) && x'.log == x.log + [Entry(g, k, text)] && RowsMatch(u, x, j)
    ensures RowsMatch(u, x', j)
  {
    FramesMore(u, x.log, Entry(g, k, text), j);
    InsertedRows(u, x.arch, x'.arch, t, k, text, j);
    hide Frames, Inserts, Data;
    var frames, rows := Frames(u, x.log, j), A.RowsOf(x.arch.ledger, j);
    var frames', rows' := Frames(u, x'.log, j), A.RowsOf(x'.arch.ledger, j);
    if j == k {
      assert frames'[|frames'| - |rows'|..] == frames[|frames| - |rows|..] + [u.encode(text)];
    } else {
      assert frames + [] == frames && Data(rows) + [] == Data(rows);
    }
  }

  /** The commit of records or of a gap. */
  ghost predicate Moving(u: Setup, x: Coll, x': Coll, i: nat)
  {
    Commit(u, x, x', i) && var b := x.fetches[i].result.value; b.records != [] || b.gap
  }

  lemma CommittedRow(u: Setup, x: Coll, x': Coll, i: nat)
    requires Commit(u, x, x', i)
    ensures var f := x.fetches[i];
            var b := f.result.value;
            && f.e.id in x.table && f.e == S.ExpectedOf(f.e.id, x.table[f.e.id])
            && x'.table == x.table[f.e.id := x'.table[f.e.id]] && f.e.id in x'.table
            && x'.table[f.e.id].cursor == b.next && x'.table[f.e.id].incarnation == f.e.incarnation
            && x'.table[f.e.id].generation == f.e.generation + (if b.gap then 1 else 0)
            && (!b.gap && b.records == [] ==> x'.table == x.table)
            && (!b.gap && b.records != [] ==> b.next.Some? && (f.e.cursor.Some? ==> S.Before(f.e.cursor.value, b.next.value)))
  {
    hide Archives;
    var f := x.fetches[i];
    var row := x.table[f.e.id];
    if !f.result.value.gap && f.result.value.records == [] {
      assert x'.table[f.e.id] == row;
    }
  }

  lemma QuietCommit(u: Setup, x: Coll, x': Coll, i: nat)
    requires Inv(u, x) && Commit(u, x, x', i) && !Moving(u, x, x', i)
    ensures Inv(u, x')
  {
    CommittedRow(u, x, x', i);
    assert x' == x.(fetches := x.fetches - {i});
    hide Commit, Inv;
    ForgetKeeps(u, x, x', i);
  }

  lemma CommitGens(u: Setup, x: Coll, x': Coll, i: nat)
    requires GensInv(u, x) && FetchesInv(u, x) && Moving(u, x, x', i)
    ensures GensInv(u, x')
  {
    hide ReaderInv, Archives, Collected, Behind;
    var f := x.fetches[i];
    assert FetchInv(u, x, f);
    SameReader(u, x, x', f.r);
    forall g | g in x'.gens ensures ReaderInv(u, x', x'.gens[g]) && x'.gens[g].stage.Idle? {
      if x'.gens[g] != f.r { SameReader(u, x, x', x.gens[g]); }
    }
  }

  lemma CommitRowInv(u: Setup, x: Coll, x': Coll, i: nat)
    requires RowInv(u, x) && FetchesInv(u, x) && Moving(u, x, x', i)
    ensures RowInv(u, x')
  {
    hide Moving, Archives, Joined, FetchesInv, RowInv;
    CommitFacts(u, x, x', i);
    var f := x.fetches[i];
    var g := f.e.generation + (if f.result.value.gap then 1 else 0);
    ArchivesJoined(u, x, x', g, f.result.value.records, 0);
    RowGoesOn(u, x, x', f.r);
  }

  /** What a commit does, and what is known of its fetch. */
  ghost predicate Moved(u: Setup, x: Coll, x': Coll, i: nat)
  {
    && i in x.fetches && x.fetches[i].result.Some? && u.id in x.table && u.id in x'.table
    && var f, row' := x.fetches[i], x'.table[u.id];
       var b := f.result.value;
       var g := f.e.generation + (if b.gap then 1 else 0);
       && Fetched(f) && f.e == S.ExpectedOf(u.id, x.table[u.id]) && f.e.incarnation == u.inc
       && f.e.generation in x.gens && x.gens[f.e.generation] == f.from
       && row'.cursor == b.next && row'.incarnation == u.inc && row'.generation == g
       && Archives(u, x, x', g, b.records) && x'.gens == x.gens[g := f.r]
  }

  lemma CommitFacts(u: Setup, x: Coll, x': Coll, i: nat)
    requires FetchesInv(u, x) && Moving(u, x, x', i)
    ensures Moved(u, x, x', i)
  {
    hide ReaderInv, Archives, Fetched, Behind, S.Matches, S.Follows, S.CommitBatch;
    CommittedRow(u, x, x', i);
    assert FetchInv(u, x, x.fetches[i]);
  }

  lemma RowGoesOn(u: Setup, x: Coll, x': Coll, r: Reader)
    requires RowInv(u, x) && u.id in x.table && u.id in x'.table
    requires var row, row' := x.table[u.id], x'.table[u.id];
             && row'.incarnation == u.inc && row'.generation >= row.generation && r.cursor == row'.cursor
             && x'.gens == x.gens[row'.generation := r]
             && forall j | 0 <= j < |x'.log| ::
                  x'.log[j].generation == row'.generation || (j < |x.log| && x'.log[j] == x.log[j])
    ensures RowInv(u, x')
  {}

  lemma CommitLog(u: Setup, x: Coll, x': Coll, i: nat)
    requires RowInv(u, x) && LogInv(x) && FetchesInv(u, x) && Moving(u, x, x', i)
    ensures LogInv(x')
  {
    hide Moving, Archives, Joined, FetchesInv, Collected, Fetched, RowInv;
    CommitFacts(u, x, x', i);
    forall h | h in x'.gens ensures Joined(x'.log, h) == Collected(x'.gens[h]) {
      CommitText(u, x, x', i, h);
    }
  }

  lemma CommitText(u: Setup, x: Coll, x': Coll, i: nat, h: nat)
    requires RowInv(u, x) && LogInv(x) && FetchesInv(u, x) && Moving(u, x, x', i) && h in x'.gens
    ensures Joined(x'.log, h) == Collected(x'.gens[h])
  {
    hide Moving, Archives, Joined, FetchesInv, Collected, RowInv;
    CommitFacts(u, x, x', i);
    var f := x.fetches[i];
    var b := f.result.value;
    var g := f.e.generation + (if b.gap then 1 else 0);
    ArchivesJoined(u, x, x', g, b.records, h);
    if h != g {
      assert Joined(x.log, h) + [] == Joined(x.log, h);
    } else if b.gap {
      LogBehind(u, x);
      NothingJoined(x.log, g);
    }
  }

  lemma LogBehind(u: Setup, x: Coll)
    requires RowInv(u, x) && u.id in x.table
    ensures forall j | 0 <= j < |x.log| :: x.log[j].generation <= x.table[u.id].generation
  {}

  lemma RowMoves(e: S.Expected, row: S.Stream, row': S.Stream)
    requires Behind(e, row) && row'.incarnation == row.incarnation && row'.generation >= row.generation
    requires row'.generation == row.generation ==>
               row'.cursor.Some? && (row.cursor.Some? ==> S.Before(row.cursor.value, row'.cursor.value))
    ensures Behind(e, row') && (e.generation == row'.generation ==> e.cursor != row'.cursor)
  {}

  lemma CommitFetch(u: Setup, x: Coll, x': Coll, i: nat, j: nat)
    requires FetchesInv(u, x) && Moving(u, x, x', i) && j in x.fetches && j != i
    ensures FetchInv(u, x', x.fetches[j])
  {
    CommittedRow(u, x, x', i);
    hide ReaderInv, Archives, Fetched, Behind, S.Matches, S.Follows, S.CommitBatch;
    assert FetchInv(u, x, x.fetches[i]) && FetchInv(u, x, x.fetches[j]);
    SameReader(u, x, x', x.fetches[j].r);
    RowMoves(x.fetches[j].e, x.table[u.id], x'.table[u.id]);
  }

  lemma CommitArchive(u: Setup, x: Coll, x': Coll, i: nat)
    requires ArchiveInv(u, x) && Moving(u, x, x', i)
    ensures ArchiveInv(u, x')
  {
    var b := x.fetches[i].result.value;
    ArchivesKeeps(u, x, x', x.fetches[i].e.generation + (if b.gap then 1 else 0), b.records);
  }

  lemma CommitKeeps(u: Setup, x: Coll, x': Coll, i: nat)
    requires Inv(u, x) && Commit(u, x, x', i)
    ensures Inv(u, x')
  {
    if !Moving(u, x, x', i) {
      QuietCommit(u, x, x', i);
    } else {
      hide GensInv, RowInv, LogInv, ArchiveInv, FetchInv, ReaderInv, JournalOrder.Orderly, S.Matches, S.Follows, Archives;
      SameJournal(u, x, x');
      CommitGens(u, x, x', i);
      CommitRowInv(u, x, x', i);
      CommitLog(u, x, x', i);
      CommitArchive(u, x, x', i);
      forall j | j in x'.fetches ensures FetchInv(u, x', x'.fetches[j]) { CommitFetch(u, x, x', i, j); }
    }
  }

  // ----- another identity, and the archive -----

  lemma ElsewhereRow(u: Setup, x: Coll, x': Coll, op: S.Op, text: Bytes)
    requires Elsewhere(u, x, x', op, text)
    ensures u.id in x'.table && x'.table[u.id].incarnation == x.table[u.id].incarnation
    ensures x'.table[u.id].generation >= x.table[u.id].generation
  {
    hide Archives;
  }

  lemma ElsewhereLog(u: Setup, x: Coll, x': Coll, op: S.Op, text: Bytes)
    requires RowInv(u, x) && LogInv(x) && Elsewhere(u, x, x', op, text)
    ensures RowInv(u, x') && LogInv(x')
  {
    ElsewhereRow(u, x, x', op, text);
    var g := x'.table[u.id].generation;
    hide Collected, S.Step, Archives, Joined;
    ArchivesJoined(u, x, x', g, text, 0);
    forall h | h in x'.gens ensures Joined(x'.log, h) == Collected(x'.gens[h]) {
      ArchivesJoined(u, x, x', g, text, h);
      assert Joined(x.log, h) + [] == Joined(x.log, h);
    }
  }

  lemma ElsewhereKeeps(u: Setup, x: Coll, x': Coll, op: S.Op, text: Bytes)
    requires Inv(u, x) && Elsewhere(u, x, x', op, text)
    ensures Inv(u, x')
  {
    hide ReaderInv, ArchiveInv, S.Step, Archives, RowInv, LogInv, GensInv, FetchInv, JournalOrder.Orderly;
    ElsewhereRow(u, x, x', op, text);
    ElsewhereLog(u, x, x', op, text);
    ArchivesKeeps(u, x, x', x'.table[u.id].generation, text);
    SameJournal(u, x, x');
    SameGens(u, x, x');
    forall j | j in x'.fetches ensures FetchInv(u, x', x'.fetches[j]) {
      ElsewhereFetch(u, x, x', x.fetches[j]);
    }
  }

  lemma ElsewhereFetch(u: Setup, x: Coll, x': Coll, f: Fetch)
    requires FetchInv(u, x, f) && x'.s == x.s && x'.last == x.last && u.id in x'.table
    requires x.table[u.id].incarnation != u.inc && x'.table[u.id].generation >= x.table[u.id].generation
    ensures FetchInv(u, x', f)
  {
    hide ReaderInv, Fetched;
    SameReader(u, x, x', f.r);
  }

  lemma ArchiveStays(u: Setup, x: Coll, x': Coll)
    requires ArchiveInv(u, x) && ArchiveMoves(u, x, x')
    ensures ArchiveInv(u, x')
  {
    hide A.Next, R.SysInv, Q.CountInv, Frames;
    Q.StepKeeps(u.world, x.arch, x'.arch);
    forall k: D.Key | k.stream == u.id ensures RowsMatch(u, x', k) {
      assert RowsMatch(u, x, k);
    }
  }

  lemma ArchiveKeeps(u: Setup, x: Coll, x': Coll)
    requires Inv(u, x) && ArchiveMoves(u, x, x')
    ensures Inv(u, x')
  {
    hide ReaderInv, ArchiveInv, A.Next, RowInv, GensInv, FetchInv, JournalOrder.Orderly;
    ArchiveStays(u, x, x');
    SameJournal(u, x, x');
    SameGens(u, x, x');
    SameRow(u, x, x');
    forall j | j in x'.fetches ensures FetchInv(u, x', x'.fetches[j]) {
      TableThere(u, x, x.fetches[j]);
      SameFetch(u, x, x', x.fetches[j]);
    }
  }

  // ----- every run -----

  lemma StepKeeps(u: Setup, x: Coll, x': Coll)
    requires Inv(u, x) && Next(u, x, x')
    ensures Inv(u, x')
  {
    hide Inv, JournalMoves, Begin, Read, Forget, Commit, Restart, Elsewhere, OtherRow, ArchiveMoves;
    if JournalMoves(u, x, x') { JournalKeeps(u, x, x');
    } else if i :| Begin(u, x, x', i) { BeginKeeps(u, x, x', i);
    } else if i :| Read(u, x, x', i) { ReadKeeps(u, x, x', i);
    } else if i :| Forget(x, x', i) { ForgetKeeps(u, x, x', i);
    } else if i :| Commit(u, x, x', i) { CommitKeeps(u, x, x', i);
    } else if op :| Restart(u, x, x', op) { RestartKeeps(u, x, x', op);
    } else if op, text :| Elsewhere(u, x, x', op, text) { ElsewhereKeeps(u, x, x', op, text);
    } else if op :| OtherRow(u, x, x', op) { OtherRowKeeps(u, x, x', op);
    } else { ArchiveKeeps(u, x, x'); }
  }

  lemma InitHolds(u: Setup, x: Coll)
    requires Init(u, x)
    ensures Inv(u, x)
  {
    hide RaceInv, RaceInit, A.Init, R.SysInv, Q.CountInv, JournalOrder.Orderly;
    RaceInitHolds(u.cfg, Seen(x, Nobody()));
    ArchiveStarts(u, x.arch);
    forall k: D.Key | k.stream == u.id ensures RowsMatch(u, x, k) {
      assert A.RowsOf(x.arch.ledger, k) == [];
    }
  }

  lemma ArchiveStarts(u: Setup, a: A.Sys)
    requires A.Init(a)
    ensures R.SysInv(u.world, a) && Q.CountInv(u.world, a) && a.ledger == map[]
  {}

  lemma {:induction false} RunHolds(u: Setup, run: seq<Coll>, k: nat)
    requires Run(u, run) && k < |run|
    ensures Inv(u, run[k])
  {
    hide Inv, Init, Next;
    if k == 0 {
      InitHolds(u, run[0]);
    } else {
      RunHolds(u, run, k - 1);
      StepKeeps(u, run[k - 1], run[k]);
    }
  }

  // ----- what it means -----

  /** `text`, collected by a generation whose reader is `r`, is the journal's text, with at most one line left out. */
  ghost predicate IsJournal(u: Setup, x: Coll, r: Reader, text: Bytes)
  {
    && text == (if r.prelude.Prelude? then r.prelude.text else []) + r.got
    && (r.cursor.None? ==> text == [])
    && (r.cursor.Some? ==> Spans(x.s.hist, x.last, r.base, r.cursor.value, r.got))
    && PreludeOk(x.s.hist, x.last, r.base, r.prelude) && LongSkip(u.lim, r.prelude)
  }

  /**
   At every moment of every run of writer, fetches, commits, failures and crashes: the committed frames of a
   generation, joined in commit order, are the journal's text from the generation's first position to its cursor.
   Each record is there once and in order. If the generation began with a skipped line, its first frame is the text
   in front of that line. The generation of the row has the row's cursor.
   */
  lemma CollectedIsTheJournal(u: Setup, run: seq<Coll>, k: nat, g: nat)
    requires Run(u, run) && k < |run| && g in run[k].gens
    ensures IsJournal(u, run[k], run[k].gens[g], Joined(run[k].log, g))
    ensures u.id in run[k].table && run[k].table[u.id].generation == g ==> run[k].gens[g].cursor == run[k].table[u.id].cursor
  {
    hide RaceInv, Run, FetchesInv, ArchiveInv, Joined, Spans, PreludeOk, LongSkip;
    RunHolds(u, run, k);
    var x := run[k];
    Pictures(Seen(x, x.gens[g]));
  }

  /** The row of the journal's own identity always has such a generation. */
  lemma RowIsCollected(u: Setup, run: seq<Coll>, k: nat)
    requires Run(u, run) && k < |run| && u.id in run[k].table && run[k].table[u.id].incarnation == u.inc
    ensures run[k].table[u.id].generation in run[k].gens
  {
    hide Run, JournalInv, GensInv, FetchesInv, LogInv, ArchiveInv;
    RunHolds(u, run, k);
  }

  function Concat(frames: seq<Bytes>): Bytes
  {
    if frames == [] then [] else Concat(frames[..|frames| - 1]) + frames[|frames| - 1]
  }

  lemma {:induction false} TextIsConcat(rows: seq<A.Row>)
    ensures A.Text(rows) == Concat(Data(rows))
  {
    if rows != [] {
      TextIsConcat(rows[..|rows| - 1]);
      assert Data(rows)[..|rows| - 1] == Data(rows[..|rows| - 1]);
    }
  }

  lemma FileIsRows(world: A.World, a: A.Sys, k: D.Key)
    requires R.SysInv(world, a) && a.process.Running? && a.job.Free? && k in a.disk.files
    requires A.WorkerOf(a, world.owner(k.stream)).Idle?
    ensures a.disk.files[k].bytes == A.Text(A.RowsOf(a.ledger, k))
  {
    assert R.KeyInv(world, a, k);
  }

  /**
   Between archive jobs, a file that no worker has in hand is the concatenation of the latest committed frames of its
   stream and day, in commit order: all of them, but for those that retention has taken.
   */
  lemma ArchivedFrames(u: Setup, run: seq<Coll>, k: nat, key: D.Key) returns (n: nat)
    requires Run(u, run) && k < |run| && key.stream == u.id
    requires var a := run[k].arch;
             a.process.Running? && a.job.Free? && key in a.disk.files && A.WorkerOf(a, u.world.owner(key.stream)).Idle?
    ensures n <= |Frames(u, run[k].log, key)|
    ensures run[k].arch.disk.files[key].bytes == Concat(Frames(u, run[k].log, key)[n..])
  {
    hide Run, JournalInv, GensInv, FetchesInv, LogInv, RowInv, Frames, R.SysInv, Q.CountInv, Concat, Data;
    RunHolds(u, run, k);
    var a := run[k].arch;
    assert RowsMatch(u, run[k], key);
    FileIsRows(u.world, a, key);
    TextIsConcat(A.RowsOf(a.ledger, key));
    n := |Frames(u, run[k].log, key)| - |A.RowsOf(a.ledger, key)|;
  }
}
