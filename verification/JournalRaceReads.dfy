/** A read that nothing disturbs: step by step it returns what the bounded read of the store returns. */
module JournalRaceReads {
  import opened Wrappers
  import opened FileSystem
  import opened Journal
  import opened JournalReader
  import opened JournalReads
  import opened JournalHistory
  import opened JournalRace

  /** The segments of a directory in ascending order. */
  ghost predicate IsStore(fs: Fs, store: seq<Stored>)
  {
    && WellFormed(fs) && Ascending(store)
    && (forall i | 0 <= i < |store| :: Segment(store[i].number) in fs.dir && Content(fs, store[i].number) == store[i].bytes)
    && forall n: nat | Segment(n) in fs.dir :: Has(store, n)
  }

  ghost predicate Has(store: seq<Stored>, n: nat) { exists i | 0 <= i < |store| :: store[i].number == n }

  /** The read is in segment `i`. `done` are the lines it has taken, and all others follow. */
  ghost predicate ReadingAt(store: seq<Stored>, fs: Fs, lim: Limits, cursor: Option<Cursor>, st: Stage, i: nat,
                            done: seq<Piece>)
  {
    && store != [] && i < |store| && st.At? && st.list == Found(fs) && st.n == store[i].number
    && Segment(st.n) in fs.dir && st.ino == fs.dir[Segment(st.n)]
    && st.off <= |store[i].bytes| && st.pending <= store[i].bytes[st.off..]
    && var (from, offset, refused) := Start(store, cursor);
       && PiecesFrom(store, from, offset) == done + PiecesFrom(store, i, st.off)
       && Taken(done, lim.batch, lim.record, st.records)
       && st.gap == refused && st.next == Reached(done, if refused then None else cursor)
  }

  ghost predicate StageIs(store: seq<Stored>, lim: Limits, x: Race)
  {
    match x.r.stage
    case Idle => true
    case Listed(list) => store != [] && list == Found(x.s.fs)
    case Refused(list) => store != [] && list == Found(x.s.fs) && x.r.cursor.Some? && Start(store, x.r.cursor) == (0, 0, true)
    case At(_, _, _, _, _, _, _, _, _) => exists i, done :: ReadingAt(store, x.s.fs, lim, x.r.cursor, x.r.stage, i, done)
  }

  // ----- lines in the buffer and in the file -----

  /** A whole line in the buffer is the next line of the file. */
  lemma {:induction false} BufferedLine(b: Bytes, off: nat, pending: Bytes)
    requires off <= |b| && pending <= b[off..]
    ensures LineEnd(b, off) >= off + LineEnd(pending, 0)
    ensures Whole(Line(pending)) || |pending| == |b| - off ==> LineEnd(b, off) == off + LineEnd(pending, 0)
    ensures Line(pending) == b[off..off + LineEnd(pending, 0)]
  {
    BufferedEnd(b, off, pending, 0);
  }

  lemma {:induction false} BufferedEnd(b: Bytes, off: nat, pending: Bytes, k: nat)
    requires off <= |b| && pending <= b[off..] && k <= |pending|
    ensures LineEnd(b, off + k) >= off + LineEnd(pending, k)
    ensures (LineEnd(pending, k) > k && pending[LineEnd(pending, k) - 1] == '\n') || |pending| == |b| - off ==>
              LineEnd(b, off + k) == off + LineEnd(pending, k)
    decreases |pending| - k
  {
    if k < |pending| {
      assert pending[k] == b[off..][k] == b[off + k];
      if pending[k] != '\n' {
        BufferedEnd(b, off, pending, k + 1);
      }
    }
  }

  lemma NextLine(store: seq<Stored>, i: nat, off: nat)
    requires i < |store| && off < |store[i].bytes|
    ensures var e := LineEnd(store[i].bytes, off);
            PiecesFrom(store, i, off) == [Piece(store[i].bytes[off..e], Cursor(store[i].number, e))] + PiecesFrom(store, i, e)
  {
    FirstPiece(store[i], off);
    hide Pieces;
  }

  lemma SegmentDone(store: seq<Stored>, i: nat)
    requires i < |store|
    ensures PiecesFrom(store, i, |store[i].bytes|) == PiecesFrom(store, i + 1, 0)
  {}

  // ----- the steps -----

  lemma Opens(store: seq<Stored>, lim: Limits, x: Race, x': Race, i: nat, off: nat, gap: bool)
    requires IsStore(x.s.fs, store) && !x.r.stage.Idle? && x.r.stage.list == Found(x.s.fs) && i < |store|
    requires Start(store, x.r.cursor) == (i, off, gap) && OpenedAt(x, x', store[i].number, off, gap)
    ensures StageIs(store, lim, x')
  {
    var done: seq<Piece> := [];
    assert done + PiecesFrom(store, i, off) == PiecesFrom(store, i, off);
    assert Taken(done, lim.batch, lim.record, []);
    hide PiecesFrom, Start;
    assert ReadingAt(store, x.s.fs, lim, x.r.cursor, x'.r.stage, i, done);
  }

  lemma FirstIsOldest(fs: Fs, store: seq<Stored>, n: nat)
    requires IsStore(fs, store) && Oldest(Found(fs), n)
    ensures store != [] && store[0].number == n
  {
    assert Segment(n) in fs.dir && Has(store, n);
    var i :| 0 <= i < |store| && store[i].number == n;
    assert Segment(store[0].number) in fs.dir && store[0].number in Found(fs);
  }

  lemma FoundStands(fs: Fs, store: seq<Stored>, c: Cursor)
    requires IsStore(fs, store)
    ensures c.segment in Found(fs) && CursorValid(fs, c.segment, c.offset) <==> exists k: nat :: Stands(store, c, k)
  {
    if c.segment in Found(fs) && CursorValid(fs, c.segment, c.offset) {
      assert Has(store, c.segment);
      var k: nat :| k < |store| && store[k].number == c.segment;
      EndsThere(store[k].bytes, c.offset);
      assert Stands(store, c, k);
    }
    if k: nat :| Stands(store, c, k) {
      EndsThere(store[k].bytes, c.offset);
      assert c.segment in Found(fs);
    }
  }

  lemma EndsThere(b: Bytes, off: nat)
    requires off <= |b|
    ensures EndsLine(b[..off]) <==> off == 0 || b[off - 1] == '\n'
  {}

  lemma ChecksWell(store: seq<Stored>, lim: Limits, x: Race, x': Race)
    requires IsStore(x.s.fs, store) && StageIs(store, lim, x) && Check(x, x') && !x'.r.stage.Idle?
    ensures StageIs(store, lim, x')
  {
    var c := x.r.cursor.value;
    FoundStands(x.s.fs, store, c);
    if k: nat :| Stands(store, c, k) {
      StartsAt(store, c, k);
      Opens(store, lim, x, x', k, c.offset, false);
    } else {
      StartsAnew(store, c);
    }
  }

  lemma OldestWell(store: seq<Stored>, lim: Limits, x: Race, x': Race)
    requires IsStore(x.s.fs, store) && StageIs(store, lim, x) && FromOldest(x, x') && !x'.r.stage.Idle?
    ensures StageIs(store, lim, x')
  {
    var n :| Oldest(x.r.stage.list, n) && OpenedAt(x, x', n, 0, x.r.stage.Refused?);
    FirstIsOldest(x.s.fs, store, n);
    Opens(store, lim, x, x', 0, 0, x.r.stage.Refused?);
  }

  lemma FillsWell(store: seq<Stored>, lim: Limits, x: Race, x': Race)
    requires IsStore(x.s.fs, store) && StageIs(store, lim, x) && Fill(x, x')
    ensures StageIs(store, lim, x')
  {
    var i: nat, done :| ReadingAt(store, x.s.fs, lim, x.r.cursor, x.r.stage, i, done);
    hide PiecesFrom, Start, Taken, Reached;
    assert x.s.fs.files[x.r.stage.ino].bytes == store[i].bytes;
    assert ReadingAt(store, x.s.fs, lim, x.r.cursor, x'.r.stage, i, done);
  }

  lemma TakesWell(store: seq<Stored>, lim: Limits, x: Race, x': Race)
    requires IsStore(x.s.fs, store) && StageIs(store, lim, x) && Take(lim, x, x')
    ensures StageIs(store, lim, x')
  {
    var i: nat, done :| ReadingAt(store, x.s.fs, lim, x.r.cursor, x.r.stage, i, done);
    TakesLine(store, lim, x, x', i, done);
  }

  lemma TakesLine(store: seq<Stored>, lim: Limits, x: Race, x': Race, i: nat, done: seq<Piece>)
    requires ReadingAt(store, x.s.fs, lim, x.r.cursor, x.r.stage, i, done) && Take(lim, x, x')
    ensures StageIs(store, lim, x')
  {
    hide PiecesFrom, Start, LineEnd, Texts, Taken;
    var st := x.r.stage;
    var line := Line(st.pending);
    BufferedLine(store[i].bytes, st.off, st.pending);
    var e := LineEnd(store[i].bytes, st.off);
    assert e == st.off + |line|;
    NextLine(store, i, st.off);
    var p := Piece(line, Cursor(st.n, e));
    OneMoreTaken(done, p, lim.batch, lim.record, st.records);
    Shift(done, p, PiecesFrom(store, i, e));
    BufferShrinks(store[i].bytes, st.off, st.pending, |line|);
    assert ReadingAt(store, x.s.fs, lim, x.r.cursor, x'.r.stage, i, done + [p]);
  }

  lemma Shift(done: seq<Piece>, p: Piece, later: seq<Piece>)
    ensures done + ([p] + later) == (done + [p]) + later
  {}

  lemma BufferShrinks(b: Bytes, off: nat, pending: Bytes, k: nat)
    requires off <= |b| && pending <= b[off..] && k <= |pending|
    ensures off + k <= |b| && pending[k..] <= b[off + k..]
  {
    assert b[off..][k..] == b[off + k..];
  }

  lemma NextInStore(fs: Fs, store: seq<Stored>, i: nat, m: nat)
    requires IsStore(fs, store) && i < |store| && NextListed(Found(fs), store[i].number, m)
    ensures i + 1 < |store| && store[i + 1].number == m
  {
    assert Segment(m) in fs.dir && Has(store, m);
    var j :| 0 <= j < |store| && store[j].number == m;
    assert store[i + 1].number in Found(fs);
  }

  lemma AdvancesWell(store: seq<Stored>, lim: Limits, x: Race, x': Race)
    requires IsStore(x.s.fs, store) && StageIs(store, lim, x) && Advance(x, x') && !x'.r.stage.Idle?
    ensures StageIs(store, lim, x')
  {
    var st := x.r.stage;
    var i: nat, done :| ReadingAt(store, x.s.fs, lim, x.r.cursor, st, i, done);
    var m :| NextListed(st.list, st.n, m)
             && x' == x.(r := x.r.(stage :=
                  if Segment(m) !in x.s.fs.dir then Idle
                  else st.(n := m, ino := x.s.fs.dir[Segment(m)], off := 0,
                           start := if st.start == Cursor(st.n, 0) && st.off == 0 then Cursor(m, 0) else st.start)));
    NextInStore(x.s.fs, store, i, m);
    assert st.off == |store[i].bytes|;
    SegmentDone(store, i);
    hide PiecesFrom, Start, Taken, Reached;
    assert ReadingAt(store, x.s.fs, lim, x.r.cursor, x'.r.stage, i + 1, done);
  }

  // ----- the end -----

  lemma ReturnsWell(store: seq<Stored>, lim: Limits, x: Race, x': Race, b: Batch)
    returns (done: seq<Piece>, rest: seq<Piece>)
    requires IsStore(x.s.fs, store) && StageIs(store, lim, x) && Return(lim, x, x')
    requires b == Batch(x.r.stage.records, x.r.stage.next, x.r.stage.gap)
    ensures Exact(store, x.r.cursor, lim.batch, lim.record, b, done, rest)
  {
    hide PiecesFrom, Start, Taken, Reached, LineEnd;
    var i: nat;
    i, done :| ReadingAt(store, x.s.fs, lim, x.r.cursor, x.r.stage, i, done);
    var st := x.r.stage;
    rest := PiecesFrom(store, i, st.off);
    BufferedLine(store[i].bytes, st.off, st.pending);
    assert x.s.fs.files[st.ino].bytes == store[i].bytes;
    if st.pending == [] {
      LastDone(x.s.fs, store, i);
    } else {
      NextLine(store, i, st.off);
    }
  }

  lemma LastDone(fs: Fs, store: seq<Stored>, i: nat)
    requires IsStore(fs, store) && i < |store|
    ensures (forall k | k in Found(fs) :: k <= store[i].number) ==> PiecesFrom(store, i, |store[i].bytes|) == []
  {
    if i + 1 < |store| {
      assert store[i + 1].number in Found(fs) && store[i].number < store[i + 1].number;
    }
  }

  lemma SkipsWell(store: seq<Stored>, lim: Limits, x: Race, x': Race, b: Batch)
    returns (done: seq<Piece>, rest: seq<Piece>)
    requires IsStore(x.s.fs, store) && StageIs(store, lim, x) && Skip(lim, x, x')
    requires b == Batch(x.r.stage.records, x'.r.cursor, true)
    ensures Exact(store, x.r.cursor, lim.batch, lim.record, b, done, rest)
  {
    hide PiecesFrom, Start, Taken, Reached, LineEnd;
    var i: nat;
    i, done :| ReadingAt(store, x.s.fs, lim, x.r.cursor, x.r.stage, i, done);
    var st := x.r.stage;
    rest := PiecesFrom(store, i, st.off);
    BufferedLine(store[i].bytes, st.off, st.pending);
    assert x.s.fs.files[st.ino].bytes == store[i].bytes;
    NextLine(store, i, st.off);
  }

  // ----- the read -----

  /** The reader's steps from one state to the one in which it returns, while the journal stays as it is. */
  ghost predicate Undisturbed(lim: Limits, run: seq<Race>)
  {
    && run != [] && run[0].r.stage.Idle?
    && (forall i | 0 <= i < |run| - 1 :: Reads(lim, run[i], run[i + 1]))
    && (forall i | 0 < i < |run| :: !run[i].r.stage.Idle?)
  }

  lemma StepsWell(store: seq<Stored>, lim: Limits, x: Race, x': Race)
    requires IsStore(x.s.fs, store) && StageIs(store, lim, x) && Reads(lim, x, x') && !x'.r.stage.Idle?
    ensures x'.s == x.s && x'.r.cursor == x.r.cursor && StageIs(store, lim, x')
  {
    hide StageIs, Check, FromOldest, Fill, Take, Advance, IsStore;
    SameJournal(lim, x, x');
    if Check(x, x') { ChecksWell(store, lim, x, x'); }
    else if FromOldest(x, x') { OldestWell(store, lim, x, x'); }
    else if Fill(x, x') { FillsWell(store, lim, x, x'); }
    else if Take(lim, x, x') { TakesWell(store, lim, x, x'); }
    else if Advance(x, x') { AdvancesWell(store, lim, x, x'); }
    else { ListsWell(store, lim, x, x'); }
  }

  lemma SameJournal(lim: Limits, x: Race, x': Race)
    requires Reads(lim, x, x') && !x'.r.stage.Idle?
    ensures x'.s == x.s && x'.r.cursor == x.r.cursor
  {}

  lemma ListsWell(store: seq<Stored>, lim: Limits, x: Race, x': Race)
    requires IsStore(x.s.fs, store) && List(x, x') && Found(x.s.fs) != {}
    ensures StageIs(store, lim, x')
  {
    var n :| n in Found(x.s.fs);
    assert Segment(n) in x.s.fs.dir && Has(store, n);
  }

  lemma {:induction false} UndisturbedStage(store: seq<Stored>, lim: Limits, run: seq<Race>, k: nat)
    requires Undisturbed(lim, run) && IsStore(run[0].s.fs, store) && k < |run|
    ensures run[k].s == run[0].s && run[k].r.cursor == run[0].r.cursor && StageIs(store, lim, run[k])
  {
    hide StageIs, Reads, IsStore;
    if k > 0 {
      UndisturbedStage(store, lim, run, k - 1);
      assert Reads(lim, run[k - 1], run[k - 1 + 1]);
      StepsWell(store, lim, run[k - 1], run[k]);
    } else {
      IdleStage(store, lim, run[0]);
    }
  }

  lemma IdleStage(store: seq<Stored>, lim: Limits, x: Race)
    requires x.r.stage.Idle?
    ensures StageIs(store, lim, x)
  {}

  /**
   A read of the racing machine that nothing disturbs returns the batch that `ReadBatch` returns for the store, the
   cursor and the limits; `OneResult` says that there is only one.
   */
  lemma UndisturbedRead(store: seq<Stored>, lim: Limits, run: seq<Race>, x: Race, b: Batch)
    returns (done: seq<Piece>, rest: seq<Piece>)
    requires Undisturbed(lim, run) && IsStore(run[0].s.fs, store) && Delivers(lim, run[|run| - 1], x, b)
    ensures Exact(store, run[0].r.cursor, lim.batch, lim.record, b, done, rest)
  {
    var y := run[|run| - 1];
    UndisturbedStage(store, lim, run, |run| - 1);
    hide StageIs, IsStore, Return, Skip, Exact, Undisturbed;
    if Return(lim, y, x) && b == Batch(y.r.stage.records, y.r.stage.next, y.r.stage.gap) {
      done, rest := ReturnsWell(store, lim, y, x, b);
    } else if Skip(lim, y, x) && b == Batch(y.r.stage.records, x.r.cursor, true) {
      done, rest := SkipsWell(store, lim, y, x, b);
    } else {
      done, rest := [], [];
      NothingThere(y.s.fs, store);
      EmptyExact(y.r.cursor, lim.batch, lim.record);
    }
  }

  lemma NothingThere(fs: Fs, store: seq<Stored>)
    requires IsStore(fs, store)
    ensures store != [] ==> Found(fs) != {}
  {
    if store != [] {
      assert store[0].number in Found(fs);
    }
  }
}
