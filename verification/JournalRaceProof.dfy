/** Every step of the race keeps the reader's picture right. */
module JournalRaceProof {
  import opened FileSystem
  import opened CrashViews
  import opened Journal
  import opened JournalSegments
  import opened JournalStorage
  import opened JournalStorageSteps
  import opened JournalLimits
  import opened JournalOrder
  import opened JournalHistory
  import opened JournalSteadiness
  import opened JournalReader
  import opened JournalRace
  import opened JournalRaceSafety

  // ----- the writer moves -----

  /** What a step of the writer leaves of everything the reader relies on. */
  ghost predicate Quiet(s: Sys, last: map<nat, Bytes>, s': Sys, last': map<nat, Bytes>)
  {
    && Extends(s, s') && Grows(s, s')
    && forall n | Superseded(s, n) :: (n in last' <==> n in last) && (n in last ==> last'[n] == last[n])
  }

  lemma WriterQuiet(cfg: Config, s: Sys, last: map<nat, Bytes>, s': Sys)
    requires StorageInv(s) && WellFormed(s.fs) && LastOk(s, last) && Orderly(cfg, s)
    requires Works(cfg, s, s') || PowerLoss(s, s')
    ensures StorageInv(s') && Orderly(cfg, s') && OrderInv(s') && WellFormed(s'.fs) && LastOk(s', Recorded(last, s'.fs))
    ensures Quiet(s, last, s', Recorded(last, s'.fs))
    ensures Works(cfg, s, s') ==> Steady(s, s')
  {
    hide StorageInv, Works, PowerLoss, LastOk, Extends, Grows, Finds, Steady, Core, Recorded, OrderInv, Trimmed, AllWithin;
    WorksOrLoss(cfg, s, s');
    StepOrderly(cfg, s, s');
    StepKeepsStorage(cfg, s, s');
    StepExtends(cfg, s, s');
    if Works(cfg, s, s') { WorkKeeps(cfg, s, s'); } else { LossKeeps(cfg, s, s'); }
    StorageCore(s);
    StorageCore(s');
    LastKept(s, last, s');
    forall n | Superseded(s, n)
      ensures (n in Recorded(last, s'.fs) <==> n in last) && (n in last ==> Recorded(last, s'.fs)[n] == last[n])
    {
      LastFinal(s, last, s', n);
    }
  }

  lemma WorksOrLoss(cfg: Config, s: Sys, s': Sys)
    requires Works(cfg, s, s') || PowerLoss(s, s')
    ensures Next(cfg, s, s')
  {
    hide Call, Fault, Exit, PowerLoss, OpenCall, AppendCall, Decide;
  }

  lemma ExtendsKeys(s: Sys, s': Sys)
    requires Extends(s, s')
    ensures forall n | n in s.hist :: n in s'.hist
  {}

  lemma QuietListing(s: Sys, last: map<nat, Bytes>, s': Sys, last': map<nat, Bytes>, list: set<nat>)
    requires Quiet(s, last, s', last') && Listing(s, list)
    ensures Listing(s', list)
  {
    hide Extends;
    assert forall n | n in s.hist :: n in s'.hist by { ExtendsKeys(s, s'); }
    forall a, b, n | a in list && b in list && a < n < b && n in s'.hist && n !in list && Wrote(s', a)
      ensures s'.hist[n] == []
    {
      assert Superseded(s, a) && Superseded(s, n);
      assert s'.hist[a] == s.hist[a];
      assert n in s.hist ==> s'.hist[n] == s.hist[n];
    }
  }

  lemma QuietSpans(s: Sys, last: map<nat, Bytes>, s': Sys, last': map<nat, Bytes>, a: Cursor, c: Cursor, text: Bytes)
    requires Quiet(s, last, s', last') && Spans(s.hist, last, a, c, text)
    ensures Spans(s'.hist, last', a, c, text)
  {
    hide Grows;
    assert forall n: nat | n < c.segment :: Superseded(s, n);
    SpansStay(s, last, s', last', a, c, text);
  }

  lemma QuietPrelude(s: Sys, last: map<nat, Bytes>, s': Sys, last': map<nat, Bytes>, base: Cursor, p: Prelude)
    requires Quiet(s, last, s', last') && PreludeOk(s.hist, last, base, p)
    ensures PreludeOk(s'.hist, last', base, p)
  {
    hide Spans, Quiet, OneLine;
    if p.Prelude? {
      QuietSpans(s, last, s', last', p.from, p.to, p.text);
      QuietSpans(s, last, s', last', p.to, base, p.line);
    }
  }

  lemma QuietFile(x: Race, x': Race, st: Stage)
    requires Quiet(x.s, x.last, x'.s, x'.last) && Steady(x.s, x'.s) && st.At?
    requires Listing(x.s, st.list) && FileHeld(x, st.list, st.n, st.ino, st.off, st.pending)
    ensures FileHeld(x', st.list, st.n, st.ino, st.off, st.pending)
  {
    assert Owned(x'.s, st.n, st.ino);
    if b :| b in st.list && st.n < b {
      assert Superseded(x.s, st.n);
    }
  }

  lemma QuietProgress(x: Race, x': Race, st: Stage)
    requires Quiet(x.s, x.last, x'.s, x'.last) && st.At? && x'.r.cursor == x.r.cursor
    requires Listing(x.s, st.list) && Progressed(x, st)
    ensures Progressed(x', st)
  {
    QuietSpans(x.s, x.last, x'.s, x'.last, st.start, Cursor(st.n, st.off), st.records);
    if st.records != [] {
      QuietSpans(x.s, x.last, x'.s, x'.last, st.start, st.next.value, st.records);
    }
    hide Spans, Grows;
  }

  lemma WriterKeeps(cfg: Config, x: Race, x': Race)
    requires RaceInv(x) && Orderly(cfg, x.s) && WriterStep(cfg, x, x')
    ensures RaceInv(x') && Orderly(cfg, x'.s)
  {
    hide StorageInv, Orderly, OrderInv, Works, PowerLoss, LastOk, Listing, FileHeld, Progressed, Spans, Quiet, Steady, Recorded;
    WriterQuiet(cfg, x.s, x.last, x'.s);
    if x.r.cursor.Some? {
      QuietSpans(x.s, x.last, x'.s, x'.last, x.r.base, x.r.cursor.value, x.r.got);
    }
    QuietPrelude(x.s, x.last, x'.s, x'.last, x.r.base, x.r.prelude);
    if !x'.r.stage.Idle? {
      QuietListing(x.s, x.last, x'.s, x'.last, x.r.stage.list);
      if x.r.stage.At? {
        QuietFile(x, x', x.r.stage);
        QuietProgress(x, x', x.r.stage);
      }
    }
  }

  // ----- the reader moves -----

  lemma ListKeeps(x: Race, x': Race)
    requires RaceInv(x) && List(x, x')
    ensures RaceInv(x')
  {
    StorageCore(x.s);
    FoundListing(x.s);
    hide OrderInv, StorageInv, LastOk, Spans, Listing, Core;
  }

  lemma FoundListing(s: Sys)
    requires Core(s) && OldestFirst(s)
    ensures Listing(s, Found(s.fs))
  {
    forall n | n in Found(s.fs) ensures n in s.hist {
      InSight(s, n);
    }
    forall a, b, n | a in Found(s.fs) && b in Found(s.fs) && a < n < b && n in s.hist && n !in Found(s.fs) && Wrote(s, a)
      ensures s.hist[n] == []
    {
      assert Holds(s.fs, a, s.fs.dir[Segment(a)]);
      assert n !in s.pruned;
      assert Segment(n) !in s.fs.dir;
    }
  }

  /** Opening a listed segment that is still there. */
  lemma OpenHeld(x: Race, list: set<nat>, n: nat, off: nat)
    requires Core(x.s) && LastOk(x.s, x.last) && Listing(x.s, list) && n in list
    requires Segment(n) in x.s.fs.dir && off <= |Content(x.s.fs, n)|
    ensures FileHeld(x, list, n, x.s.fs.dir[Segment(n)], off, [])
    ensures n in x.s.hist && off <= |x.s.hist[n]|
  {
    var i := x.s.fs.dir[Segment(n)];
    assert Holds(x.s.fs, n, i);
    HeldIsOwned(x.s, n, i);
    InSight(x.s, n);
    assert x.s.hist[n][off..off] == [];
    if b :| b in list && n < b {
      assert Settled(x.s.fs.files[i]);
    }
  }

  lemma SameHeld(x: Race, x': Race, list: set<nat>, n: nat, i: Ino, off: nat)
    requires FileHeld(x, list, n, i, off, []) && x'.s == x.s && x'.last == x.last
    ensures FileHeld(x', list, n, i, off, [])
  {}

  lemma OpenedKeeps(x: Race, x': Race, n: nat, off: nat, gap: bool)
    requires RaceInv(x) && (x.r.stage.Listed? || x.r.stage.Refused?) && n in x.r.stage.list
    requires OpenedAt(x, x', n, off, gap)
    requires Segment(n) in x.s.fs.dir ==> off <= |Content(x.s.fs, n)|
    requires !gap && x.r.cursor.Some? ==> Cursor(n, off) == x.r.cursor.value
    ensures RaceInv(x')
  {
    hide Core, StorageInv, LastOk, Listing, Spans, FileHeld;
    if Segment(n) in x.s.fs.dir {
      StorageCore(x.s);
      OpenHeld(x, x.r.stage.list, n, off);
      SpansHere(x.s.hist, x.last, Cursor(n, off));
      SameHeld(x, x', x.r.stage.list, n, x.s.fs.dir[Segment(n)], off);
    }
  }

  lemma CheckKeeps(x: Race, x': Race)
    requires RaceInv(x) && (Check(x, x') || FromOldest(x, x'))
    ensures RaceInv(x')
  {
    hide StorageInv, LastOk, Listing, Spans;
    if FromOldest(x, x') {
      var n :| Oldest(x.r.stage.list, n) && OpenedAt(x, x', n, 0, x.r.stage.Refused?);
      OpenedKeeps(x, x', n, 0, x.r.stage.Refused?);
    } else {
      var c := x.r.cursor.value;
      if c.segment in x.r.stage.list && Segment(c.segment) in x.s.fs.dir && CursorValid(x.s.fs, c.segment, c.offset) {
        OpenedKeeps(x, x', c.segment, c.offset, false);
      }
    }
  }

  lemma FillKeeps(x: Race, x': Race)
    requires RaceInv(x) && Fill(x, x')
    ensures RaceInv(x')
  {
    hide StorageInv, LastOk, Listing, FileHeld, Progressed, Spans;
    var st := x.r.stage;
    var bytes := x.s.fs.files[st.ino].bytes;
    var k :| st.off + |st.pending| < k <= |bytes|
             && x'.r.stage == st.(pending := st.pending + bytes[st.off + |st.pending|..k]);
    FilledFile(x, x', st.list, st.n, st.ino, st.off, st.pending, k);
    SameProgress(x, x', st, x'.r.stage.pending);
  }

  lemma SameProgress(x: Race, x': Race, st: Stage, pending: Bytes)
    requires st.At? && Progressed(x, st) && x'.s == x.s && x'.last == x.last && x'.r.cursor == x.r.cursor
    ensures Progressed(x', st.(pending := pending))
  {
    hide Spans;
  }

  lemma FilledFile(x: Race, x': Race, list: set<nat>, n: nat, i: Ino, off: nat, pending: Bytes, k: nat)
    requires FileHeld(x, list, n, i, off, pending) && x'.s == x.s && x'.last == x.last
    requires off + |pending| < k <= |x.s.fs.files[i].bytes|
    ensures FileHeld(x', list, n, i, off, pending + x.s.fs.files[i].bytes[off + |pending|..k])
  {
    var bytes := x.s.fs.files[i].bytes;
    assert bytes <= Reach(x.s.fs.files[i]);
    FilledText(x.s.hist[n], bytes, off, pending, k);
    assert Owned(x'.s, n, i);
    hide Owned;
  }

  lemma FilledText(text: Bytes, bytes: Bytes, off: nat, pending: Bytes, k: nat)
    requires bytes <= text && off + |pending| < k <= |bytes| && text[off..off + |pending|] == pending
    ensures text[off..k] == pending + bytes[off + |pending|..k]
  {}

  lemma TakeKeeps(lim: Limits, x: Race, x': Race)
    requires RaceInv(x) && Take(lim, x, x')
    ensures RaceInv(x')
  {
    hide StorageInv, LastOk, Listing, Spans, FileHeld;
    var st := x.r.stage;
    var line := Line(st.pending);
    TakenSpans(x, st, line);
    TakenFile(x, x', st.list, st.n, st.ino, st.off, st.pending, line);
  }

  lemma TakenFile(x: Race, x': Race, list: set<nat>, n: nat, i: Ino, off: nat, pending: Bytes, line: Bytes)
    requires FileHeld(x, list, n, i, off, pending) && x'.s == x.s && x'.last == x.last && line <= pending
    ensures FileHeld(x', list, n, i, off + |line|, pending[|line|..])
  {
    assert Owned(x'.s, n, i);
    hide Owned;
    assert pending[|line|..] == x.s.hist[n][off..off + |pending|][|line|..];
  }

  lemma TakenSpans(x: Race, st: Stage, line: Bytes)
    requires st.At? && FileHeld(x, st.list, st.n, st.ino, st.off, st.pending) && line <= st.pending
    requires WellFormed(x.s.fs) && LastOk(x.s, x.last)
    requires Spans(x.s.hist, x.last, st.start, Cursor(st.n, st.off), st.records)
    ensures Spans(x.s.hist, x.last, st.start, Cursor(st.n, st.off + |line|), st.records + line)
  {
    var text := x.s.hist[st.n];
    assert text[st.off..st.off + |line|] == line;
    assert Spans(x.s.hist, x.last, Cursor(st.n, st.off), Cursor(st.n, st.off + |line|), line);
    SpansJoin(x.s.hist, x.last, st.start, Cursor(st.n, st.off), Cursor(st.n, st.off + |line|), st.records, line);
  }

  lemma AdvanceKeeps(x: Race, x': Race)
    requires RaceInv(x) && Advance(x, x')
    ensures RaceInv(x')
  {
    hide StorageInv, LastOk, Listing, Spans, FileHeld, Core, Progressed;
    var st := x.r.stage;
    var m :| NextListed(st.list, st.n, m)
             && x'.r.stage == if Segment(m) !in x.s.fs.dir then Idle
                else st.(n := m, ino := x.s.fs.dir[Segment(m)], off := 0,
                         start := if st.start == Cursor(st.n, 0) && st.off == 0 then Cursor(m, 0) else st.start);
    if Segment(m) in x.s.fs.dir {
      StorageCore(x.s);
      OpenHeld(x, st.list, m, 0);
      AdvancedProgress(x, x', m);
      SameHeld(x, x', st.list, m, x.s.fs.dir[Segment(m)], 0);
    }
  }

  lemma AdvancedProgress(x: Race, x': Race, m: nat)
    requires WellFormed(x.s.fs) && LastOk(x.s, x.last) && CursorOk(x) && StageOk(x) && x.r.stage.At?
    requires x.r.stage.pending == [] && Exhausted(x) && NextListed(x.r.stage.list, x.r.stage.n, m)
    requires var st := x.r.stage;
             && x'.s == x.s && x'.last == x.last && x'.r.cursor == x.r.cursor && x'.r.stage.At?
             && x'.r.stage == st.(n := m, ino := x'.r.stage.ino, off := 0,
                  start := if st.start == Cursor(st.n, 0) && st.off == 0 then Cursor(m, 0) else st.start)
    ensures Progressed(x', x'.r.stage)
  {
    var st := x.r.stage;
    if st.start == Cursor(st.n, 0) && st.off == 0 {
      SpansHere(x.s.hist, x.last, Cursor(m, 0));
      assert st.records == [];
    } else {
      var a := st.start.segment;
      assert Wrote(x.s, a);
      forall k | st.n < k < m && k in x.last ensures x.last[k] == [] {
        assert k in x.s.hist && k !in st.list && a < k < m;
        assert x.s.hist[k] == [];
      }
      SpansNext(x.s.hist, x.last, st.start, st.n, st.off, m, st.records);
    }
  }

  lemma ReturnKeeps(lim: Limits, x: Race, x': Race)
    requires RaceInv(x) && Return(lim, x, x')
    ensures RaceInv(x')
  {
    hide StorageInv, LastOk, Listing, Spans, FileHeld;
    var st := x.r.stage;
    if !st.gap && x.r.cursor.Some? {
      if st.records == [] {
        assert x.r.got + [] == x.r.got;
      } else {
        var c := x.r.cursor.value;
        LastIsPrefix(x.s, x.last, c.segment);
        SpansJoin(x.s.hist, x.last, x.r.base, c, st.next.value, x.r.got, st.records);
      }
    }
  }

  lemma LastIsPrefix(s: Sys, last: map<nat, Bytes>, n: nat)
    requires WellFormed(s.fs) && LastOk(s, last)
    ensures n in last ==> n in s.hist && last[n] <= s.hist[n]
  {}

  lemma SkipKeeps(lim: Limits, x: Race, x': Race)
    requires RaceInv(x) && Skip(lim, x, x')
    ensures RaceInv(x')
  {
    hide StorageInv, LastOk, Listing, Spans, FileHeld, OrderInv;
    var st := x.r.stage;
    HeldText(x, st);
    SkippedLine(x, st);
    SpansHere(x.s.hist, x.last, Cursor(st.n, st.off + |Line(st.pending)|));
  }

  lemma SkippedLine(x: Race, st: Stage)
    requires st.At? && FileHeld(x, st.list, st.n, st.ino, st.off, st.pending)
    ensures var line := Line(st.pending);
            OneLine(line) && Spans(x.s.hist, x.last, Cursor(st.n, st.off), Cursor(st.n, st.off + |line|), line)
  {
    var line := Line(st.pending);
    assert line == st.pending[..|line|] == x.s.hist[st.n][st.off..st.off + |line|];
  }

  lemma HeldText(x: Race, st: Stage)
    requires st.At? && FileHeld(x, st.list, st.n, st.ino, st.off, st.pending)
    ensures st.n in x.s.hist && st.off + |st.pending| <= |x.s.hist[st.n]|
  {}

  lemma ReaderOnly(cfg: Config, lim: Limits, x: Race, x': Race)
    requires RaceNext(cfg, lim, x, x') && !WriterStep(cfg, x, x')
    ensures x'.s == x.s && x'.last == x.last
  {}

  lemma RaceKeeps(cfg: Config, lim: Limits, x: Race, x': Race)
    requires RaceInv(x) && Orderly(cfg, x.s) && RaceNext(cfg, lim, x, x')
    ensures RaceInv(x') && Orderly(cfg, x'.s)
  {
    if !WriterStep(cfg, x, x') { ReaderOnly(cfg, lim, x, x'); }
    hide Orderly, OrderInv, WriterStep, List, Check, FromOldest, Fill, Take, Advance, Return, Skip, StorageInv, LastOk;
    if WriterStep(cfg, x, x') { WriterKeeps(cfg, x, x');
    } else if List(x, x') { ListKeeps(x, x');
    } else if Check(x, x') || FromOldest(x, x') { CheckKeeps(x, x');
    } else if Fill(x, x') { FillKeeps(x, x');
    } else if Take(lim, x, x') { TakeKeeps(lim, x, x');
    } else if Advance(x, x') { AdvanceKeeps(x, x');
    } else if Return(lim, x, x') { ReturnKeeps(lim, x, x');
    } else if Skip(lim, x, x') { SkipKeeps(lim, x, x');
    } else { assert Abort(x, x'); }
  }

  lemma RaceInitHolds(cfg: Config, x: Race)
    requires RaceInit(cfg, x)
    ensures RaceInv(x) && Orderly(cfg, x.s)
  {
    InitOrder(x.s);
    InitStorageHolds(x.s);
    StorageCore(x.s);
    InitSight(x.s);
    hide StorageInv, InitStorage, LastOk, Core;
    InitLast(x.s);
  }

  lemma InitSight(s: Sys)
    requires InitStorage(s)
    ensures s.fs.alt == {} && forall n | Wrote(s, n) :: Segment(n) in s.fs.dir
  {
    forall n | Wrote(s, n) ensures Segment(n) in s.fs.dir {
      assert n in Found(s.fs);
    }
  }

  lemma InitLast(s: Sys)
    requires Core(s) && s.fs.alt == {} && forall n | Wrote(s, n) :: Segment(n) in s.fs.dir
    ensures LastOk(s, Recorded(map[], s.fs))
  {
    var last := Recorded(map[], s.fs);
    forall n: nat ensures n in last <==> Segment(n) in s.fs.dir {
      RecordedAt(map[], s.fs, n);
    }
    forall n | n in last
      ensures n in s.hist && n in s.acked && last[n] <= s.hist[n] && s.acked[n] <= |last[n]|
      ensures last[n] == Content(s.fs, n)
    {
      RecordedAt(map[], s.fs, n);
      InSight(s, n);
    }
    hide Core, Recorded;
  }

  lemma {:induction false} RaceHolds(cfg: Config, lim: Limits, run: seq<Race>, k: nat)
    requires RaceRun(cfg, lim, run) && k < |run|
    ensures RaceInv(run[k]) && Orderly(cfg, run[k].s)
  {
    hide RaceNext, RaceInit, RaceInv, Orderly;
    if k == 0 {
      RaceInitHolds(cfg, run[0]);
    } else {
      RaceHolds(cfg, lim, run, k - 1);
      RaceKeeps(cfg, lim, run[k - 1], run[k]);
    }
  }

  // ----- what it means -----

  predicate LongSkip(lim: Limits, p: Prelude) { p.Prelude? ==> |p.line| > lim.record }

  /** Only a line that is too long for the caller is skipped. */
  lemma {:induction false} SkipsAreLong(cfg: Config, lim: Limits, run: seq<Race>, k: nat)
    requires RaceRun(cfg, lim, run) && k < |run|
    ensures LongSkip(lim, run[k].r.prelude)
  {
    hide WriterStep, Found;
    if k > 0 {
      SkipsAreLong(cfg, lim, run, k - 1);
      assert RaceNext(cfg, lim, run[k - 1], run[k]);
      StepSkipsLong(cfg, lim, run[k - 1], run[k]);
    }
  }

  lemma StepSkipsLong(cfg: Config, lim: Limits, x: Race, x': Race)
    requires RaceNext(cfg, lim, x, x') && LongSkip(lim, x.r.prelude)
    ensures LongSkip(lim, x'.r.prelude)
  {}

  /**
   At every moment of every race, the records that the caller got since the last gap are the journal's text from
   the start of the first of them to the caller's cursor: none is missing, repeated or out of order. If the gap is a
   skipped line, that is one line too long for the caller, and the records that came with it are the text in front.
   */
  lemma ContiguousRecords(cfg: Config, lim: Limits, run: seq<Race>, k: nat)
    requires RaceRun(cfg, lim, run) && k < |run|
    ensures var x := run[k];
            && (x.r.cursor.Some? ==> Spans(x.s.hist, x.last, x.r.base, x.r.cursor.value, x.r.got))
            && PreludeOk(x.s.hist, x.last, x.r.base, x.r.prelude) && LongSkip(lim, x.r.prelude)
  {
    RaceHolds(cfg, lim, run, k);
    SkipsAreLong(cfg, lim, run, k);
    hide RaceRun, Spans, PreludeOk, LongSkip;
  }

  /** That text leaves out nothing that an append acknowledged in a segment the reader went past. */
  lemma NothingPassedOver(cfg: Config, lim: Limits, run: seq<Race>, k: nat, n: nat)
    requires RaceRun(cfg, lim, run) && k < |run| && Acknowledged(run[k].s, n)
    ensures n in run[k].last && n in run[k].s.hist && run[k].s.acked[n] <= |run[k].s.hist[n]|
    ensures run[k].s.hist[n][..run[k].s.acked[n]] <= run[k].last[n] <= run[k].s.hist[n]
  {
    RaceHolds(cfg, lim, run, k);
    hide RaceRun, StorageInv, CursorOk, StageOk, LastOk;
    AcknowledgedThere(run[k].s, n);
    LastOfWritten(run[k].s, run[k].last, n);
  }

  lemma LastOfWritten(s: Sys, last: map<nat, Bytes>, n: nat)
    requires WellFormed(s.fs) && LastOk(s, last) && Acknowledged(s, n) && n in s.hist && s.acked[n] <= |s.hist[n]|
    ensures n in last && s.hist[n][..s.acked[n]] <= last[n] <= s.hist[n]
  {
    assert Wrote(s, n);
  }
}
