/**
 A reader that races the writer. The reader lists the directory, opens files and reads them piece by piece
 through a buffer, one step at a time; between any two of its steps the writer and its crashes may do anything.
 */
module JournalRace {
  import opened Wrappers
  import opened FileSystem
  import opened Journal
  import opened JournalReader
  import opened JournalHistory
  import opened JournalStorage
  import opened JournalLimits
  import opened JournalSteadiness

  datatype Limits = Limits(batch: nat, record: nat)

  /**
   Where a read is. `pending` was read from the open file behind `off` and is not consumed yet, `start` is where
   the read began and `next` the cursor it would return.
   */
  datatype Stage =
    | Idle
    | Listed(list: set<nat>)
    | Refused(list: set<nat>)
    | At(list: set<nat>, n: nat, ino: Ino, off: nat, pending: Bytes,
         records: Bytes, start: Cursor, gap: bool, next: Option<Cursor>)

  /** Records that came in one batch with the skip of the oversized line behind them. */
  datatype Prelude =
    | NoPrelude
    | Prelude(from: Cursor, to: Cursor, text: Bytes, line: Bytes)

  /**
   A caller that always passes the last cursor it got. `got` are the records since `base`, the last gap; if that gap
   is a skipped line, `prelude` are the records that came with it.
   */
  datatype Reader = Reader(cursor: Option<Cursor>, stage: Stage, base: Cursor, got: Bytes, prelude: Prelude)

  /** `last` is what each segment held when it was last in the directory. */
  datatype Race = Race(s: Sys, last: map<nat, Bytes>, r: Reader)

  function Recorded(last: map<nat, Bytes>, fs: Fs): map<nat, Bytes>
    requires WellFormed(fs)
  {
    last + map n | n in Found(fs) :: Content(fs, n)
  }

  /** The writer's side moves; a machine crash ends the read. */
  ghost predicate WriterStep(cfg: Config, x: Race, x': Race)
  {
    && WellFormed(x'.s.fs) && x'.last == Recorded(x.last, x'.s.fs)
    && (|| (Works(cfg, x.s, x'.s) && x'.r == x.r)
        || (PowerLoss(x.s, x'.s) && x'.r == x.r.(stage := Idle)))
  }

  /** `discover_segments` */
  ghost predicate List(x: Race, x': Race)
  {
    && x.r.stage.Idle?
    && x' == x.(r := if Found(x.s.fs) == {} then x.r.(cursor := None, got := [], prelude := NoPrelude)
                    else x.r.(stage := Listed(Found(x.s.fs))))
  }

  ghost predicate OpenedAt(x: Race, x': Race, n: nat, off: nat, gap: bool)
    requires WellFormed(x.s.fs) && !x.r.stage.Idle?
  {
    x' == x.(r := x.r.(stage :=
      if Segment(n) !in x.s.fs.dir then Idle
      else At(x.r.stage.list, n, x.s.fs.dir[Segment(n)], off, [], [], Cursor(n, off), gap,
              if gap then None else x.r.cursor)))
  }

  /** The cursor's segment is opened and the cursor checked; a segment that is gone by now is an error. */
  ghost predicate Check(x: Race, x': Race)
  {
    && x.r.stage.Listed? && x.r.cursor.Some? && WellFormed(x.s.fs)
    && var c := x.r.cursor.value;
       if c.segment in x.r.stage.list && Segment(c.segment) !in x.s.fs.dir then x' == x.(r := x.r.(stage := Idle))
       else if c.segment in x.r.stage.list && CursorValid(x.s.fs, c.segment, c.offset)
       then OpenedAt(x, x', c.segment, c.offset, false)
       else x' == x.(r := x.r.(stage := Refused(x.r.stage.list)))
  }

  /** Without an acceptable cursor the read starts at the oldest segment. */
  ghost predicate FromOldest(x: Race, x': Race)
  {
    && WellFormed(x.s.fs)
    && (x.r.stage.Refused? || (x.r.stage.Listed? && x.r.cursor.None?))
    && exists n :: Oldest(x.r.stage.list, n) && OpenedAt(x, x', n, 0, x.r.stage.Refused?)
  }

  predicate Exhausted(x: Race)
    requires x.r.stage.At?
  {
    x.r.stage.ino < |x.s.fs.files| && |x.s.fs.files[x.r.stage.ino].bytes| <= x.r.stage.off + |x.r.stage.pending|
  }

  /** One read from the open file into the buffer. */
  ghost predicate Fill(x: Race, x': Race)
  {
    && x.r.stage.At? && !Exhausted(x) && x.r.stage.ino < |x.s.fs.files|
    && var st := x.r.stage;
       var p := st.off + |st.pending|;
       exists k | p < k <= |x.s.fs.files[st.ino].bytes| ::
         x' == x.(r := x.r.(stage := st.(pending := st.pending + x.s.fs.files[st.ino].bytes[p..k])))
  }

  predicate Whole(line: Bytes) { line != [] && line[|line| - 1] == '\n' }

  function Line(pending: Bytes): Bytes { pending[..LineEnd(pending, 0)] }

  /** The next line is returned. */
  ghost predicate Take(lim: Limits, x: Race, x': Race)
  {
    && x.r.stage.At?
    && var st := x.r.stage;
       var line := Line(st.pending);
       && Whole(line) && |line| <= lim.record && |st.records| + |line| <= lim.batch
       && x' == x.(r := x.r.(stage := st.(off := st.off + |line|, pending := st.pending[|line|..],
                                          records := st.records + line, next := Some(Cursor(st.n, st.off + |line|)))))
  }

  ghost predicate NextListed(list: set<nat>, n: nat, m: nat)
  {
    m in list && n < m && forall k | k in list && n < k :: m <= k
  }

  /** The segment is read to its end and the next one opened. */
  ghost predicate Advance(x: Race, x': Race)
  {
    && x.r.stage.At? && WellFormed(x.s.fs) && x.r.stage.pending == [] && Exhausted(x)
    && var st := x.r.stage;
       exists m :: NextListed(st.list, st.n, m)
         && x' == x.(r := x.r.(stage :=
              if Segment(m) !in x.s.fs.dir then Idle
              else st.(n := m, ino := x.s.fs.dir[Segment(m)], off := 0,
                       start := if st.start == Cursor(st.n, 0) && st.off == 0 then Cursor(m, 0) else st.start)))
  }

  /** The read ends in front of a line that is unfinished or does not fit, or behind the last segment. */
  ghost predicate Return(lim: Limits, x: Race, x': Race)
  {
    && x.r.stage.At?
    && var st := x.r.stage;
       var line := Line(st.pending);
       && (|| (st.pending == [] && Exhausted(x) && forall k | k in st.list :: k <= st.n)
           || (st.pending != [] && !Whole(line) && Exhausted(x) && |line| <= lim.record)
           || (Whole(line) && |line| <= lim.record && |st.records| + |line| > lim.batch))
       && x' == x.(r := if st.gap || x.r.cursor.None? then Reader(st.next, Idle, st.start, st.records, NoPrelude)
                        else Reader(st.next, Idle, x.r.base, x.r.got + st.records, x.r.prelude))
  }

  /** The read ends behind an oversized line, which is a gap. */
  ghost predicate Skip(lim: Limits, x: Race, x': Race)
  {
    && x.r.stage.At?
    && var st := x.r.stage;
       var line := Line(st.pending);
       && |line| > lim.record && (Whole(line) || Exhausted(x))
       && var past := Cursor(st.n, st.off + |line|);
          x' == x.(r := Reader(Some(past), Idle, past, [], Prelude(st.start, Cursor(st.n, st.off), st.records, line)))
  }

  /** An error, or the caller is gone. */
  ghost predicate Abort(x: Race, x': Race) { x' == x.(r := x.r.(stage := Idle)) }

  /** A step of the read that returns nothing yet. */
  ghost predicate Reads(lim: Limits, x: Race, x': Race)
  {
    || (List(x, x') && Found(x.s.fs) != {}) || Check(x, x') || FromOldest(x, x')
    || Fill(x, x') || Take(lim, x, x') || Advance(x, x') || Abort(x, x')
  }

  /** The read returns a batch. */
  ghost predicate Delivers(lim: Limits, x: Race, x': Race, b: Batch)
  {
    || (List(x, x') && Found(x.s.fs) == {} && b == Batch([], None, x.r.cursor.Some?))
    || (Return(lim, x, x') && b == Batch(x.r.stage.records, x.r.stage.next, x.r.stage.gap))
    || (Skip(lim, x, x') && b == Batch(x.r.stage.records, x'.r.cursor, true))
  }

  ghost predicate RaceNext(cfg: Config, lim: Limits, x: Race, x': Race)
  {
    || WriterStep(cfg, x, x')
    || List(x, x') || Check(x, x') || FromOldest(x, x')
    || Fill(x, x') || Take(lim, x, x') || Advance(x, x')
    || Return(lim, x, x') || Skip(lim, x, x') || Abort(x, x')
  }

  ghost predicate RaceInit(cfg: Config, x: Race)
  {
    && InitStorage(x.s) && AllWithin(cfg, x.s) && x.r.cursor.None? && x.r.stage.Idle? && x.r.got == [] && x.r.prelude.NoPrelude?
    && WellFormed(x.s.fs) && x.last == Recorded(map[], x.s.fs)
  }

  ghost predicate RaceRun(cfg: Config, lim: Limits, run: seq<Race>)
  {
    && run != [] && RaceInit(cfg, run[0])
    && forall i | 0 <= i < |run| - 1 :: RaceNext(cfg, lim, run[i], run[i + 1])
  }

  // ----- the journal's text -----

  /** What the segments numbered from `a` to below `b` held at last. */
  function Middle(last: map<nat, Bytes>, a: nat, b: nat): Bytes
    decreases b
  {
    if a >= b then [] else Middle(last, a, b - 1) + (if b - 1 in last then last[b - 1] else [])
  }

  /** `text` is the journal between two positions. */
  ghost predicate Spans(hist: map<nat, Bytes>, last: map<nat, Bytes>, a: Cursor, c: Cursor, text: Bytes)
  {
    && c.segment in hist && c.offset <= |hist[c.segment]|
    && if a.segment == c.segment then a.offset <= c.offset && text == hist[c.segment][a.offset..c.offset]
       else && a.segment < c.segment && a.segment in last && a.offset <= |last[a.segment]|
            && text == last[a.segment][a.offset..] + Middle(last, a.segment + 1, c.segment) + hist[c.segment][..c.offset]
  }
}
