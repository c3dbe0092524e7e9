/** A racing reader gets the journal's bytes, all of them and in order, between one gap and the next. */
module JournalRaceSafety {
  import opened Wrappers
  import opened FileSystem
  import opened CrashViews
  import opened Journal
  import opened JournalSegments
  import opened JournalStorage
  import opened JournalOrder
  import opened JournalHistory
  import opened JournalSteadiness
  import opened JournalReader
  import opened JournalRace

  // ----- what segments held -----

  ghost predicate LastOk(s: Sys, last: map<nat, Bytes>)
    requires WellFormed(s.fs)
  {
    && (forall n: nat, i: Ino | Holds(s.fs, n, i) :: n in last)
    && (forall n | n in last :: n in s.hist && n in s.acked && last[n] <= s.hist[n] && s.acked[n] <= |last[n]|)
    && (forall n: nat | Segment(n) in s.fs.dir :: n in last && last[n] == Content(s.fs, n))
    && (forall n: nat, i: Ino | Holds(s.fs, n, i) && Segment(n) !in s.fs.dir ::
          i < |s.fs.files| && Settled(s.fs.files[i]) && n in last && last[n] == s.fs.files[i].bytes)
    && (forall n | Wrote(s, n) :: n in last)
  }

  lemma RecordedAt(last: map<nat, Bytes>, fs: Fs, n: nat)
    requires WellFormed(fs)
    ensures Segment(n) in fs.dir ==> n in Recorded(last, fs) && Recorded(last, fs)[n] == Content(fs, n)
    ensures Segment(n) !in fs.dir ==> (n in Recorded(last, fs) <==> n in last)
    ensures Segment(n) !in fs.dir && n in last ==> Recorded(last, fs)[n] == last[n]
  {
    assert n in Found(fs) <==> Segment(n) in fs.dir;
  }

  /** A segment in the directory holds a beginning of what was written, and what was acknowledged. */
  lemma InSight(s: Sys, n: nat)
    requires Core(s) && Segment(n) in s.fs.dir
    ensures n in s.hist && n in s.acked && Content(s.fs, n) <= s.hist[n] && s.acked[n] <= |Content(s.fs, n)|
  {
    var i := s.fs.dir[Segment(n)];
    assert Holds(s.fs, n, i);
    assert s.fs.files[i].bytes <= Reach(s.fs.files[i]);
  }

  lemma LastEntry(s: Sys, last: map<nat, Bytes>, s': Sys, n: nat)
    requires Core(s) && Core(s') && LastOk(s, last) && Extends(s, s') && Grows(s, s')
    requires n in Recorded(last, s'.fs)
    ensures n in s'.hist && n in s'.acked
    ensures var last' := Recorded(last, s'.fs); last'[n] <= s'.hist[n] && s'.acked[n] <= |last'[n]|
  {
    RecordedAt(last, s'.fs, n);
    if Segment(n) in s'.fs.dir {
      InSight(s', n);
    }
  }

  lemma LastHeld(s: Sys, last: map<nat, Bytes>, s': Sys, n: nat, i: Ino)
    requires Core(s) && Core(s') && LastOk(s, last) && Grows(s, s') && Finds(s, s')
    requires Holds(s'.fs, n, i)
    ensures var last' := Recorded(last, s'.fs);
            && n in last'
            && (Segment(n) !in s'.fs.dir ==>
                  i < |s'.fs.files| && Settled(s'.fs.files[i]) && last'[n] == s'.fs.files[i].bytes)
  {
    RecordedAt(last, s'.fs, n);
    OneInodeOf(s, n);
    hide Core, Grows;
  }

  lemma LastWrote(s: Sys, last: map<nat, Bytes>, s': Sys, n: nat)
    requires Core(s) && LastOk(s, last) && WellFormed(s'.fs) && Grows(s, s') && Wrote(s', n)
    ensures n in Recorded(last, s'.fs)
  {
    RecordedAt(last, s'.fs, n);
    hide Core;
    assert n in s.hist;
    if s'.hist[n] != s.hist[n] {
      assert Segment(n) in s.fs.dir;
    }
  }

  lemma LastKept(s: Sys, last: map<nat, Bytes>, s': Sys)
    requires Core(s) && Core(s') && LastOk(s, last)
    requires Extends(s, s') && Grows(s, s') && Finds(s, s')
    ensures LastOk(s', Recorded(last, s'.fs))
  {
    var last' := Recorded(last, s'.fs);
    forall n | n in last'
      ensures n in s'.hist && n in s'.acked && last'[n] <= s'.hist[n] && s'.acked[n] <= |last'[n]|
    {
      LastEntry(s, last, s', n);
    }
    forall n: nat | Segment(n) in s'.fs.dir ensures n in last' && last'[n] == Content(s'.fs, n) {
      RecordedAt(last, s'.fs, n);
    }
    forall n: nat, i: Ino | Holds(s'.fs, n, i)
      ensures n in last'
      ensures Segment(n) !in s'.fs.dir ==>
                i < |s'.fs.files| && Settled(s'.fs.files[i]) && last'[n] == s'.fs.files[i].bytes
    {
      LastHeld(s, last, s', n, i);
    }
    forall n | Wrote(s', n) ensures n in last' {
      LastWrote(s, last, s', n);
    }
  }

  /** The text of a superseded segment is final. */
  lemma LastFinal(s: Sys, last: map<nat, Bytes>, s': Sys, n: nat)
    requires Core(s) && Core(s') && LastOk(s, last) && Grows(s, s') && Finds(s, s') && Superseded(s, n)
    ensures n in Recorded(last, s'.fs) <==> n in last
    ensures n in last ==> Recorded(last, s'.fs)[n] == last[n]
  {
    RecordedAt(last, s'.fs, n);
    if Segment(n) in s'.fs.dir {
      var i := s'.fs.dir[Segment(n)];
      assert Holds(s'.fs, n, i);
      var m :| m in s.hist && n < m;
      assert n in s.hist by { InSight(s', n); }
      assert Holds(s.fs, n, i) && Settled(s.fs.files[i]);
      OneInodeOf(s, n);
    }
  }

  // ----- what the reader has -----

  /** Segments between two listed ones that were not listed are empty, once the first of the two is not. */
  ghost predicate Listing(s: Sys, list: set<nat>)
  {
    && (forall n | n in list :: n in s.hist)
    && (forall a, b, n | a in list && b in list && a < n < b && n in s.hist && n !in list && Wrote(s, a) :: s.hist[n] == [])
  }

  ghost predicate CursorOk(x: Race)
  {
    && (x.r.cursor.Some? ==>
          x.r.cursor.value.offset > 0 && Spans(x.s.hist, x.last, x.r.base, x.r.cursor.value, x.r.got))
    && (x.r.cursor.None? ==> x.r.got == [] && x.r.prelude.NoPrelude?)
    && PreludeOk(x.s.hist, x.last, x.r.base, x.r.prelude)
  }

  /** No newline but perhaps at the end. */
  predicate OneLine(line: Bytes) { forall k | 0 <= k < |line| - 1 :: line[k] != '\n' }

  /** The records in front of a skipped line are the journal's text up to that line, and the line up to `base`. */
  ghost predicate PreludeOk(hist: map<nat, Bytes>, last: map<nat, Bytes>, base: Cursor, p: Prelude)
  {
    p.Prelude? ==> Spans(hist, last, p.from, p.to, p.text) && Spans(hist, last, p.to, base, p.line) && OneLine(p.line)
  }

  /** The open file: what was read from it is the segment's text, and if a later segment is listed it is final. */
  ghost predicate FileHeld(x: Race, list: set<nat>, n: nat, i: Ino, off: nat, pending: Bytes)
  {
    && n in list && Owned(x.s, n, i)
    && off + |pending| <= |x.s.hist[n]| && x.s.hist[n][off..off + |pending|] == pending
    && ((exists b :: b in list && n < b) ==>
          && Settled(x.s.fs.files[i]) && n in x.last && x.last[n] == x.s.fs.files[i].bytes
          && off + |pending| <= |x.last[n]|)
  }

  ghost predicate Progressed(x: Race, st: Stage)
    requires st.At?
  {
    && st.start.segment in st.list && st.start.segment <= st.n
    && (st.start.segment < st.n ==> Wrote(x.s, st.start.segment))
    && Spans(x.s.hist, x.last, st.start, Cursor(st.n, st.off), st.records)
    && (!st.gap && x.r.cursor.Some? ==> st.start == x.r.cursor.value)
    && (if st.records == [] then st.next == (if st.gap then None else x.r.cursor)
        else st.next.Some? && st.next.value.offset > 0 && Spans(x.s.hist, x.last, st.start, st.next.value, st.records))
  }

  ghost predicate StageOk(x: Race)
  {
    match x.r.stage
    case Idle => true
    case Listed(list) => Listing(x.s, list)
    case Refused(list) => Listing(x.s, list)
    case At(list, n, i, off, pending, _, _, _, _) =>
      Listing(x.s, list) && FileHeld(x, list, n, i, off, pending) && Progressed(x, x.r.stage)
  }

  ghost predicate RaceInv(x: Race)
  {
    StorageInv(x.s) && OrderInv(x.s) && WellFormed(x.s.fs) && LastOk(x.s, x.last) && CursorOk(x) && StageOk(x)
  }

  // ----- text -----

  lemma {:induction false} MiddleSplit(last: map<nat, Bytes>, a: nat, n: nat, b: nat)
    requires a <= n <= b
    ensures Middle(last, a, b) == Middle(last, a, n) + Middle(last, n, b)
    decreases b
  {
    if n < b {
      MiddleSplit(last, a, n, b - 1);
    }
  }

  lemma {:induction false} MiddleSame(last: map<nat, Bytes>, last': map<nat, Bytes>, a: nat, b: nat)
    requires forall n | a <= n < b :: (n in last' <==> n in last) && (n in last ==> last'[n] == last[n])
    ensures Middle(last', a, b) == Middle(last, a, b)
    decreases b
  {
    if a < b {
      MiddleSame(last, last', a, b - 1);
    }
  }

  lemma {:induction false} MiddleEmpty(last: map<nat, Bytes>, a: nat, b: nat)
    requires forall n | a <= n < b && n in last :: last[n] == []
    ensures Middle(last, a, b) == []
    decreases b
  {
    if a < b {
      MiddleEmpty(last, a, b - 1);
    }
  }

  /** The journal between two positions is settled as soon as it is behind the reader. */
  lemma SpansStay(s: Sys, last: map<nat, Bytes>, s': Sys, last': map<nat, Bytes>, a: Cursor, c: Cursor, text: Bytes)
    requires Spans(s.hist, last, a, c, text) && Extends(s, s')
    requires forall n | n < c.segment :: (n in last' <==> n in last) && (n in last ==> last'[n] == last[n])
    ensures Spans(s'.hist, last', a, c, text)
  {
    if a.segment < c.segment {
      MiddleSame(last, last', a.segment + 1, c.segment);
    }
  }

  lemma SpansJoin(hist: map<nat, Bytes>, last: map<nat, Bytes>, a: Cursor, b: Cursor, c: Cursor, t: Bytes, u: Bytes)
    requires Spans(hist, last, a, b, t) && Spans(hist, last, b, c, u)
    requires b.segment in last ==> last[b.segment] <= hist[b.segment]
    ensures Spans(hist, last, a, c, t + u)
  {
    if a.segment == b.segment == c.segment {
      assert hist[c.segment][a.offset..c.offset] == hist[c.segment][a.offset..b.offset] + hist[c.segment][b.offset..c.offset];
    } else if a.segment == b.segment {
      assert last[a.segment][a.offset..] == hist[b.segment][a.offset..b.offset] + last[b.segment][b.offset..];
      Glue(t, [], [], last[b.segment][b.offset..], Middle(last, b.segment + 1, c.segment), hist[c.segment][..c.offset]);
      assert t + [] + [] == t && [] + last[b.segment][b.offset..] == last[b.segment][b.offset..];
    } else if b.segment == c.segment {
      assert hist[c.segment][..c.offset] == hist[c.segment][..b.offset] + hist[c.segment][b.offset..c.offset];
    } else {
      SpansAcross(last, a, b, c, hist[b.segment][..b.offset], hist[c.segment][..c.offset]) by {
        assert last[b.segment][..b.offset] == hist[b.segment][..b.offset];
      }
    }
  }

  lemma Glue(x: Bytes, m: Bytes, p: Bytes, q: Bytes, n: Bytes, r: Bytes)
    ensures (x + m + p) + (q + n + r) == x + (m + ((p + q) + n)) + r
  {}

  lemma MiddleOfOne(last: map<nat, Bytes>, n: nat)
    requires n in last
    ensures Middle(last, n, n + 1) == last[n]
  {
    assert Middle(last, n, n) == [];
    assert [] + last[n] == last[n];
  }

  lemma SpansAcross(last: map<nat, Bytes>, a: Cursor, b: Cursor, c: Cursor, p: Bytes, r: Bytes)
    requires a.segment < b.segment < c.segment && a.segment in last && b.segment in last
    requires a.offset <= |last[a.segment]| && b.offset <= |last[b.segment]| && p == last[b.segment][..b.offset]
    ensures (last[a.segment][a.offset..] + Middle(last, a.segment + 1, b.segment) + p)
            + (last[b.segment][b.offset..] + Middle(last, b.segment + 1, c.segment) + r)
            == last[a.segment][a.offset..] + Middle(last, a.segment + 1, c.segment) + r
  {
    var q := last[b.segment][b.offset..];
    MiddleOfOne(last, b.segment);
    hide Middle;
    MiddleSplit(last, a.segment + 1, b.segment, c.segment);
    MiddleSplit(last, b.segment, b.segment + 1, c.segment);
    GlueMiddle(last[a.segment][a.offset..], Middle(last, a.segment + 1, b.segment), p, q,
               Middle(last, b.segment + 1, c.segment), r, last[b.segment], Middle(last, a.segment + 1, c.segment));
  }

  lemma GlueMiddle(x: Bytes, m: Bytes, p: Bytes, q: Bytes, n: Bytes, r: Bytes, whole: Bytes, middle: Bytes)
    requires whole == p + q && middle == m + (whole + n)
    ensures (x + m + p) + (q + n + r) == x + middle + r
  {
    Glue(x, m, p, q, n, r);
  }

  /** Behind the end of a segment stands the next one, when those between are empty. */
  lemma SpansNext(hist: map<nat, Bytes>, last: map<nat, Bytes>, a: Cursor, n: nat, off: nat, m: nat, text: Bytes)
    requires Spans(hist, last, a, Cursor(n, off), text) && n < m && m in hist
    requires n in last && last[n] <= hist[n] && |last[n]| == off
    requires forall k | n < k < m && k in last :: last[k] == []
    ensures Spans(hist, last, a, Cursor(m, 0), text)
  {
    MiddleEmpty(last, n + 1, m);
    assert hist[m][..0] == [] && last[n][off..] == [] && hist[n][off..off] == [];
    assert Spans(hist, last, Cursor(n, off), Cursor(m, 0), []);
    SpansJoin(hist, last, a, Cursor(n, off), Cursor(m, 0), text, []);
    assert text + [] == text;
  }

  lemma SpansHere(hist: map<nat, Bytes>, last: map<nat, Bytes>, c: Cursor)
    requires c.segment in hist && c.offset <= |hist[c.segment]|
    ensures Spans(hist, last, c, c, [])
  {
    assert hist[c.segment][c.offset..c.offset] == [];
  }
}
