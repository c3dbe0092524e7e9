/** One bounded read of the journal: the nested loops of `read_batch_anchored` over one state of the store. */
module JournalReader {
  import opened Wrappers
  import opened FileSystem
  import opened Journal

  datatype Cursor = Cursor(segment: nat, offset: nat)

  /** One discovered segment. */
  datatype Stored = Stored(number: nat, bytes: Bytes)

  datatype ReadError = InvalidInput

  datatype Batch = Batch(records: Bytes, next: Option<Cursor>, gap: bool)

  /** Segments in the order of the map that `discover_segments` returns. */
  predicate Ascending(store: seq<Stored>)
  {
    forall i, j | 0 <= i < j < |store| :: store[i].number < store[j].number
  }

  // ----- the text of a segment, line by line -----

  /** A line, whole or unfinished, and where it ends. */
  datatype Piece = Piece(text: Bytes, end: Cursor)

  /** Where the line that starts at `off` ends: after its newline, or at the end of the bytes. */
  function LineEnd(b: Bytes, off: nat): (e: nat)
    requires off <= |b|
    ensures off <= e <= |b| && (off < |b| ==> off < e)
    ensures forall k | off <= k < e - 1 :: b[k] != '\n'
    ensures e < |b| ==> off < e && b[e - 1] == '\n'
    decreases |b| - off
  {
    if off == |b| then off else if b[off] == '\n' then off + 1 else LineEnd(b, off + 1)
  }

  function Pieces(s: Stored, off: nat): seq<Piece>
    requires off <= |s.bytes|
    decreases |s.bytes| - off
  {
    if off == |s.bytes| then [] else
    var e := LineEnd(s.bytes, off);
    [Piece(s.bytes[off..e], Cursor(s.number, e))] + Pieces(s, e)
  }

  /** All lines from a position to the end of the store. */
  function PiecesFrom(store: seq<Stored>, i: nat, off: nat): seq<Piece>
    requires i <= |store| && (i < |store| ==> off <= |store[i].bytes|)
    decreases |store| - i
  {
    if i == |store| then [] else Pieces(store[i], off) + PiecesFrom(store, i + 1, 0)
  }

  predicate Finished(p: Piece) { p.text != [] && p.text[|p.text| - 1] == '\n' }

  predicate Good(p: Piece, maxRecord: nat) { Finished(p) && |p.text| <= maxRecord }

  function Texts(ps: seq<Piece>): Bytes
  {
    if ps == [] then [] else Texts(ps[..|ps| - 1]) + ps[|ps| - 1].text
  }

  // ----- the read -----

  /** How far `read_until` gets when it may take at most `limit` bytes. */
  method ReadUntil(b: Bytes, off: nat, limit: nat) returns (len: nat)
    requires off <= |b| && limit > 0
    ensures len == if LineEnd(b, off) - off <= limit then LineEnd(b, off) - off else limit
  {
    len := 0;
    while off + len < |b| && len < limit && (len == 0 || b[off + len - 1] != '\n')
      invariant off + len <= |b| && len <= limit
      invariant forall k | off <= k < off + len - 1 :: b[k] != '\n'
    {
      len := len + 1;
    }
    LineEndUnique(b, off, len, limit);
  }

  lemma {:induction false} LineEndUnique(b: Bytes, off: nat, len: nat, limit: nat)
    requires off + len <= |b| && len <= limit && limit > 0
    requires forall k | off <= k < off + len - 1 :: b[k] != '\n'
    requires off + len == |b| || len == limit || (len > 0 && b[off + len - 1] == '\n')
    ensures len == if LineEnd(b, off) - off <= limit then LineEnd(b, off) - off else limit
    decreases len
  {
    if len > 1 && b[off] != '\n' && limit > 1 {
      LineEndUnique(b, off + 1, len - 1, limit - 1);
    }
  }

  /** `discard_through_newline`: the position after the newline, or the end of the bytes. */
  method DiscardThroughNewline(b: Bytes, from: nat) returns (offset: nat)
    requires from <= |b|
    ensures offset == LineEnd(b, from)
  {
    offset := from;
    while offset < |b|
      invariant from <= offset <= |b|
      invariant LineEnd(b, from) == LineEnd(b, offset)
    {
      offset := offset + 1;
      if b[offset - 1] == '\n' {
        return;
      }
    }
  }

  /** Where a read starts, and whether the cursor was refused. */
  function Start(store: seq<Stored>, cursor: Option<Cursor>): (r: (nat, nat, bool))
    requires store != []
    ensures r.0 < |store| && r.1 <= |store[r.0].bytes|
  {
    if cursor.None? then (0, 0, false) else
    var i := IndexOf(store, cursor.value.segment);
    if i < |store| && cursor.value.offset <= |store[i].bytes| && EndsLine(store[i].bytes[..cursor.value.offset])
    then (i, cursor.value.offset, false) else (0, 0, true)
  }

  function IndexOf(store: seq<Stored>, number: nat): (i: nat)
    ensures i <= |store| && (i < |store| ==> store[i].number == number)
    ensures forall j | 0 <= j < i :: store[j].number != number
  {
    if store == [] then 0 else if store[0].number == number then 0 else 1 + IndexOf(store[1..], number)
  }

  /** The lines after the start are `done + rest`, and exactly the records in `done` are returned. */
  ghost predicate Taken(done: seq<Piece>, maxBatch: nat, maxRecord: nat, records: Bytes)
  {
    && (forall j | 0 <= j < |done| :: Good(done[j], maxRecord))
    && records == Texts(done) && |records| <= maxBatch
  }

  /** The first line that is not returned is too long, unfinished, or does not fit. */
  ghost predicate Blocks(p: Piece, room: int, maxRecord: nat)
  {
    |p.text| > maxRecord || !Finished(p) || |p.text| > room
  }

  /**
   The exact result of a read: the longest run of whole records after the start that fits the batch, up to
   the first oversized or unfinished line. An oversized line is skipped and reported as a gap.
   */
  ghost predicate Exact(store: seq<Stored>, cursor: Option<Cursor>, maxBatch: nat, maxRecord: nat, b: Batch,
                        done: seq<Piece>, rest: seq<Piece>)
  {
    if store == [] then b == Batch([], None, cursor.Some?) else
    var (i, off, refused) := Start(store, cursor);
    var skipped := rest != [] && |rest[0].text| > maxRecord;
    && PiecesFrom(store, i, off) == done + rest
    && Taken(done, maxBatch, maxRecord, b.records)
    && (rest != [] ==> Blocks(rest[0], maxBatch - |b.records|, maxRecord))
    && b.gap == (refused || skipped)
    && b.next == if skipped then Some(rest[0].end) else Reached(done, if refused then None else cursor)
  }

  function Reached(done: seq<Piece>, before: Option<Cursor>): Option<Cursor>
  {
    if done == [] then before else Some(done[|done| - 1].end)
  }

  ghost predicate SegmentRead(s: Stored, from: nat, room: nat, maxRecord: nat, records: Bytes, offset: nat,
                              skipped: bool, stop: bool, done: seq<Piece>, rest: seq<Piece>)
    requires from <= |s.bytes|
  {
    && Pieces(s, from) == done + rest
    && Taken(done, room, maxRecord, records)
    && (stop <==> rest != [])
    && (stop ==> Blocks(rest[0], room - |records|, maxRecord))
    && (skipped <==> stop && |rest[0].text| > maxRecord)
    && (if skipped then Cursor(s.number, offset) == rest[0].end
        else Reached(done, Some(Cursor(s.number, from))) == Some(Cursor(s.number, offset))
             && (offset == from <==> done == []))
  }

  /** So far everything up to `offset` was returned. */
  ghost predicate Reading(s: Stored, from: nat, offset: nat, room: nat, maxRecord: nat, records: Bytes,
                          done: seq<Piece>, rest: seq<Piece>)
    requires from <= |s.bytes|
  {
    && from <= offset <= |s.bytes| && rest == Pieces(s, offset) && Pieces(s, from) == done + rest
    && Taken(done, room, maxRecord, records)
    && Reached(done, Some(Cursor(s.number, from))) == Some(Cursor(s.number, offset))
    && (offset == from <==> done == [])
  }

  lemma StartsHere(s: Stored, from: nat, room: nat, maxRecord: nat)
    requires from <= |s.bytes|
    ensures Reading(s, from, from, room, maxRecord, [], [], Pieces(s, from))
  {
    hide Pieces;
    assert [] + Pieces(s, from) == Pieces(s, from);
  }

  /** The next line is unfinished or does not fit: the read stops in front of it. */
  lemma StopsHere(s: Stored, from: nat, offset: nat, room: nat, maxRecord: nat, records: Bytes,
                  done: seq<Piece>, rest: seq<Piece>)
    requires from <= |s.bytes| && Reading(s, from, offset, room, maxRecord, records, done, rest) && offset < |s.bytes|
    requires var e := LineEnd(s.bytes, offset);
             e - offset <= maxRecord && (s.bytes[e - 1] != '\n' || |records| + (e - offset) > room)
    ensures SegmentRead(s, from, room, maxRecord, records, offset, false, true, done, rest)
  {}

  lemma SkipsHere(s: Stored, from: nat, offset: nat, room: nat, maxRecord: nat, records: Bytes,
                  done: seq<Piece>, rest: seq<Piece>)
    requires from <= |s.bytes| && Reading(s, from, offset, room, maxRecord, records, done, rest) && offset < |s.bytes|
    requires LineEnd(s.bytes, offset) - offset > maxRecord
    ensures SegmentRead(s, from, room, maxRecord, records, LineEnd(s.bytes, offset), true, true, done, rest)
  {}

  lemma EndsHere(s: Stored, from: nat, offset: nat, room: nat, maxRecord: nat, records: Bytes,
                 done: seq<Piece>, rest: seq<Piece>)
    requires from <= |s.bytes| && Reading(s, from, offset, room, maxRecord, records, done, rest) && offset == |s.bytes|
    ensures SegmentRead(s, from, room, maxRecord, records, offset, false, false, done, rest)
  {}

  /** The next line is a record that fits. */
  lemma TakesOne(s: Stored, from: nat, offset: nat, room: nat, maxRecord: nat, records: Bytes,
                 done: seq<Piece>, rest: seq<Piece>)
    requires from <= |s.bytes| && Reading(s, from, offset, room, maxRecord, records, done, rest) && offset < |s.bytes|
    requires var e := LineEnd(s.bytes, offset);
             e - offset <= maxRecord && s.bytes[e - 1] == '\n' && |records| + (e - offset) <= room
    ensures var e := LineEnd(s.bytes, offset);
            rest != [] && Reading(s, from, e, room, maxRecord, records + s.bytes[offset..e], done + [rest[0]], Pieces(s, e))
  {
    var e := LineEnd(s.bytes, offset);
    FirstPiece(s, offset);
    var p := Piece(s.bytes[offset..e], Cursor(s.number, e));
    hide Pieces, LineEnd;
    assert rest == [p] + Pieces(s, e) && rest[0] == p && Good(p, maxRecord);
    assert done + ([p] + Pieces(s, e)) == (done + [p]) + Pieces(s, e);
    OneMoreTaken(done, p, room, maxRecord, records);
    hide Taken;
  }

  lemma FirstPiece(s: Stored, offset: nat)
    requires offset < |s.bytes|
    ensures var e := LineEnd(s.bytes, offset);
            Pieces(s, offset) == [Piece(s.bytes[offset..e], Cursor(s.number, e))] + Pieces(s, e)
  {}

  lemma OneMoreTaken(done: seq<Piece>, p: Piece, room: nat, maxRecord: nat, records: Bytes)
    requires Taken(done, room, maxRecord, records) && Good(p, maxRecord) && |records| + |p.text| <= room
    ensures Taken(done + [p], room, maxRecord, records + p.text)
  {
    assert (done + [p])[..|done|] == done;
  }

  /** The lines of one segment: the inner loop. It stops the whole read at the first line it cannot return. */
  method ReadSegment(s: Stored, from: nat, room: nat, maxRecord: nat)
    returns (records: Bytes, offset: nat, skipped: bool, stop: bool, ghost done: seq<Piece>, ghost rest: seq<Piece>)
    requires from <= |s.bytes| && maxRecord > 0
    ensures from <= offset <= |s.bytes| && |records| <= room
    ensures !skipped ==> |records| == offset - from
    ensures !stop ==> !skipped && offset == |s.bytes|
    ensures SegmentRead(s, from, room, maxRecord, records, offset, skipped, stop, done, rest)
  {
    hide Reading, SegmentRead, Pieces, LineEnd;
    var b := s.bytes;
    records, offset, skipped, stop := [], from, false, false;
    done, rest := [], Pieces(s, from);
    StartsHere(s, from, room, maxRecord);
    while true
      invariant from <= offset <= |b| && |records| == offset - from <= room
      invariant Reading(s, from, offset, room, maxRecord, records, done, rest)
      decreases |b| - offset
    {
      var read := ReadUntil(b, offset, maxRecord + 1);
      if read == 0 {
        EndsHere(s, from, offset, room, maxRecord, records, done, rest);
        return records, offset, false, false, done, rest;
      }
      if read > maxRecord {
        var past := offset + read;
        if b[past - 1] != '\n' {
          past := DiscardThroughNewline(b, past);
          LineEndResumes(b, offset, offset + read);
        }
        SkipsHere(s, from, offset, room, maxRecord, records, done, rest);
        return records, past, true, true, done, rest;
      }
      if b[offset + read - 1] != '\n' || |records| + read > room {
        StopsHere(s, from, offset, room, maxRecord, records, done, rest);
        return records, offset, false, true, done, rest;
      }
      TakesOne(s, from, offset, room, maxRecord, records, done, rest);
      records, done := records + b[offset..offset + read], done + [rest[0]];
      offset := offset + read;
      rest := Pieces(s, offset);
    }
  }

  lemma {:induction false} LineEndResumes(b: Bytes, off: nat, mid: nat)
    requires off <= |b| && off <= mid <= LineEnd(b, off) && (mid > off ==> b[mid - 1] != '\n')
    ensures LineEnd(b, mid) == LineEnd(b, off)
    decreases mid - off
  {
    if off < mid {
      LineEndResumes(b, off + 1, mid);
    }
  }

  lemma {:induction false} TextsJoin(a: seq<Piece>, b: seq<Piece>)
    ensures Texts(a + b) == Texts(a) + Texts(b)
  {
    if b == [] {
      assert a + b == a;
    } else {
      assert (a + b)[..|a + b| - 1] == a + b[..|b| - 1];
      TextsJoin(a, b[..|b| - 1]);
    }
  }

  /** The segments before `segment` were read to their end. */
  ghost predicate BatchReading(store: seq<Stored>, cursor: Option<Cursor>, maxBatch: nat, maxRecord: nat, segment: nat,
                               records: Bytes, next: Option<Cursor>, done: seq<Piece>, rest: seq<Piece>)
    requires store != []
  {
    var (start, startOffset, refused) := Start(store, cursor);
    && start <= segment <= |store|
    && PiecesFrom(store, start, startOffset) == done + rest
    && rest == PiecesFrom(store, segment, if segment == start then startOffset else 0)
    && Taken(done, maxBatch, maxRecord, records)
    && next == Reached(done, if refused then None else cursor)
  }

  lemma TakenJoins(done: seq<Piece>, here: seq<Piece>, maxBatch: nat, maxRecord: nat, records: Bytes, more: Bytes)
    requires Taken(done, maxBatch, maxRecord, records) && Taken(here, maxBatch - |records|, maxRecord, more)
    ensures Taken(done + here, maxBatch, maxRecord, records + more)
  {
    TextsJoin(done, here);
  }

  lemma Regroup(done: seq<Piece>, here: seq<Piece>, left: seq<Piece>, later: seq<Piece>)
    ensures done + ((here + left) + later) == (done + here) + (left + later)
    ensures left == [] ==> left + later == later
    ensures left != [] ==> (left + later)[0] == left[0]
  {}

  lemma ReachedJoins(done: seq<Piece>, here: seq<Piece>, before: Option<Cursor>)
    ensures Reached(done + here, before) == Reached(here, Reached(done, before))
    ensures here != [] ==> forall other :: Reached(here, other) == Reached(here, before)
    ensures here == [] ==> forall other :: Reached(here, other) == other
  {
    assert done + [] == done;
  }

  lemma SegmentJoins(store: seq<Stored>, cursor: Option<Cursor>, maxBatch: nat, maxRecord: nat, segment: nat,
                     records: Bytes, next: Option<Cursor>, done: seq<Piece>, rest: seq<Piece>,
                     more: Bytes, reached: nat, skipped: bool, stop: bool, here: seq<Piece>, left: seq<Piece>)
    requires store != [] && segment < |store| && |records| <= maxBatch
    requires BatchReading(store, cursor, maxBatch, maxRecord, segment, records, next, done, rest)
    requires var offset := if segment == Start(store, cursor).0 then Start(store, cursor).1 else 0;
             offset <= |store[segment].bytes| &&
             SegmentRead(store[segment], offset, maxBatch - |records|, maxRecord, more, reached, skipped, stop, here, left)
    ensures var (start, startOffset, refused) := Start(store, cursor);
            var offset := if segment == start then startOffset else 0;
            var next' := if reached != offset || skipped then Some(Cursor(store[segment].number, reached)) else next;
            var rest' := left + PiecesFrom(store, segment + 1, 0);
            && (stop ==> Exact(store, cursor, maxBatch, maxRecord, Batch(records + more, next', refused || skipped),
                               done + here, rest'))
            && (!stop ==> BatchReading(store, cursor, maxBatch, maxRecord, segment + 1, records + more, next',
                                       done + here, rest'))
  {
    var later := PiecesFrom(store, segment + 1, 0);
    assert rest == (here + left) + later;
    Regroup(done, here, left, later);
    TakenJoins(done, here, maxBatch, maxRecord, records, more);
    hide Taken, Good, Finished, Texts, Pieces, PiecesFrom, Start, LineEnd;
    ReachedJoins(done, here, if Start(store, cursor).2 then None else cursor);
    hide Reached;
  }

  /** One read. `done` are the lines it returned and `rest` those after them. */
  method ReadBatch(store: seq<Stored>, cursor: Option<Cursor>, maxBatch: nat, maxRecord: nat)
    returns (r: Result<Batch, ReadError>, ghost done: seq<Piece>, ghost rest: seq<Piece>)
    requires Ascending(store)
    ensures r.Err? <==> maxBatch == 0 || maxRecord == 0 || maxRecord > maxBatch
    ensures r.Ok? ==> Exact(store, cursor, maxBatch, maxRecord, r.value, done, rest)
  {
    hide BatchReading, Exact, Start, Taken, SegmentRead, PiecesFrom, Reached, Texts;
    done, rest := [], [];
    if maxBatch == 0 || maxRecord == 0 || maxRecord > maxBatch {
      return Err(InvalidInput), done, rest;
    }
    if store == [] {
      EmptyExact(cursor, maxBatch, maxRecord);
      return Ok(Batch([], None, cursor.Some?)), done, rest;
    }
    var (start, startOffset, refused) := Start(store, cursor);
    var records: Bytes := [];
    var next := if refused then None else cursor;
    rest := PiecesFrom(store, start, startOffset);
    BatchStarts(store, cursor, maxBatch, maxRecord);
    for segment := start to |store|
      invariant |records| <= maxBatch
      invariant BatchReading(store, cursor, maxBatch, maxRecord, segment, records, next, done, rest)
    {
      var offset := if segment == start then startOffset else 0;
      ghost var here, left;
      var more, reached, skipped, stop;
      more, reached, skipped, stop, here, left :=
        ReadSegment(store[segment], offset, maxBatch - |records|, maxRecord);
      SegmentJoins(store, cursor, maxBatch, maxRecord, segment, records, next, done, rest,
                   more, reached, skipped, stop, here, left);
      if reached != offset || skipped {
        next := Some(Cursor(store[segment].number, reached));
      }
      done, rest := done + here, left + PiecesFrom(store, segment + 1, 0);
      records := records + more;
      if stop {
        return Ok(Batch(records, next, refused || skipped)), done, rest;
      }
      BatchFits(store, cursor, maxBatch, maxRecord, segment + 1, records, next, done, rest);
    }
    BatchEnds(store, cursor, maxBatch, maxRecord, records, next, done, rest);
    r := Ok(Batch(records, next, refused));
  }

  lemma EmptyExact(cursor: Option<Cursor>, maxBatch: nat, maxRecord: nat)
    ensures Exact([], cursor, maxBatch, maxRecord, Batch([], None, cursor.Some?), [], [])
  {}

  lemma BatchStarts(store: seq<Stored>, cursor: Option<Cursor>, maxBatch: nat, maxRecord: nat)
    requires store != []
    ensures var (start, startOffset, refused) := Start(store, cursor);
            BatchReading(store, cursor, maxBatch, maxRecord, start, [], if refused then None else cursor, [],
                         PiecesFrom(store, start, startOffset))
  {
    hide Start, Pieces;
    var (start, startOffset, refused) := Start(store, cursor);
    assert [] + PiecesFrom(store, start, startOffset) == PiecesFrom(store, start, startOffset);
  }

  lemma BatchEnds(store: seq<Stored>, cursor: Option<Cursor>, maxBatch: nat, maxRecord: nat, records: Bytes,
                  next: Option<Cursor>, done: seq<Piece>, rest: seq<Piece>)
    requires store != [] && BatchReading(store, cursor, maxBatch, maxRecord, |store|, records, next, done, rest)
    ensures Exact(store, cursor, maxBatch, maxRecord, Batch(records, next, Start(store, cursor).2), done, rest)
  {
    hide Start, Taken, Texts;
  }

  lemma BatchFits(store: seq<Stored>, cursor: Option<Cursor>, maxBatch: nat, maxRecord: nat, segment: nat,
                  records: Bytes, next: Option<Cursor>, done: seq<Piece>, rest: seq<Piece>)
    requires store != [] && BatchReading(store, cursor, maxBatch, maxRecord, segment, records, next, done, rest)
    ensures |records| <= maxBatch
  {}
}
