/** Validation of a fetched batch against the position it was fetched from. */
module JournalBatches {
  import opened Wrappers
  import opened FileSystem
  import opened JournalReader
  import opened JournalStreams
  import JournalReads

  const MAX_RECORDS_PER_BATCH := 4096
  const MAX_RECORD_BYTES := 64 * 1024
  const MAX_I64 := 0x7fff_ffff_ffff_ffff

  datatype SourceCursor = SourceCursor(incarnation: Incarnation, pos: Cursor)

  datatype Fetched = Fetched(incarnation: Incarnation, jsonl: Bytes, next: Option<SourceCursor>, gap: bool)

  /** The checks on a batch as a whole. */
  predicate HeaderOk(expected: Incarnation, f: Fetched, maxBatch: nat)
  {
    && f.incarnation == expected && |f.jsonl| <= maxBatch
    && (f.jsonl != [] ==> f.jsonl[|f.jsonl| - 1] == '\n' && f.next.Some?)
    && (f.next.Some? ==> f.next.value.incarnation == f.incarnation
                         && f.next.value.pos.segment <= MAX_I64 && f.next.value.pos.offset <= MAX_I64)
  }

  /** The checks on one record; `safe` stands for what its JSON must say. */
  predicate RecordOk(p: Piece, safe: Bytes -> bool)
  {
    p.text != [] && |p.text| <= MAX_RECORD_BYTES && safe(p.text[..|p.text| - 1])
  }

  function BatchOf(f: Fetched): JournalStreams.Batch
  {
    JournalStreams.Batch(if f.next.Some? then Some(f.next.value.pos) else None, f.gap, f.jsonl == [])
  }

  ghost predicate Acceptable(expected: Incarnation, cursor: Option<Cursor>, f: Fetched, maxBatch: nat, safe: Bytes -> bool)
  {
    HeaderOk(expected, f, maxBatch) && JournalStreams.Follows(cursor, BatchOf(f)) && RecordsOk(f.jsonl, safe)
  }

  ghost predicate RecordsOk(jsonl: Bytes, safe: Bytes -> bool)
  {
    var records := Pieces(Stored(0, jsonl), 0);
    |records| <= MAX_RECORDS_PER_BATCH && forall i | 0 <= i < |records| :: RecordOk(records[i], safe)
  }

  lemma NextPiece(s: Stored, off: nat)
    requires off < |s.bytes|
    ensures var e := LineEnd(s.bytes, off);
            off < e && Pieces(s, off) != [] && Pieces(s, off)[0] == Piece(s.bytes[off..e], Cursor(s.number, e))
            && Pieces(s, off)[1..] == Pieces(s, e)
  {}

  lemma NoPieces(s: Stored, off: nat)
    requires off == |s.bytes|
    ensures Pieces(s, off) == []
  {}

  lemma {:induction false} AllFinished(s: Stored, off: nat, j: nat)
    requires off <= |s.bytes| && j < |Pieces(s, off)| && s.bytes[|s.bytes| - 1] == '\n'
    ensures Finished(Pieces(s, off)[j])
    decreases |s.bytes| - off
  {
    if j > 0 {
      AllFinished(s, LineEnd(s.bytes, off), j - 1);
    }
  }

  /**
   A batch is acceptable if and only if it is from the expected identity, is nothing but whole lines, each of them safe
   and within the limits, ends at a position of that identity if it has records, and without a gap moves the cursor
   forward exactly if it has records.
   */
  lemma AcceptableIff(expected: Incarnation, cursor: Option<Cursor>, f: Fetched, maxBatch: nat, safe: Bytes -> bool)
    ensures var lines := Pieces(Stored(0, f.jsonl), 0);
            Texts(lines) == f.jsonl
            && (Acceptable(expected, cursor, f, maxBatch, safe) <==>
                  && f.incarnation == expected && |f.jsonl| <= maxBatch && |lines| <= MAX_RECORDS_PER_BATCH
                  && (forall i | 0 <= i < |lines| ::
                        Finished(lines[i]) && |lines[i].text| <= MAX_RECORD_BYTES && safe(lines[i].text[..|lines[i].text| - 1]))
                  && (f.next.Some? ==> && f.next.value.incarnation == expected
                                       && f.next.value.pos.segment <= MAX_I64 && f.next.value.pos.offset <= MAX_I64)
                  && (f.jsonl != [] ==> f.next.Some?)
                  && (!f.gap && f.jsonl == [] ==> BatchOf(f).next == cursor)
                  && (!f.gap && f.jsonl != [] && cursor.Some? ==> Before(cursor.value, f.next.value.pos)))
  {
    hide Pieces, Texts, Finished;
    JournalReads.PiecesText(Stored(0, f.jsonl), 0);
    assert f.jsonl[0..] == f.jsonl;
    WholeLines(f.jsonl);
    LinesHaveText(f.jsonl);
  }

  /** A text is whole lines exactly if it ends with a newline. */
  lemma WholeLines(jsonl: Bytes)
    ensures var lines := Pieces(Stored(0, jsonl), 0);
            (jsonl == [] || jsonl[|jsonl| - 1] == '\n') <==> forall i | 0 <= i < |lines| :: Finished(lines[i])
  {
    var s := Stored(0, jsonl);
    if jsonl == [] {
    } else if jsonl[|jsonl| - 1] == '\n' {
      forall i | 0 <= i < |Pieces(s, 0)| ensures Finished(Pieces(s, 0)[i]) {
        AllFinished(s, 0, i);
      }
    } else {
      LastUnfinished(s, 0);
    }
  }

  lemma LinesHaveText(jsonl: Bytes)
    ensures var lines := Pieces(Stored(0, jsonl), 0);
            forall i | 0 <= i < |lines| :: lines[i].text != []
  {
    forall i | 0 <= i < |Pieces(Stored(0, jsonl), 0)| ensures Pieces(Stored(0, jsonl), 0)[i].text != [] {
      JournalReads.PieceNotEmpty(Stored(0, jsonl), 0, i);
    }
  }

  lemma {:induction false} LastUnfinished(s: Stored, off: nat)
    requires off < |s.bytes| && s.bytes[|s.bytes| - 1] != '\n'
    ensures Pieces(s, off) != [] && !Finished(Pieces(s, off)[|Pieces(s, off)| - 1])
    decreases |s.bytes| - off
  {
    var e := LineEnd(s.bytes, off);
    if e < |s.bytes| {
      LastUnfinished(s, e);
    }
  }

  /** `ValidatedJournalBatch::new` accepts exactly the acceptable batches. */
  method ValidateBatch(expected: Incarnation, cursor: Option<Cursor>, f: Fetched, maxBatch: nat, safe: Bytes -> bool)
    returns (r: Option<JournalStreams.Batch>)
    ensures r.Some? <==> Acceptable(expected, cursor, f, maxBatch, safe)
    ensures r.Some? ==> r.value == BatchOf(f) && JournalStreams.Follows(cursor, r.value)
  {
    r := None;
    if f.incarnation != expected || |f.jsonl| > maxBatch { return; }
    if |f.jsonl| > 0 && f.jsonl[|f.jsonl| - 1] != '\n' { return; }
    if f.next.Some? && f.next.value.incarnation != f.incarnation { return; }
    if f.next.Some? && (f.next.value.pos.segment > MAX_I64 || f.next.value.pos.offset > MAX_I64) { return; }
    if |f.jsonl| > 0 && f.next.None? { return; }
    if !f.gap {
      if cursor.Some? && f.next.Some? && f.jsonl != [] && !Before(cursor.value, f.next.value.pos) { return; }
      if f.jsonl == [] && cursor != BatchOf(f).next { return; }
    }
    var ok := CheckRecords(f.jsonl, safe);
    if ok { r := Some(BatchOf(f)); }
  }

  /** The loop over the records. */
  method CheckRecords(jsonl: Bytes, safe: Bytes -> bool) returns (ok: bool)
    ensures ok <==> RecordsOk(jsonl, safe)
  {
    var s := Stored(0, jsonl);
    ghost var records := Pieces(s, 0);
    var off, index := 0, 0;
    hide Pieces, LineEnd;
    while off < |jsonl|
      invariant 0 <= off <= |jsonl| && 0 <= index <= |records| && index <= MAX_RECORDS_PER_BATCH
      invariant records[index..] == Pieces(s, off)
      invariant forall i | 0 <= i < index :: RecordOk(records[i], safe)
      decreases |jsonl| - off
    {
      var e := LineEnd(jsonl, off);
      var record := jsonl[off..e];
      NextPiece(s, off);
      assert records[index] == records[index..][0] && records[index + 1..] == records[index..][1..];
      if index >= MAX_RECORDS_PER_BATCH || |record| > MAX_RECORD_BYTES { return false; }
      if !safe(record[..|record| - 1]) { return false; }
      off, index := e, index + 1;
    }
    NoPieces(s, off);
    assert records[index..] == [];
    ok := true;
  }
}
