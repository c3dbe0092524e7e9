/** What one read of the journal means to its caller. */
module JournalReads {
  import opened Wrappers
  import opened FileSystem
  import opened Journal
  import opened JournalReader

  ghost predicate Accepted(store: seq<Stored>, c: Cursor) { store != [] && !Start(store, Some(c)).2 }

  /** Everything in the store from a position on. */
  function Remaining(store: seq<Stored>, i: nat, off: nat): Bytes
    requires i <= |store| && (i < |store| ==> off <= |store[i].bytes|)
    decreases |store| - i
  {
    if i == |store| then [] else store[i].bytes[off..] + Remaining(store, i + 1, 0)
  }

  // ----- lines and bytes -----

  lemma {:induction false} PiecesText(s: Stored, off: nat)
    requires off <= |s.bytes|
    ensures Texts(Pieces(s, off)) == s.bytes[off..]
    decreases |s.bytes| - off
  {
    if off < |s.bytes| {
      var e := LineEnd(s.bytes, off);
      PiecesText(s, e);
      var p := Piece(s.bytes[off..e], Cursor(s.number, e));
      TextsJoin([p], Pieces(s, e));
      assert [p][..0] == [];
      assert Texts([p]) == p.text;
    }
  }

  lemma Unfolded(store: seq<Stored>, i: nat, off: nat)
    requires i < |store| && off <= |store[i].bytes|
    ensures PiecesFrom(store, i, off) == Pieces(store[i], off) + PiecesFrom(store, i + 1, 0)
    ensures Remaining(store, i, off) == store[i].bytes[off..] + Remaining(store, i + 1, 0)
  {
    hide Pieces;
  }

  lemma NoText(store: seq<Stored>, off: nat)
    ensures Texts(PiecesFrom(store, |store|, off)) == Remaining(store, |store|, off) == []
  {}

  lemma {:induction false} AllText(store: seq<Stored>, i: nat, off: nat)
    requires i <= |store| && (i < |store| ==> off <= |store[i].bytes|)
    ensures Texts(PiecesFrom(store, i, off)) == Remaining(store, i, off)
    decreases |store| - i
  {
    if i == |store| {
      NoText(store, off);
    } else {
      AllText(store, i + 1, 0);
      PiecesText(store[i], off);
      TextsJoin(Pieces(store[i], off), PiecesFrom(store, i + 1, 0));
      Unfolded(store, i, off);
      hide Texts, Pieces, PiecesFrom, Remaining;
    }
  }

  /** A line ends inside its segment, and what follows it is the rest of the store. */
  ghost predicate Ends(store: seq<Stored>, i: nat, off: nat, ps: seq<Piece>, j: nat)
    requires i <= |store| && (i < |store| ==> off <= |store[i].bytes|) && j < |ps|
  {
    exists k | i <= k < |store| ::
      && ps[j].end.segment == store[k].number && 0 < ps[j].end.offset <= |store[k].bytes|
      && (EndsLine(store[k].bytes[..ps[j].end.offset]) <==> Finished(ps[j]))
      && ps[j + 1..] == PiecesFrom(store, k, ps[j].end.offset)
  }

  lemma {:induction false} PieceEnd(s: Stored, off: nat, j: nat)
    requires off <= |s.bytes| && j < |Pieces(s, off)|
    ensures var p := Pieces(s, off)[j];
            && p.end.segment == s.number && 0 < p.end.offset <= |s.bytes|
            && (EndsLine(s.bytes[..p.end.offset]) <==> Finished(p))
            && Pieces(s, off)[j + 1..] == Pieces(s, p.end.offset)
    decreases |s.bytes| - off
  {
    var e := LineEnd(s.bytes, off);
    if j > 0 {
      PieceEnd(s, e, j - 1);
    }
  }

  lemma {:induction false} EveryEnd(store: seq<Stored>, i: nat, off: nat, j: nat)
    requires i <= |store| && (i < |store| ==> off <= |store[i].bytes|) && j < |PiecesFrom(store, i, off)|
    ensures Ends(store, i, off, PiecesFrom(store, i, off), j)
    decreases |store| - i
  {
    var here, later := Pieces(store[i], off), PiecesFrom(store, i + 1, 0);
    if j < |here| {
      PieceEnd(store[i], off, j);
      assert (here + later)[j + 1..] == here[j + 1..] + later;
    } else {
      EveryEnd(store, i + 1, 0, j - |here|);
      assert (here + later)[j + 1..] == later[j - |here| + 1..];
    }
  }

  lemma {:induction false} IndexFound(store: seq<Stored>, k: nat)
    requires Ascending(store) && k < |store|
    ensures IndexOf(store, store[k].number) == k
  {
    if k > 0 {
      assert store[1..][k - 1] == store[k];
      IndexFound(store[1..], k - 1);
    }
  }

  lemma TextOfOne(p: Piece)
    ensures Texts([p]) == p.text
  {
    assert [p][..0] == [];
  }

  lemma PrefixText(ps: seq<Piece>, j: nat, k: nat)
    requires j < k <= |ps|
    ensures Texts(ps[..j + 1]) == Texts(ps[..j]) + ps[j].text
    ensures |Texts(ps[..j])| + |ps[j].text| <= |Texts(ps[..k])|
  {
    assert ps[..j + 1] == ps[..j] + [ps[j]];
    TextsJoin(ps[..j], [ps[j]]);
    TextOfOne(ps[j]);
    assert ps[..k] == ps[..j + 1] + ps[j + 1..k];
    TextsJoin(ps[..j + 1], ps[j + 1..k]);
  }

  /** The position behind the first `n` lines splits the rest of the store there. */
  lemma After(store: seq<Stored>, i: nat, off: nat, n: nat) returns (j: nat, to: nat)
    requires i < |store| && off <= |store[i].bytes| && n <= |PiecesFrom(store, i, off)|
    ensures i <= j < |store| && to <= |store[j].bytes|
    ensures Remaining(store, i, off) == Texts(PiecesFrom(store, i, off)[..n]) + Remaining(store, j, to)
    ensures if n == 0 then j == i && to == off else PiecesFrom(store, i, off)[n - 1].end == Cursor(store[j].number, to)
  {
    var ps := PiecesFrom(store, i, off);
    j, to := i, off;
    assert ps[..n] + ps[n..] == ps;
    TextsJoin(ps[..n], ps[n..]);
    AllText(store, i, off);
    if n == 0 {
      assert ps[0..] == ps;
    } else {
      EveryEnd(store, i, off, n - 1);
      j :| i <= j < |store| && ps[n - 1].end.segment == store[j].number
           && 0 < ps[n - 1].end.offset <= |store[j].bytes|
           && ps[n..] == PiecesFrom(store, j, ps[n - 1].end.offset);
      to := ps[n - 1].end.offset;
      AllText(store, j, to);
    }
  }

  // ----- where a read begins -----

  /** The bytes of some segments, one after the other. */
  function Joined(store: seq<Stored>): Bytes
  {
    if store == [] then [] else store[0].bytes + Joined(store[1..])
  }

  /** The cursor stands in segment `k`, at its start or behind one of its newlines. */
  predicate Stands(store: seq<Stored>, c: Cursor, k: nat)
  {
    && k < |store| && store[k].number == c.segment && c.offset <= |store[k].bytes|
    && (c.offset == 0 || store[k].bytes[c.offset - 1] == '\n')
  }

  /** A batch that begins a text: its records are the front of it, up to a line that ended the read, or all of it. */
  ghost predicate Begins(text: Bytes, maxBatch: nat, maxRecord: nat, b: Batch, rest: seq<Piece>)
  {
    && text == b.records + Texts(rest) && |b.records| <= maxBatch && EndsLine(b.records)
    && (rest != [] ==> && |rest[0].text| > 0
                       && (|| |rest[0].text| > maxRecord
                           || rest[0].text[|rest[0].text| - 1] != '\n'
                           || |b.records| + |rest[0].text| > maxBatch))
  }

  lemma {:induction false} RemainingIsJoined(store: seq<Stored>, i: nat)
    requires i <= |store|
    ensures Remaining(store, i, 0) == Joined(store[i..])
    decreases |store| - i
  {
    if i < |store| {
      RemainingIsJoined(store, i + 1);
      assert store[i..][1..] == store[i + 1..] && store[i].bytes[0..] == store[i].bytes;
    }
  }

  lemma {:induction false} WholeLines(done: seq<Piece>, maxRecord: nat)
    requires forall j | 0 <= j < |done| :: Good(done[j], maxRecord)
    ensures EndsLine(Texts(done))
  {
    if done != [] {
      assert Good(done[|done| - 1], maxRecord);
    }
  }

  lemma BeginsAt(store: seq<Stored>, cursor: Option<Cursor>, maxBatch: nat, maxRecord: nat, b: Batch,
                 done: seq<Piece>, rest: seq<Piece>)
    requires store != [] && Exact(store, cursor, maxBatch, maxRecord, b, done, rest)
    ensures Begins(Remaining(store, Start(store, cursor).0, Start(store, cursor).1), maxBatch, maxRecord, b, rest)
  {
    var (i, off, refused) := Start(store, cursor);
    AllText(store, i, off);
    TextsJoin(done, rest);
    WholeLines(done, maxRecord);
    if rest != [] { PieceText(store, i, off, |done|); }
    hide Texts, PiecesFrom, Remaining, Start;
    assert rest != [] ==> (done + rest)[|done|] == rest[0];
  }

  lemma PieceText(store: seq<Stored>, i: nat, off: nat, j: nat)
    requires i <= |store| && (i < |store| ==> off <= |store[i].bytes|) && j < |PiecesFrom(store, i, off)|
    ensures PiecesFrom(store, i, off)[j].text != []
    decreases |store| - i
  {
    if j < |Pieces(store[i], off)| {
      PieceNotEmpty(store[i], off, j);
    } else {
      PieceText(store, i + 1, 0, j - |Pieces(store[i], off)|);
    }
  }

  lemma PieceNotEmpty(s: Stored, off: nat, j: nat)
    requires off <= |s.bytes| && j < |Pieces(s, off)|
    ensures Pieces(s, off)[j].text != []
    decreases |s.bytes| - off
  {
    if j > 0 { PieceNotEmpty(s, LineEnd(s.bytes, off), j - 1); }
  }

  lemma StartsAt(store: seq<Stored>, c: Cursor, k: nat)
    requires Ascending(store) && Stands(store, c, k)
    ensures Start(store, Some(c)) == (k, c.offset, false)
  {
    IndexFound(store, k);
  }

  lemma StartsAnew(store: seq<Stored>, c: Cursor)
    requires store != [] && forall k: nat | k < |store| :: !Stands(store, c, k)
    ensures Start(store, Some(c)) == (0, 0, true)
  {
    var i := IndexOf(store, c.segment);
    assert i < |store| ==> !Stands(store, c, i);
  }

  /**
   A read from a cursor at the start of a segment or behind one of its newlines begins there: its records are the front
   of the journal from the cursor on, and a gap is reported only for a skipped line.
   */
  lemma ReadsOn(store: seq<Stored>, c: Cursor, k: nat, maxBatch: nat, maxRecord: nat, b: Batch,
                done: seq<Piece>, rest: seq<Piece>)
    requires Ascending(store) && Stands(store, c, k) && Exact(store, Some(c), maxBatch, maxRecord, b, done, rest)
    ensures Begins(store[k].bytes[c.offset..] + Joined(store[k + 1..]), maxBatch, maxRecord, b, rest)
    ensures b.gap <==> rest != [] && |rest[0].text| > maxRecord
  {
    BeginsAt(store, Some(c), maxBatch, maxRecord, b, done, rest);
    StartsAt(store, c, k);
    RemainingIsJoined(store, k + 1);
    hide Joined, Begins, Texts, PiecesFrom, Taken, Start;
  }

  /**
   A read without a cursor, or with one whose segment is gone or that is past its segment's end or inside a line,
   begins at the oldest segment: its records are the front of the whole journal. A refused cursor is a gap.
   */
  lemma ReadsAnew(store: seq<Stored>, cursor: Option<Cursor>, maxBatch: nat, maxRecord: nat, b: Batch,
                  done: seq<Piece>, rest: seq<Piece>)
    requires Exact(store, cursor, maxBatch, maxRecord, b, done, rest)
    requires cursor.Some? ==> forall k: nat | k < |store| :: !Stands(store, cursor.value, k)
    ensures store == [] ==> b == Batch([], None, cursor.Some?)
    ensures store != [] ==> Begins(Joined(store), maxBatch, maxRecord, b, rest)
    ensures store != [] ==> (b.gap <==> cursor.Some? || (rest != [] && |rest[0].text| > maxRecord))
  {
    if store != [] {
      BeginsAt(store, cursor, maxBatch, maxRecord, b, done, rest);
      if cursor.Some? { StartsAnew(store, cursor.value); }
      assert Start(store, cursor) == (0, 0, cursor.Some?);
      RemainingIsJoined(store, 0);
      assert store[0..] == store;
      hide Joined, Begins, Texts, PiecesFrom, Taken, Start, Remaining;
    }
  }

  // ----- the result -----

  /** No longer run of whole records after the start would have fitted. */
  lemma {:induction false} Longest(store: seq<Stored>, cursor: Option<Cursor>, maxBatch: nat, maxRecord: nat, b: Batch,
                                   done: seq<Piece>, rest: seq<Piece>, k: nat)
    requires store != [] && Exact(store, cursor, maxBatch, maxRecord, b, done, rest)
    requires k <= |done + rest| && forall j | 0 <= j < k :: Good((done + rest)[j], maxRecord)
    requires |Texts((done + rest)[..k])| <= maxBatch
    ensures k <= |done|
  {
    if k > |done| {
      assert (done + rest)[..|done|] == done;
      PrefixText(done + rest, |done|, k);
    }
  }

  /** The result is the only one that is exact. */
  lemma OneResult(store: seq<Stored>, cursor: Option<Cursor>, maxBatch: nat, maxRecord: nat,
                  b: Batch, done: seq<Piece>, rest: seq<Piece>, b': Batch, done': seq<Piece>, rest': seq<Piece>)
    requires Exact(store, cursor, maxBatch, maxRecord, b, done, rest)
    requires Exact(store, cursor, maxBatch, maxRecord, b', done', rest')
    ensures b == b'
  {
    if store != [] {
      assert (done + rest)[..|done|] == done && (done + rest)[..|done'|] == (done' + rest')[..|done'|] == done';
      assert (done + rest)[|done|..] == rest && (done' + rest')[|done'|..] == rest';
      Longest(store, cursor, maxBatch, maxRecord, b, done, rest, |done'|);
      Longest(store, cursor, maxBatch, maxRecord, b', done', rest', |done|);
    }
  }

  lemma AcceptedUnlessEndless(store: seq<Stored>, cursor: Option<Cursor>, maxBatch: nat, maxRecord: nat, b: Batch,
                              done: seq<Piece>, rest: seq<Piece>)
    requires Ascending(store) && Exact(store, cursor, maxBatch, maxRecord, b, done, rest) && b.next.Some?
    ensures Accepted(store, b.next.value) <==> !(rest != [] && |rest[0].text| > maxRecord && !Finished(rest[0]))
  {
    var (i, off, refused) := Start(store, cursor);
    var skipped := rest != [] && |rest[0].text| > maxRecord;
    if skipped || done != [] {
      var j := if skipped then |done| else |done| - 1;
      EveryEnd(store, i, off, j);
      var p := (done + rest)[j];
      assert b.next == Some(p.end);
      hide PiecesFrom, Texts, Taken, Blocks, Exact;
      var k :| i <= k < |store| && p.end.segment == store[k].number && 0 < p.end.offset <= |store[k].bytes|
               && (EndsLine(store[k].bytes[..p.end.offset]) <==> Finished(p));
      IndexFound(store, k);
    }
  }

  /** How many of the lines `ps` a read with `room` left in its batch returns before it stops. */
  function Stop(ps: seq<Piece>, room: int, maxRecord: nat): (n: nat)
    ensures n <= |ps|
  {
    if ps == [] || |ps[0].text| > maxRecord || !Finished(ps[0]) || |ps[0].text| > room then 0
    else 1 + Stop(ps[1..], room - |ps[0].text|, maxRecord)
  }

  /** The first line that the read does not return is too long for it and has no end yet. */
  predicate StopsAtEndlessLine(store: seq<Stored>, cursor: Option<Cursor>, maxBatch: nat, maxRecord: nat)
  {
    && store != []
    && var (i, off, _) := Start(store, cursor);
       var ps := PiecesFrom(store, i, off);
       var n := Stop(ps, maxBatch, maxRecord);
       n < |ps| && |ps[n].text| > maxRecord && !Finished(ps[n])
  }

  lemma TextsFromFirst(ps: seq<Piece>)
    requires ps != []
    ensures |Texts(ps)| == |ps[0].text| + |Texts(ps[1..])|
  {
    assert ps == [ps[0]] + ps[1..];
    TextsJoin([ps[0]], ps[1..]);
    TextOfOne(ps[0]);
  }

  lemma {:induction false} StopsBehind(done: seq<Piece>, rest: seq<Piece>, room: int, maxRecord: nat)
    requires forall j | 0 <= j < |done| :: Good(done[j], maxRecord)
    requires |Texts(done)| <= room
    requires rest != [] ==> Blocks(rest[0], room - |Texts(done)|, maxRecord)
    ensures Stop(done + rest, room, maxRecord) == |done|
  {
    if done == [] {
      assert done + rest == rest;
    } else {
      TextsFromFirst(done);
      StopsBehind(done[1..], rest, room - |done[0].text|, maxRecord);
      hide Texts;
      assert (done + rest)[0] == done[0] && (done + rest)[1..] == done[1..] + rest;
      assert Good(done[0], maxRecord);
    }
  }

  /**
   The next read accepts the returned cursor if and only if this one does not stop at an oversized line that
   has no end yet.
   */
  lemma CursorAccepted(store: seq<Stored>, cursor: Option<Cursor>, maxBatch: nat, maxRecord: nat, b: Batch,
                       done: seq<Piece>, rest: seq<Piece>)
    requires Ascending(store) && Exact(store, cursor, maxBatch, maxRecord, b, done, rest) && b.next.Some?
    ensures Accepted(store, b.next.value) <==> !StopsAtEndlessLine(store, cursor, maxBatch, maxRecord)
  {
    AcceptedUnlessEndless(store, cursor, maxBatch, maxRecord, b, done, rest);
    StopsBehind(done, rest, maxBatch, maxRecord);
    hide Accepted, Texts, Stop, PiecesFrom;
    assert rest != [] ==> (done + rest)[|done|] == rest[0];
  }

  /** Somewhere an unfinished line is too long for the reader: the cursor it gets back is refused. */
  lemma CursorRefusedExample()
    ensures Exact([Stored(1, "abc")], None, 2, 2, Batch([], Some(Cursor(1, 3)), true), [],
                  [Piece("abc", Cursor(1, 3))])
    ensures !Accepted([Stored(1, "abc")], Cursor(1, 3))
  {
    var s := Stored(1, "abc");
    assert LineEnd(s.bytes, 2) == 3 && LineEnd(s.bytes, 1) == 3 && LineEnd(s.bytes, 0) == 3;
    assert s.bytes[0..3] == "abc" == s.bytes[..3];
    assert Pieces(s, 0) == [Piece("abc", Cursor(1, 3))] + Pieces(s, 3);
    assert PiecesFrom([s], 0, 0) == Pieces(s, 0) + PiecesFrom([s], 1, 0);
  }

  /** A whole record that fits at the start is returned, and the cursor moves. */
  lemma Progress(store: seq<Stored>, cursor: Option<Cursor>, maxBatch: nat, maxRecord: nat, b: Batch,
                 done: seq<Piece>, rest: seq<Piece>)
    requires Ascending(store) && store != [] && maxRecord <= maxBatch
    requires Exact(store, cursor, maxBatch, maxRecord, b, done, rest)
    requires var (i, off, _) := Start(store, cursor);
             PiecesFrom(store, i, off) != [] && Good(PiecesFrom(store, i, off)[0], maxRecord)
    ensures b.records != [] && b.next.Some? && (!Start(store, cursor).2 ==> b.next != cursor)
  {
    TakesFirst(store, cursor, maxBatch, maxRecord, b, done, rest);
    hide PiecesFrom, Remaining, Taken, Texts, Exact, Ascending, Good;
    var (i, off, refused) := Start(store, cursor);
    var j, to := Conserved(store, cursor, maxBatch, maxRecord, b, done, rest);
    if !refused && b.next == cursor { SameNumber(store, i, j); }
  }

  lemma SameNumber(store: seq<Stored>, i: nat, j: nat)
    requires Ascending(store) && i < |store| && j < |store|
    ensures store[i].number == store[j].number ==> i == j
  {}

  lemma TakesFirst(store: seq<Stored>, cursor: Option<Cursor>, maxBatch: nat, maxRecord: nat, b: Batch,
                   done: seq<Piece>, rest: seq<Piece>)
    requires store != [] && maxRecord <= maxBatch && Exact(store, cursor, maxBatch, maxRecord, b, done, rest)
    requires var (i, off, _) := Start(store, cursor);
             PiecesFrom(store, i, off) != [] && Good(PiecesFrom(store, i, off)[0], maxRecord)
    ensures b.records != [] && b.next.Some?
  {
    hide PiecesFrom, Start, Texts;
    FirstText(done + rest);
    PrefixOfJoin(done, rest);
    Longest(store, cursor, maxBatch, maxRecord, b, done, rest, 1);
    PrefixText(done, 0, |done|);
    assert done[..|done|] == done && done[0] == (done + rest)[0];
  }

  lemma FirstText(ps: seq<Piece>)
    requires ps != []
    ensures Texts(ps[..1]) == ps[0].text
  {
    assert ps[..1] == [ps[0]];
    TextOfOne(ps[0]);
  }

  /**
   Nothing is lost or returned twice: the store from the start on is the returned records, the skipped line
   if there is one, and the store from the returned cursor on.
   */
  lemma Conserved(store: seq<Stored>, cursor: Option<Cursor>, maxBatch: nat, maxRecord: nat, b: Batch,
                  done: seq<Piece>, rest: seq<Piece>) returns (j: nat, to: nat)
    requires store != [] && Exact(store, cursor, maxBatch, maxRecord, b, done, rest)
    ensures Start(store, cursor).0 <= j < |store| && to <= |store[j].bytes|
    ensures Remaining(store, Start(store, cursor).0, Start(store, cursor).1)
            == b.records + Skipped(rest, maxRecord) + Remaining(store, j, to)
    ensures b.next.Some? ==> b.next.value == Cursor(store[j].number, to)
    ensures b.next.None? ==> (j, to) == (Start(store, cursor).0, Start(store, cursor).1)
  {
    var (i, off, refused) := Start(store, cursor);
    var ps := PiecesFrom(store, i, off);
    var skips := rest != [] && |rest[0].text| > maxRecord;
    var n := if skips then |done| + 1 else |done|;
    PrefixOfJoin(done, rest);
    TakenText(done, rest, maxBatch, maxRecord, b.records);
    Moved(store, cursor, maxBatch, maxRecord, b, done, rest);
    hide PiecesFrom, Texts, Remaining, Taken, Blocks, Exact, Reached, Start;
    j, to := After(store, i, off, n);
  }

  /** The lines a read is done with are the returned ones and the skipped one. */
  lemma TakenText(done: seq<Piece>, rest: seq<Piece>, maxBatch: nat, maxRecord: nat, records: Bytes)
    requires Taken(done, maxBatch, maxRecord, records)
    ensures var skips := rest != [] && |rest[0].text| > maxRecord;
            var n := if skips then |done| + 1 else |done|;
            n <= |done + rest| && Texts((done + rest)[..n]) == records + Skipped(rest, maxRecord)
  {
    PrefixOfJoin(done, rest);
    if rest != [] && |rest[0].text| > maxRecord {
      PrefixText(done + rest, |done|, |done| + 1);
    } else {
      assert records + [] == records;
    }
  }

  lemma Moved(store: seq<Stored>, cursor: Option<Cursor>, maxBatch: nat, maxRecord: nat, b: Batch,
              done: seq<Piece>, rest: seq<Piece>)
    requires store != [] && Exact(store, cursor, maxBatch, maxRecord, b, done, rest)
    ensures var (i, off, refused) := Start(store, cursor);
            var skips := rest != [] && |rest[0].text| > maxRecord;
            var n := if skips then |done| + 1 else |done|;
            && PiecesFrom(store, i, off) == done + rest && n <= |done + rest|
            && Taken(done, maxBatch, maxRecord, b.records)
            && (n > 0 ==> b.next == Some((done + rest)[n - 1].end))
            && (n == 0 && b.next.Some? ==> b.next.value == Cursor(store[i].number, off))
  {
    hide PiecesFrom, Texts, Blocks, Taken;
  }

  lemma PrefixOfJoin(done: seq<Piece>, rest: seq<Piece>)
    ensures (done + rest)[..|done|] == done
    ensures rest != [] ==> (done + rest)[|done|] == rest[0]
  {}

  /** The oversized line behind the returned records, if that is what ended the read. */
  function Skipped(rest: seq<Piece>, maxRecord: nat): Bytes
  {
    if rest != [] && |rest[0].text| > maxRecord then rest[0].text else []
  }
}
