/** What every step of every worker, every failure and every crash keeps of the committed frames. */
module ArchiveSafety {
  import opened Wrappers
  import opened ArchiveDisk
  import opened ArchiveLedger
  import F = FileSystem

  // ----- rows -----

  predicate RowOk(world: World, rows: seq<Row>, i: nat)
    requires i < |rows|
  {
    && rows[i].start == |Text(rows[..i])| && rows[i].end == rows[i].start + |rows[i].data|
    && 0 < |rows[i].data| <= MAX_COMPRESSED_FRAME_BYTES && rows[i].hash == world.digest(rows[i].data)
  }

  /** The frames of one file lie end to end, in commit order. */
  ghost predicate RowsOk(world: World, rows: seq<Row>)
  {
    forall i | 0 <= i < |rows| :: RowOk(world, rows, i)
  }

  lemma {:induction false} EndOf(world: World, rows: seq<Row>, i: nat)
    requires RowsOk(world, rows) && i < |rows|
    ensures rows[i].end == |Text(rows[..i + 1])|
    ensures rows[..i + 1][..i] == rows[..i]
  {
    assert RowOk(world, rows, i);
    assert rows[..i + 1][..i] == rows[..i];
  }

  /** The row with the greatest end is the last one, and it ends where the text ends. */
  lemma FinalIsLast(world: World, rows: seq<Row>, row: Row)
    requires RowsOk(world, rows) && Final(rows, row)
    ensures row == rows[|rows| - 1]
    ensures row.start < row.end == |Text(rows)| && Text(rows)[row.start..row.end] == row.data
    ensures row.end - row.start <= MAX_COMPRESSED_FRAME_BYTES && row.hash == world.digest(row.data)
  {
    var i :| 0 <= i < |rows| && rows[i] == row;
    var n := |rows| - 1;
    assert RowOk(world, rows, n);
    EndOf(world, rows, n);
    assert rows[..n + 1] == rows;
    if i < n {
      EndsRise(world, rows, i, n);
    }
  }

  lemma {:induction false} EndsRise(world: World, rows: seq<Row>, i: nat, j: nat)
    requires RowsOk(world, rows) && i < j < |rows|
    ensures rows[i].end < rows[j].end
    decreases j - i
  {
    EndOf(world, rows, i);
    EndOf(world, rows, j - 1);
    assert RowOk(world, rows, j);
    if i < j - 1 {
      EndsRise(world, rows, i, j - 1);
    }
  }

  lemma RowsExtend(world: World, rows: seq<Row>, f: Frame)
    requires RowsOk(world, rows) && f.start == |Text(rows)| && 0 < |f.data| <= MAX_COMPRESSED_FRAME_BYTES
    ensures var rows' := rows + [Row(f.start, f.start + |f.data|, world.digest(f.data), f.data)];
            RowsOk(world, rows') && Text(rows') == Text(rows) + f.data
  {
    var rows' := rows + [Row(f.start, f.start + |f.data|, world.digest(f.data), f.data)];
    assert rows'[..|rows|] == rows;
    forall i | 0 <= i < |rows'| ensures RowOk(world, rows', i) {
      if i < |rows| {
        assert RowOk(world, rows, i);
        assert rows'[..i] == rows[..i];
      }
    }
  }

  // ----- what holds in every state -----

  ghost predicate Firm(d: Disk, k: Key) { k in d.files && forall e :: (k, e) !in d.olds }

  /** The committed frames are the synced beginning of a file whose name is durable. */
  ghost predicate Durable(d: Disk, ledger: Ledger, k: Key)
  {
    Firm(d, k) && |Committed(ledger, k)| <= d.files[k].synced <= |d.files[k].bytes| && Committed(ledger, k) <= d.files[k].bytes
  }

  ghost predicate BaseInv(world: World, d: Disk, ledger: Ledger)
  {
    && Sound(d)
    && (forall k | k in ledger :: RowsOk(world, ledger[k]))
    && (forall k | RowsOf(ledger, k) != [] :: Durable(d, ledger, k))
  }

  /** A call that keeps its hands off committed bytes. */
  predicate Gentle(d: Disk, ledger: Ledger, c: Call)
  {
    match c
    case CreateFile(k) => k.stream in d.dirs && d.dirs[k.stream]
    case SetLen(k, len) => |Committed(ledger, k)| <= len
    case Remove(k) => RowsOf(ledger, k) == []
    case _ => true
  }

  lemma GentleKeeps(world: World, d: Disk, ledger: Ledger, c: Call)
    requires BaseInv(world, d, ledger) && Possible(d, c) && Gentle(d, ledger, c)
    ensures BaseInv(world, Do(d, c), ledger)
  {
    var d' := Do(d, c);
    forall k | RowsOf(ledger, k) != [] ensures Durable(d', ledger, k) {
      assert Durable(d, ledger, k);
    }
  }

  lemma PartlyKeeps(world: World, d: Disk, ledger: Ledger, c: Call, d': Disk)
    requires BaseInv(world, d, ledger) && Possible(d, c) && Gentle(d, ledger, c) && Partly(d, c, d')
    ensures BaseInv(world, d', ledger)
  {
    hide BaseInv;
    if d' == Do(d, c) {
      GentleKeeps(world, d, ledger, c);
    } else if d' != d {
      var n: nat :| n <= |c.bytes| && d' == Do(d, Append(c.key, c.bytes[..n]));
      GentleKeeps(world, d, ledger, Append(c.key, c.bytes[..n]));
    }
  }

  lemma CrashKeeps(world: World, d: Disk, ledger: Ledger, d': Disk)
    requires BaseInv(world, d, ledger) && Crash(d, d')
    ensures BaseInv(world, d', ledger)
  {
    forall k | RowsOf(ledger, k) != [] ensures Durable(d', ledger, k) {
      assert Durable(d, ledger, k);
      assert k in d'.files;
      assert From(d, k, d'.files[k]);
      var f :| ((k in d.files && f == d.files[k]) || (k, Some(f)) in d.olds) && F.CrashFile(f, d'.files[k]);
    }
    forall k | k in d'.files ensures F.FileOk(d'.files[k]) {
      assert From(d, k, d'.files[k]);
    }
  }

  lemma RetainedKeeps(world: World, d: Disk, ledger: Ledger, cutoff: nat)
    requires BaseInv(world, d, ledger)
    ensures BaseInv(world, d, Retained(ledger, cutoff))
    ensures forall k: Key | k.day >= cutoff :: RowsOf(Retained(ledger, cutoff), k) == RowsOf(ledger, k)
    ensures forall k: Key | k.day < cutoff :: RowsOf(Retained(ledger, cutoff), k) == []
  {
    var kept := Retained(ledger, cutoff);
    forall k | RowsOf(kept, k) != [] ensures Durable(d, kept, k) {
      assert Durable(d, ledger, k);
    }
  }
}
