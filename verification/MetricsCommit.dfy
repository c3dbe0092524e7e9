/** The capped store of metric snapshots: one commit replaces the snapshots of a target's seats. */
module MetricsCommit {
  import opened Wrappers
  import opened Sums

  const MAX_METRIC_STATE_BYTES := 64 * 1024 * 1024
  const MAX_METRIC_STATE_SAMPLES := 200_000
  const MAX_ROW_BYTES := 4 * 1024 * 1024

  type TargetId = nat
  type Seat = nat

  datatype SeatKey = SeatKey(target: TargetId, seat: Seat)

  /** A stored row: its encoded length, its sample count and what it holds. */
  datatype Snapshot = Snapshot(bytes: nat, samples: nat, content: nat)

  type Snapshots = map<SeatKey, Snapshot>

  datatype SeatSnapshot = SeatSnapshot(seat: Seat, row: Snapshot)

  datatype Commit = Commit(listed: Option<set<Seat>>, snapshots: seq<SeatSnapshot>, complete: bool)

  datatype Outcome = Committed | Saturated | Stale

  ghost function Bytes(t: Snapshots): nat { Sum(t, (s: Snapshot) => s.bytes) }

  ghost function Samples(t: Snapshots): nat { Sum(t, (s: Snapshot) => s.samples) }

  ghost predicate WithinCaps(t: Snapshots) { Bytes(t) <= MAX_METRIC_STATE_BYTES && Samples(t) <= MAX_METRIC_STATE_SAMPLES }

  // ----- the loop -----

  /** The loop's variables. */
  datatype Totals = Totals(table: Snapshots, bytes: int, samples: int, saturated: bool)

  /** The stored size of a seat before the loop. */
  function OldOf(existing: map<Seat, Snapshot>, seat: Seat): (nat, nat)
  {
    if seat in existing then (existing[seat].bytes, existing[seat].samples) else (0, 0)
  }

  predicate Fits(st: Totals, existing: map<Seat, Snapshot>, s: SeatSnapshot)
  {
    var (oldBytes, oldSamples) := OldOf(existing, s.seat);
    && st.bytes - oldBytes + s.row.bytes <= MAX_METRIC_STATE_BYTES
    && st.samples - oldSamples + s.row.samples <= MAX_METRIC_STATE_SAMPLES
  }

  /** One snapshot: stored with the totals moved on, or skipped. */
  function Apply(st: Totals, target: TargetId, existing: map<Seat, Snapshot>, s: SeatSnapshot): Totals
  {
    if !Fits(st, existing, s) then st.(saturated := true) else
    var (oldBytes, oldSamples) := OldOf(existing, s.seat);
    Totals(st.table[SeatKey(target, s.seat) := s.row], st.bytes - oldBytes + s.row.bytes,
           st.samples - oldSamples + s.row.samples, st.saturated)
  }

  function ApplyAll(st: Totals, target: TargetId, existing: map<Seat, Snapshot>, snapshots: seq<SeatSnapshot>): Totals
  {
    if snapshots == [] then st
    else Apply(ApplyAll(st, target, existing, snapshots[..|snapshots| - 1]), target, existing, snapshots[|snapshots| - 1])
  }

  predicate DistinctSeats(snapshots: seq<SeatSnapshot>)
  {
    forall i, j | 0 <= i < j < |snapshots| :: snapshots[i].seat != snapshots[j].seat
  }

  /** `existing` are the target's rows in the table. */
  ghost predicate ExistingOf(table: Snapshots, target: TargetId, existing: map<Seat, Snapshot>)
  {
    forall seat: Seat :: (seat in existing <==> SeatKey(target, seat) in table)
                         && (seat in existing ==> existing[seat] == table[SeatKey(target, seat)])
  }

  ghost predicate Exact(st: Totals) { st.bytes == Bytes(st.table) && st.samples == Samples(st.table) && WithinCaps(st.table) }

  lemma ApplyExact(st: Totals, target: TargetId, existing: map<Seat, Snapshot>, s: SeatSnapshot)
    requires Exact(st) && (s.seat in existing <==> SeatKey(target, s.seat) in st.table)
    requires s.seat in existing ==> existing[s.seat] == st.table[SeatKey(target, s.seat)]
    ensures Exact(Apply(st, target, existing, s))
  {
    var k := SeatKey(target, s.seat);
    SumPut(st.table, (r: Snapshot) => r.bytes, k, s.row);
    SumPut(st.table, (r: Snapshot) => r.samples, k, s.row);
  }

  /** A seat that has not come up yet still has the row it had before the loop. */
  lemma {:induction false} Untouched(st: Totals, target: TargetId, existing: map<Seat, Snapshot>,
                                     snapshots: seq<SeatSnapshot>, seat: Seat)
    requires ExistingOf(st.table, target, existing) && forall i | 0 <= i < |snapshots| :: snapshots[i].seat != seat
    ensures var table := ApplyAll(st, target, existing, snapshots).table;
            (seat in existing <==> SeatKey(target, seat) in table)
            && (seat in existing ==> existing[seat] == table[SeatKey(target, seat)])
  {
    if snapshots != [] {
      Untouched(st, target, existing, snapshots[..|snapshots| - 1], seat);
    }
  }

  /** With distinct seats the running totals are the recomputed sums, and they stay within both caps. */
  lemma {:induction false} TotalsExact(st: Totals, target: TargetId, existing: map<Seat, Snapshot>,
                                       snapshots: seq<SeatSnapshot>)
    requires Exact(st) && ExistingOf(st.table, target, existing) && DistinctSeats(snapshots)
    ensures Exact(ApplyAll(st, target, existing, snapshots))
  {
    if snapshots != [] {
      var before, last := snapshots[..|snapshots| - 1], snapshots[|snapshots| - 1];
      TotalsExact(st, target, existing, before);
      Untouched(st, target, existing, before, last.seat);
      ApplyExact(ApplyAll(st, target, existing, before), target, existing, last);
    }
  }

  /** A replacement no larger than the row it replaces is stored. */
  lemma ReplacementStored(st: Totals, target: TargetId, existing: map<Seat, Snapshot>, snapshots: seq<SeatSnapshot>, i: nat)
    requires Exact(st) && ExistingOf(st.table, target, existing) && DistinctSeats(snapshots) && i < |snapshots|
    requires var s := snapshots[i];
             s.seat in existing && s.row.bytes <= existing[s.seat].bytes && s.row.samples <= existing[s.seat].samples
    ensures Fits(ApplyAll(st, target, existing, snapshots[..i]), existing, snapshots[i])
    ensures var k := SeatKey(target, snapshots[i].seat);
            k in ApplyAll(st, target, existing, snapshots).table
            && ApplyAll(st, target, existing, snapshots).table[k] == snapshots[i].row
  {
    TotalsExact(st, target, existing, snapshots[..i]);
    assert snapshots[..i + 1][..i] == snapshots[..i];
    StaysStored(st, target, existing, snapshots, i, |snapshots|);
    assert snapshots[..|snapshots|] == snapshots;
  }

  lemma {:induction false} StaysStored(st: Totals, target: TargetId, existing: map<Seat, Snapshot>,
                                       snapshots: seq<SeatSnapshot>, i: nat, n: nat)
    requires DistinctSeats(snapshots) && i < n <= |snapshots|
    requires Fits(ApplyAll(st, target, existing, snapshots[..i]), existing, snapshots[i])
    ensures var k := SeatKey(target, snapshots[i].seat);
            k in ApplyAll(st, target, existing, snapshots[..n]).table
            && ApplyAll(st, target, existing, snapshots[..n]).table[k] == snapshots[i].row
    decreases n
  {
    assert snapshots[..n][..n - 1] == snapshots[..n - 1];
    if i < n - 1 {
      StaysStored(st, target, existing, snapshots, i, n - 1);
    }
  }

  /** The snapshot at `i` was skipped. */
  predicate SkipAt(st: Totals, target: TargetId, existing: map<Seat, Snapshot>, snapshots: seq<SeatSnapshot>, i: nat)
    requires i < |snapshots|
  {
    !Fits(ApplyAll(st, target, existing, snapshots[..i]), existing, snapshots[i])
  }

  /** The commit reports saturation exactly when a snapshot was skipped. */
  lemma {:induction false} SkippedIsRemembered(st: Totals, target: TargetId, existing: map<Seat, Snapshot>,
                                               snapshots: seq<SeatSnapshot>)
    requires !st.saturated
    ensures ApplyAll(st, target, existing, snapshots).saturated <==>
              exists i: nat | i < |snapshots| :: SkipAt(st, target, existing, snapshots, i)
  {
    if snapshots != [] {
      var n := |snapshots| - 1;
      var before := snapshots[..n];
      SkippedIsRemembered(st, target, existing, before);
      assert ApplyAll(st, target, existing, snapshots).saturated
             <==> ApplyAll(st, target, existing, before).saturated || SkipAt(st, target, existing, snapshots, n);
      forall i: nat | i < n
        ensures SkipAt(st, target, existing, before, i) <==> SkipAt(st, target, existing, snapshots, i)
      {
        assert before[..i] == snapshots[..i];
      }
      hide SkipAt, ApplyAll;
    }
  }

  // ----- exactly when the totals are right -----

  predicate AllDifferent(seats: seq<Seat>)
  {
    forall i, j | 0 <= i < j < |seats| :: seats[i] != seats[j]
  }

  predicate SeatsAre(snapshots: seq<SeatSnapshot>, seats: seq<Seat>)
  {
    |snapshots| == |seats| && forall i | 0 <= i < |seats| :: snapshots[i].seat == seats[i]
  }

  /** From every table with right totals, snapshots of these seats leave right totals, whatever rows they carry. */
  ghost predicate AlwaysExact(seats: seq<Seat>)
  {
    forall st: Totals, target: TargetId, existing: map<Seat, Snapshot>, snapshots: seq<SeatSnapshot>
      | Exact(st) && ExistingOf(st.table, target, existing) && SeatsAre(snapshots, seats) ::
      Exact(ApplyAll(st, target, existing, snapshots))
  }

  /** One byte for the snapshot at `i`, none for the others. */
  function OneByte(seats: seq<Seat>, i: nat): (r: seq<SeatSnapshot>)
    ensures SeatsAre(r, seats)
    ensures forall k | 0 <= k < |seats| :: r[k].row == Snapshot(if k == i then 1 else 0, 0, 0)
  {
    seq(|seats|, k requires 0 <= k < |seats| => SeatSnapshot(seats[k], Snapshot(if k == i then 1 else 0, 0, 0)))
  }

  /** The byte is counted when it comes and stays counted, but a later row of the same seat replaces it. */
  lemma {:induction false} ByteCounted(seats: seq<Seat>, i: nat, j: nat, target: TargetId, n: nat)
    requires i < j < |seats| && seats[i] == seats[j] && n <= |seats|
    ensures var end := ApplyAll(Totals(map[], 0, 0, false), target, map[], OneByte(seats, i)[..n]);
            && end.bytes == (if n > i then 1 else 0) && end.samples == 0
            && (forall k | k in end.table && (n > j || k != SeatKey(target, seats[i])) :: end.table[k].bytes == 0)
    decreases n
  {
    if n > 0 {
      var all := OneByte(seats, i);
      ByteCounted(seats, i, j, target, n - 1);
      assert all[..n][..n - 1] == all[..n - 1];
    }
  }

  lemma RepeatedSeatDrifts(seats: seq<Seat>, i: nat, j: nat)
    requires i < j < |seats| && seats[i] == seats[j]
    ensures !AlwaysExact(seats)
  {
    var start, all := Totals(map[], 0, 0, false), OneByte(seats, i);
    var end := ApplyAll(start, 0, map[], all);
    ByteCounted(seats, i, j, 0, |seats|);
    assert all[..|seats|] == all;
    SumZero(end.table, (r: Snapshot) => r.bytes);
    assert !Exact(end);
    assert Exact(start) && ExistingOf(start.table, 0, map[]);
  }

  /** The totals are right for all rows and all tables if and only if no seat comes twice. */
  lemma ExactIffDifferent(seats: seq<Seat>)
    ensures AlwaysExact(seats) <==> AllDifferent(seats)
  {
    if AllDifferent(seats) {
      forall st: Totals, target: TargetId, existing: map<Seat, Snapshot>, snapshots: seq<SeatSnapshot>
        | Exact(st) && ExistingOf(st.table, target, existing) && SeatsAre(snapshots, seats)
        ensures Exact(ApplyAll(st, target, existing, snapshots))
      {
        TotalsExact(st, target, existing, snapshots);
      }
    } else {
      var i, j :| 0 <= i < j < |seats| && seats[i] == seats[j];
      RepeatedSeatDrifts(seats, i, j);
    }
  }

  /** Seats that come twice in one commit make the totals drift from the sums. */
  lemma DuplicateSeatsDrift()
    ensures var st := Totals(map[SeatKey(1, 1) := Snapshot(10, 1, 0)], 10, 1, false);
            var existing := map[1 := Snapshot(10, 1, 0)];
            var again := [SeatSnapshot(1, Snapshot(20, 1, 0)), SeatSnapshot(1, Snapshot(20, 1, 0))];
            && Exact(st) && ExistingOf(st.table, 1, existing)
            && ApplyAll(st, 1, existing, again).bytes == 30 && Bytes(ApplyAll(st, 1, existing, again).table) == 20
  {
    var k := SeatKey(1, 1);
    var st := Totals(map[k := Snapshot(10, 1, 0)], 10, 1, false);
    var existing := map[1 := Snapshot(10, 1, 0)];
    var s := SeatSnapshot(1, Snapshot(20, 1, 0));
    var again := [s, s];
    assert again[..1] == [s] && [s][..0] == [];
    assert ApplyAll(st, 1, existing, [s]) == Apply(st, 1, existing, s);
    var end := ApplyAll(st, 1, existing, again);
    assert end.table == map[k := Snapshot(20, 1, 0)];
    SumSplit(st.table, (r: Snapshot) => r.bytes, k);
    SumSplit(st.table, (r: Snapshot) => r.samples, k);
    SumSplit(end.table, (r: Snapshot) => r.bytes, k);
    assert st.table - {k} == map[] && end.table - {k} == map[];
  }

  // ----- the commit -----

  function RowsOf(table: Snapshots, target: TargetId): map<Seat, Snapshot>
  {
    map k | k in table && k.target == target :: k.seat := table[k]
  }

  lemma RowsAreExisting(table: Snapshots, target: TargetId)
    ensures ExistingOf(table, target, RowsOf(table, target))
  {
    forall seat: Seat
      ensures (seat in RowsOf(table, target) <==> SeatKey(target, seat) in table)
              && (seat in RowsOf(table, target) ==> RowsOf(table, target)[seat] == table[SeatKey(target, seat)])
    {
      if SeatKey(target, seat) in table { assert SeatKey(target, seat).seat == seat; }
    }
  }

  /** Rows of targets whose lease is over, and rows of seats that are no longer listed, go first. */
  function Trimmed(table: Snapshots, dead: set<TargetId>, target: TargetId, listed: Option<set<Seat>>): Snapshots
  {
    map k | k in table && k.target !in dead && (listed.Some? && k.target == target ==> k.seat in listed.value) :: table[k]
  }

  /** Seats that have a row come before new ones, otherwise in the given order. */
  function ExistingFirst(snapshots: seq<SeatSnapshot>, existing: map<Seat, Snapshot>): seq<SeatSnapshot>
  {
    Having(snapshots, existing, true) + Having(snapshots, existing, false)
  }

  function Having(snapshots: seq<SeatSnapshot>, existing: map<Seat, Snapshot>, has: bool): seq<SeatSnapshot>
  {
    if snapshots == [] then [] else
    var last := snapshots[|snapshots| - 1];
    Having(snapshots[..|snapshots| - 1], existing, has) + (if (last.seat in existing) == has then [last] else [])
  }

  lemma {:induction false} HavingOnly(snapshots: seq<SeatSnapshot>, existing: map<Seat, Snapshot>, has: bool)
    ensures forall s | s in Having(snapshots, existing, has) :: s in snapshots && ((s.seat in existing) == has)
    ensures DistinctSeats(snapshots) ==> DistinctSeats(Having(snapshots, existing, has))
  {
    if snapshots != [] {
      HavingOnly(snapshots[..|snapshots| - 1], existing, has);
    }
  }

  lemma OrderKeepsDistinct(snapshots: seq<SeatSnapshot>, existing: map<Seat, Snapshot>)
    requires DistinctSeats(snapshots)
    ensures DistinctSeats(ExistingFirst(snapshots, existing))
  {
    var a := Having(snapshots, existing, true);
    var b := Having(snapshots, existing, false);
    HavingOnly(snapshots, existing, true);
    HavingOnly(snapshots, existing, false);
    var ordered: seq<SeatSnapshot> := a + b;
    forall i, j | 0 <= i < j < |ordered| ensures ordered[i].seat != ordered[j].seat {
      if i < |a| <= j { assert a[i] in a && b[j - |a|] in b; }
    }
  }

  ghost function TotalsOf(table: Snapshots): Totals { Totals(table, Bytes(table), Samples(table), false) }

  /** What a commit that goes through makes of the table. */
  ghost function CommitResult(table: Snapshots, dead: set<TargetId>, target: TargetId, c: Commit): Totals
  {
    var trimmed := Trimmed(table, dead, target, c.listed);
    var existing := RowsOf(trimmed, target);
    ApplyAll(TotalsOf(trimmed), target, existing, ExistingFirst(c.snapshots, existing))
  }

  /** The listing of a target is replaced as a whole. */
  function Relisted(listed: set<SeatKey>, target: TargetId, seats: Option<set<Seat>>): set<SeatKey>
  {
    if seats.None? then listed else
    (set k | k in listed && k.target != target) + set seat | seat in seats.value :: SeatKey(target, seat)
  }

  class MetricStore {
    var snapshots: Snapshots
    var listed: set<SeatKey>
    var completed: map<TargetId, int>
    var revision: nat

    constructor ()
      ensures snapshots == map[] && listed == {} && completed == map[] && revision == 0
    {
      snapshots, listed, completed, revision := map[], {}, map[], 0;
    }

    /** `SUM(length(samples_json))` and `SUM(sample_count)` */
    method SumTotals(table: Snapshots) returns (bytes: nat, samples: nat)
      ensures bytes == Bytes(table) && samples == Samples(table)
    {
      bytes, samples := 0, 0;
      var left := table;
      while left != map[]
        invariant bytes + Bytes(left) == Bytes(table) && samples + Samples(left) == Samples(table)
        decreases left.Keys
      {
        var k :| k in left;
        SumSplit(left, (s: Snapshot) => s.bytes, k);
        SumSplit(left, (s: Snapshot) => s.samples, k);
        bytes, samples := bytes + left[k].bytes, samples + left[k].samples;
        left := left - {k};
      }
    }

    /** `sort_by_key`, stable, by whether the seat is new */
    method SortExistingFirst(snapshots: seq<SeatSnapshot>, existing: map<Seat, Snapshot>) returns (r: seq<SeatSnapshot>)
      ensures r == ExistingFirst(snapshots, existing)
    {
      var old', new' := [], [];
      for i := 0 to |snapshots|
        invariant old' == Having(snapshots[..i], existing, true) && new' == Having(snapshots[..i], existing, false)
      {
        assert snapshots[..i + 1][..i] == snapshots[..i];
        if snapshots[i].seat in existing { old' := old' + [snapshots[i]]; } else { new' := new' + [snapshots[i]]; }
      }
      assert snapshots[..|snapshots|] == snapshots;
      r := old' + new';
    }

    /** The loop over the snapshots. It gives up at a row that is too long. */
    method ApplySnapshots(target: TargetId, existing: map<Seat, Snapshot>, ordered: seq<SeatSnapshot>, start: Totals)
      returns (end: Option<Totals>)
      ensures end.None? <==> exists s | s in ordered :: s.row.bytes > MAX_ROW_BYTES
      ensures end.Some? ==> end.value == ApplyAll(start, target, existing, ordered)
    {
      var table, bytes, samples, saturated := start.table, start.bytes, start.samples, start.saturated;
      for i := 0 to |ordered|
        invariant Totals(table, bytes, samples, saturated) == ApplyAll(start, target, existing, ordered[..i])
        invariant forall j | 0 <= j < i :: ordered[j].row.bytes <= MAX_ROW_BYTES
      {
        var s := ordered[i];
        assert ordered[..i + 1][..i] == ordered[..i];
        if s.row.bytes > MAX_ROW_BYTES { return None; }
        var (oldBytes, oldSamples) := OldOf(existing, s.seat);
        var nextBytes, nextSamples := bytes - oldBytes + s.row.bytes, samples - oldSamples + s.row.samples;
        if nextBytes > MAX_METRIC_STATE_BYTES || nextSamples > MAX_METRIC_STATE_SAMPLES {
          saturated := true;
          continue;
        }
        bytes, samples := nextBytes, nextSamples;
        table := table[SeatKey(target, s.seat) := s.row];
      }
      assert ordered[..|ordered|] == ordered;
      end := Some(Totals(table, bytes, samples, saturated));
    }

    /**
     `commit_metrics`. `current` is the registration fence, `dead` the targets whose lease is over. A stale
     commit and one with an oversized row are rolled back.
     */
    method CommitMetrics(current: bool, dead: set<TargetId>, target: TargetId, c: Commit, now: int)
      returns (r: Result<Outcome, ()>)
      modifies this
      ensures r.Err? <==> current && exists s | s in c.snapshots :: s.row.bytes > MAX_ROW_BYTES
      ensures r == Ok(Stale) <==> !current
      ensures r.Err? || r == Ok(Stale) ==>
                snapshots == old(snapshots) && listed == old(listed) && completed == old(completed) && revision == old(revision)
      ensures r.Ok? && current ==>
                && snapshots == CommitResult(old(snapshots), dead, target, c).table
                && (r.value == Saturated <==> CommitResult(old(snapshots), dead, target, c).saturated)
                && revision == old(revision) + 1
                && completed == (if c.complete && r.value == Committed then old(completed)[target := now] else old(completed))
                && listed == Relisted(old(listed), target, c.listed)
    {
      hide ApplyAll, ExistingFirst, Trimmed, RowsOf, Bytes, Samples, Relisted;
      if !current { return Ok(Stale); }
      var table := Trimmed(snapshots, dead, target, c.listed);
      var bytes, samples := SumTotals(table);
      var existing := RowsOf(table, target);
      var ordered := SortExistingFirst(c.snapshots, existing);
      var end := ApplySnapshots(target, existing, ordered, Totals(table, bytes, samples, false));
      forall s ensures s in ordered <==> s in c.snapshots { OrderedAreGiven(c.snapshots, existing, s); }
      if end.None? { return Err(()); }
      var saturated := end.value.saturated;
      listed := Relisted(listed, target, c.listed);
      snapshots := end.value.table;
      if c.complete && !saturated { completed := completed[target := now]; }
      revision := revision + 1;
      r := Ok(if saturated then Saturated else Committed);
    }
  }

  lemma {:induction false} HavingAll(snapshots: seq<SeatSnapshot>, existing: map<Seat, Snapshot>, s: SeatSnapshot)
    ensures s in snapshots ==> s in Having(snapshots, existing, s.seat in existing)
  {
    if snapshots != [] {
      HavingAll(snapshots[..|snapshots| - 1], existing, s);
    }
  }

  lemma OrderedAreGiven(snapshots: seq<SeatSnapshot>, existing: map<Seat, Snapshot>, s: SeatSnapshot)
    ensures s in ExistingFirst(snapshots, existing) <==> s in snapshots
  {
    HavingOnly(snapshots, existing, true);
    HavingOnly(snapshots, existing, false);
    HavingAll(snapshots, existing, s);
  }

  // ----- which rows a commit changes -----

  /** A row that no snapshot is for stays as it is. */
  lemma {:induction false} OtherRowsStay(st: Totals, target: TargetId, existing: map<Seat, Snapshot>,
                                         snapshots: seq<SeatSnapshot>, k: SeatKey)
    requires forall s | s in snapshots :: k != SeatKey(target, s.seat)
    ensures var end := ApplyAll(st, target, existing, snapshots).table;
            (k in end <==> k in st.table) && (k in end ==> end[k] == st.table[k])
  {
    if snapshots != [] {
      assert snapshots[|snapshots| - 1] in snapshots;
      OtherRowsStay(st, target, existing, snapshots[..|snapshots| - 1], k);
    }
  }

  /**
   Of the rows that a commit has no snapshot for, exactly those of targets whose lease is over and those of the
   target's own seats that are no longer listed go; all others, of other targets too, stay as they are.
   */
  lemma OthersKept(table: Snapshots, dead: set<TargetId>, target: TargetId, c: Commit, k: SeatKey)
    requires forall s | s in c.snapshots :: k != SeatKey(target, s.seat)
    ensures var end := CommitResult(table, dead, target, c).table;
            && (k in end <==> k in table && k.target !in dead
                              && (k.target != target || c.listed.None? || k.seat in c.listed.value))
            && (k in end ==> end[k] == table[k])
  {
    var trimmed := Trimmed(table, dead, target, c.listed);
    var existing := RowsOf(trimmed, target);
    forall s | s in ExistingFirst(c.snapshots, existing) ensures k != SeatKey(target, s.seat) {
      OrderedAreGiven(c.snapshots, existing, s);
    }
    OtherRowsStay(TotalsOf(trimmed), target, existing, ExistingFirst(c.snapshots, existing), k);
  }

  /** Unless the commit reports saturation, it stores every snapshot it carries. */
  lemma AllStored(table: Snapshots, dead: set<TargetId>, target: TargetId, c: Commit, s: SeatSnapshot)
    requires DistinctSeats(c.snapshots) && s in c.snapshots && !CommitResult(table, dead, target, c).saturated
    ensures var end := CommitResult(table, dead, target, c).table;
            SeatKey(target, s.seat) in end && end[SeatKey(target, s.seat)] == s.row
  {
    var trimmed := Trimmed(table, dead, target, c.listed);
    var existing := RowsOf(trimmed, target);
    var ordered := ExistingFirst(c.snapshots, existing);
    OrderKeepsDistinct(c.snapshots, existing);
    OrderedAreGiven(c.snapshots, existing, s);
    var i: nat :| i < |ordered| && ordered[i] == s;
    SkippedIsRemembered(TotalsOf(trimmed), target, existing, ordered);
    assert !SkipAt(TotalsOf(trimmed), target, existing, ordered, i);
    StaysStored(TotalsOf(trimmed), target, existing, ordered, i, |ordered|);
    assert ordered[..|ordered|] == ordered;
  }

  /** The listing of the target becomes the given one, if one is given; those of other targets stay. */
  lemma RelistedMeans(listed: set<SeatKey>, target: TargetId, seats: Option<set<Seat>>, k: SeatKey)
    ensures k in Relisted(listed, target, seats) <==>
              if k.target == target && seats.Some? then k.seat in seats.value else k in listed
  {
    if k.target == target && seats.Some? && k.seat in seats.value { assert k == SeatKey(target, k.seat); }
  }

  // ----- what it means, commit after commit -----

  /** A commit with distinct seats keeps the table within both caps, and its running totals are the true sums. */
  lemma CommitKeepsCaps(table: Snapshots, dead: set<TargetId>, target: TargetId, c: Commit)
    requires WithinCaps(table) && DistinctSeats(c.snapshots)
    ensures Exact(CommitResult(table, dead, target, c)) && WithinCaps(CommitResult(table, dead, target, c).table)
  {
    var trimmed := Trimmed(table, dead, target, c.listed);
    SumSubset(table, trimmed, (s: Snapshot) => s.bytes);
    SumSubset(table, trimmed, (s: Snapshot) => s.samples);
    var existing := RowsOf(trimmed, target);
    RowsAreExisting(trimmed, target);
    OrderKeepsDistinct(c.snapshots, existing);
    TotalsExact(TotalsOf(trimmed), target, existing, ExistingFirst(c.snapshots, existing));
  }

  /** A row that is replaced by one no larger is never skipped. */
  lemma SmallerReplacementCommitted(table: Snapshots, dead: set<TargetId>, target: TargetId, c: Commit, s: SeatSnapshot)
    requires WithinCaps(table) && DistinctSeats(c.snapshots) && s in c.snapshots
    requires var k := SeatKey(target, s.seat);
             && k in Trimmed(table, dead, target, c.listed)
             && s.row.bytes <= table[k].bytes && s.row.samples <= table[k].samples
    ensures var end := CommitResult(table, dead, target, c).table;
            SeatKey(target, s.seat) in end && end[SeatKey(target, s.seat)] == s.row
  {
    var trimmed := Trimmed(table, dead, target, c.listed);
    SumSubset(table, trimmed, (r: Snapshot) => r.bytes);
    SumSubset(table, trimmed, (r: Snapshot) => r.samples);
    var existing := RowsOf(trimmed, target);
    RowsAreExisting(trimmed, target);
    OrderKeepsDistinct(c.snapshots, existing);
    var ordered := ExistingFirst(c.snapshots, existing);
    OrderedAreGiven(c.snapshots, existing, s);
    var i: nat :| i < |ordered| && ordered[i] == s;
    ReplacementStored(TotalsOf(trimmed), target, existing, ordered, i);
  }

  /** Any number of commits with distinct seats, from an empty table. */
  lemma {:induction false} CapsHold(tables: seq<Snapshots>, commits: seq<(set<TargetId>, TargetId, Commit)>, i: nat)
    requires |tables| == |commits| + 1 && tables[0] == map[] && i < |tables|
    requires forall j | 0 <= j < |commits| ::
               && DistinctSeats(commits[j].2.snapshots)
               && tables[j + 1] == CommitResult(tables[j], commits[j].0, commits[j].1, commits[j].2).table
    ensures WithinCaps(tables[i])
  {
    if i > 0 {
      CapsHold(tables, commits, i - 1);
      CommitKeepsCaps(tables[i - 1], commits[i - 1].0, commits[i - 1].1, commits[i - 1].2);
    }
  }
}
