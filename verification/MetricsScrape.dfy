/** One scrape of a target: the list of its seats, and a snapshot of each seat that can be had. */
module MetricsScrape {
  import opened Wrappers
  import opened MetricsCommit

  const MAX_SEATS: nat := 64
  const MAX_TARGET_SNAPSHOT_BYTES: nat := 8 * 1024 * 1024

  /** What came of one seat: nothing, the end of the time there was, or samples of `size` bytes, perhaps without a time. */
  datatype Scraped =
    | Rejected
    | OutOfTime
    | Undated(size: nat)
    | Admitted(size: nat, row: Snapshot)

  function SeatSet(seats: seq<Seat>): set<Seat> { set s | s in seats }

  /** The loop's variables. */
  datatype Scan = Scan(snapshots: seq<SeatSnapshot>, complete: bool, total: nat, over: bool)

  function ScanSeat(st: Scan, seat: Seat, result: Scraped): Scan
  {
    if st.over then st else
    match result
    case Rejected => st.(complete := false)
    case OutOfTime => st.(complete := false, over := true)
    case Undated(size) => st.(complete := false, total := st.total + size)
    case Admitted(size, row) =>
      var total := st.total + size;
      if total > MAX_TARGET_SNAPSHOT_BYTES then st.(complete := false, total := total)
      else st.(snapshots := st.snapshots + [SeatSnapshot(seat, row)], total := total)
  }

  function ScanAll(seats: seq<Seat>, results: seq<Scraped>): Scan
    requires |seats| == |results|
  {
    if seats == [] then Scan([], true, 0, false)
    else ScanSeat(ScanAll(seats[..|seats| - 1], results[..|seats| - 1]), seats[|seats| - 1], results[|seats| - 1])
  }

  /** What the poller commits. A list that is too long or names a seat twice is a failed scrape. */
  function ScrapeCommit(seats: seq<Seat>, results: seq<Scraped>): Commit
    requires |seats| == |results|
  {
    if |seats| > MAX_SEATS || !AllDifferent(seats) then Commit(None, [], false)
    else Commit(Some(SeatSet(seats)), ScanAll(seats, results).snapshots, ScanAll(seats, results).complete)
  }

  // ----- the code -----

  /** The comparison of lengths finds every seat that comes twice. */
  method ListSeats(seats: seq<Seat>) returns (listed: Option<set<Seat>>)
    ensures listed == if AllDifferent(seats) then Some(SeatSet(seats)) else None
  {
    var found: set<Seat> := {};
    for i := 0 to |seats|
      invariant found == SeatSet(seats[..i])
      invariant |found| <= i && (|found| == i <==> AllDifferent(seats[..i]))
    {
      NextSeat(seats, i);
      found := found + {seats[i]};
    }
    assert seats[..|seats|] == seats;
    listed := if |found| != |seats| then None else Some(found);
  }

  lemma NextSeat(seats: seq<Seat>, i: nat)
    requires i < |seats|
    ensures SeatSet(seats[..i + 1]) == SeatSet(seats[..i]) + {seats[i]}
    ensures AllDifferent(seats[..i + 1]) <==> AllDifferent(seats[..i]) && seats[i] !in seats[..i]
  {
    var before, after := seats[..i], seats[..i + 1];
    assert after == before + [seats[i]];
    if AllDifferent(after) {
      forall a, b | 0 <= a < b < i ensures before[a] != before[b] { assert after[a] == before[a] && after[b] == before[b]; }
      forall a | 0 <= a < i ensures before[a] != seats[i] { assert after[a] == before[a] && after[i] == seats[i]; }
    }
  }

  /** The part of `collect_target` from the list of seats on. */
  method Scrape(seats: seq<Seat>, results: seq<Scraped>) returns (c: Commit)
    requires |seats| == |results|
    ensures c == ScrapeCommit(seats, results)
  {
    if |seats| > MAX_SEATS { return Commit(None, [], false); }
    var listed := ListSeats(seats);
    if listed.None? { return Commit(None, [], false); }
    var snapshots: seq<SeatSnapshot>, complete, total: nat, over, i := [], true, 0, false, 0;
    while i < |seats| && !over
      invariant i <= |seats| && Scan(snapshots, complete, total, over) == ScanAll(seats[..i], results[..i])
    {
      PrefixScan(seats, results, i);
      hide ScanAll;
      match results[i] {
        case Rejected => complete := false;
        case OutOfTime => complete, over := false, true;
        case Undated(size) => complete, total := false, total + size;
        case Admitted(size, row) =>
          total := total + size;
          if total > MAX_TARGET_SNAPSHOT_BYTES {
            complete := false;
          } else {
            snapshots := snapshots + [SeatSnapshot(seats[i], row)];
          }
      }
      i := i + 1;
    }
    OverStays(seats, results, i);
    c := Commit(listed, snapshots, complete);
  }

  lemma PrefixScan(seats: seq<Seat>, results: seq<Scraped>, i: nat)
    requires |seats| == |results| && i < |seats|
    ensures ScanAll(seats[..i + 1], results[..i + 1]) == ScanSeat(ScanAll(seats[..i], results[..i]), seats[i], results[i])
  {
    assert seats[..i + 1][..i] == seats[..i] && results[..i + 1][..i] == results[..i];
  }

  /** Once the time is over nothing changes any more. */
  lemma {:induction false} OverStays(seats: seq<Seat>, results: seq<Scraped>, i: nat)
    requires |seats| == |results| && i <= |seats| && (i == |seats| || ScanAll(seats[..i], results[..i]).over)
    ensures ScanAll(seats, results) == ScanAll(seats[..i], results[..i])
    decreases |seats| - i
  {
    if i == |seats| {
      assert seats[..i] == seats && results[..i] == results;
    } else {
      PrefixScan(seats, results, i);
      OverStays(seats, results, i + 1);
    }
  }

  // ----- what it means -----

  /** Snapshots come from listed seats, in the order of the list, at most one each. */
  lemma {:induction false} ScanDistinct(seats: seq<Seat>, results: seq<Scraped>)
    requires |seats| == |results| && AllDifferent(seats)
    ensures DistinctSeats(ScanAll(seats, results).snapshots)
    ensures forall s | s in ScanAll(seats, results).snapshots :: s.seat in seats
  {
    if seats != [] {
      var n := |seats| - 1;
      var before, st := seats[..n], ScanAll(seats[..n], results[..n]);
      assert AllDifferent(before) && seats[n] !in before;
      ScanDistinct(before, results[..n]);
      forall s | s in ScanSeat(st, seats[n], results[n]).snapshots ensures s.seat in seats {
        if s in st.snapshots { assert s.seat in before; }
      }
      forall j | 0 <= j < |st.snapshots| ensures st.snapshots[j].seat != seats[n] {
        assert st.snapshots[j] in st.snapshots;
      }
    }
  }

  /** Whatever the target lists and whatever the seats answer, the commit's seats are distinct and listed. */
  lemma CommitIsDistinct(seats: seq<Seat>, results: seq<Scraped>)
    requires |seats| == |results|
    ensures var c := ScrapeCommit(seats, results);
            && DistinctSeats(c.snapshots) && (c.listed.None? ==> c.snapshots == [] && !c.complete)
            && (c.listed.None? <==> |seats| > MAX_SEATS || !AllDifferent(seats))
            && (c.listed.Some? ==> forall seat :: seat in c.listed.value <==> seat in seats)
            && (c.listed.Some? ==> forall s | s in c.snapshots :: s.seat in c.listed.value)
  {
    if AllDifferent(seats) {
      ScanDistinct(seats, results);
    }
  }

  /** A scrape is complete exactly if every seat gave samples and together they fit. */
  lemma {:induction false} CompleteMeans(seats: seq<Seat>, results: seq<Scraped>)
    requires |seats| == |results|
    ensures var st := ScanAll(seats, results);
            && (st.complete ==> !st.over && |st.snapshots| == |seats| && st.total <= MAX_TARGET_SNAPSHOT_BYTES)
            && (st.complete <==> |st.snapshots| == |seats|) && |st.snapshots| <= |seats|
            && (st.complete ==> forall i | 0 <= i < |seats| ::
                  results[i].Admitted? && st.snapshots[i] == SeatSnapshot(seats[i], results[i].row))
  {
    if seats != [] {
      CompleteMeans(seats[..|seats| - 1], results[..|seats| - 1]);
    }
  }

  /** How many bytes of samples came, all together. */
  function Sizes(results: seq<Scraped>): nat
  {
    if results == [] then 0 else
    var last := results[|results| - 1];
    Sizes(results[..|results| - 1]) + (if last.Undated? || last.Admitted? then last.size else 0)
  }

  predicate TimeLeft(results: seq<Scraped>) { forall j | 0 <= j < |results| :: !results[j].OutOfTime? }

  lemma {:induction false} ScanState(seats: seq<Seat>, results: seq<Scraped>)
    requires |seats| == |results|
    ensures ScanAll(seats, results).over <==> !TimeLeft(results)
    ensures TimeLeft(results) ==> ScanAll(seats, results).total == Sizes(results)
  {
    if seats != [] {
      var n := |seats| - 1;
      ScanState(seats[..n], results[..n]);
      assert TimeLeft(results) <==> TimeLeft(results[..n]) && !results[n].OutOfTime?;
    }
  }

  predicate HasSeat(snapshots: seq<SeatSnapshot>, seat: Seat) { exists s | s in snapshots :: s.seat == seat }

  /**
   The commit has a snapshot of a listed seat exactly if the seat gave dated samples before the time was over and
   all samples up to it fit together; then it is the row that the seat gave.
   */
  lemma {:induction false} KeptIff(seats: seq<Seat>, results: seq<Scraped>, i: nat)
    requires |seats| == |results| && AllDifferent(seats) && i < |seats|
    ensures var kept := ScanAll(seats, results).snapshots;
            && (HasSeat(kept, seats[i]) <==> && results[i].Admitted? && TimeLeft(results[..i + 1])
                                             && Sizes(results[..i + 1]) <= MAX_TARGET_SNAPSHOT_BYTES)
            && (HasSeat(kept, seats[i]) ==> SeatSnapshot(seats[i], results[i].row) in kept)
  {
    var n := |seats| - 1;
    var before := ScanAll(seats[..n], results[..n]);
    var kept := ScanAll(seats, results).snapshots;
    if i < n {
      KeptIff(seats[..n], results[..n], i);
      assert results[..n][..i + 1] == results[..i + 1];
      assert before.snapshots <= kept && forall s | s in kept && s !in before.snapshots :: s.seat == seats[n];
    } else {
      ScanDistinct(seats[..n], results[..n]);
      assert !HasSeat(before.snapshots, seats[n]);
      ScanState(seats[..n], results[..n]);
      assert results[..i + 1] == results;
      assert TimeLeft(results) <==> TimeLeft(results[..n]) && !results[n].OutOfTime?;
      hide ScanAll;
      if kept != before.snapshots { assert kept[|kept| - 1].seat == seats[n]; }
    }
  }

  /** Any number of scrapes and commits, from an empty table, stay within both caps. */
  lemma ScrapesStayWithinCaps(tables: seq<Snapshots>, commits: seq<(set<TargetId>, TargetId, Commit)>,
                              seats: seq<seq<Seat>>, results: seq<seq<Scraped>>, i: nat)
    requires |tables| == |commits| + 1 && |seats| == |results| == |commits| && tables[0] == map[] && i < |tables|
    requires forall j | 0 <= j < |commits| ::
               && |seats[j]| == |results[j]| && commits[j].2 == ScrapeCommit(seats[j], results[j])
               && tables[j + 1] == CommitResult(tables[j], commits[j].0, commits[j].1, commits[j].2).table
    ensures WithinCaps(tables[i])
  {
    forall j | 0 <= j < |commits| ensures DistinctSeats(commits[j].2.snapshots) {
      CommitIsDistinct(seats[j], results[j]);
    }
    CapsHold(tables, commits, i);
  }
}
