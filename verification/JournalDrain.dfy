/** One target's drain loop: a round robin over its journals with a saved position. */
module JournalDrain {
  import opened Wrappers

  const MAX_BATCHES_PER_TARGET := 40

  /** What happens when the loop turns to an unfinished journal. */
  datatype Answer =
    | Pause    // shutdown, stop, or the time budget is used up
    | Vanish   // the target is no longer current
    | Break    // an error after the fetch, or the stream is gone: the poll is left at once
    | More     // a batch was collected, more may follow
    | Done     // the journal is drained, stale or refused

  /** How a poll ends. A normal end keeps the position of a backlog and forgets it otherwise. */
  datatype End = Ended(backlog: bool, offset: Option<nat>) | Left

  // ----- the rotation -----

  function Succ(n: nat, i: nat): (j: nat)
    requires i < n
    ensures j < n && j == if i + 1 == n then 0 else i + 1
  {
    (i + 1) % n
  }

  /** The position after `v` turns. */
  function Turn(n: nat, start: nat, v: nat): (i: nat)
    requires start < n
    ensures i < n
  {
    if v == 0 then start else Succ(n, Turn(n, start, v - 1))
  }

  /** How often `v` turns come by journal `i`. */
  function Visits(n: nat, start: nat, v: nat, i: nat): nat
    requires start < n
  {
    if v == 0 then 0 else Visits(n, start, v - 1, i) + (if Turn(n, start, v - 1) == i then 1 else 0)
  }

  /** Whether the rotation from `start` has come by `i` since it last stood at `start`. */
  predicate Passed(start: nat, at: nat, i: nat)
  {
    if start <= at then start <= i < at else i >= start || i < at
  }

  /** Every journal has had the same number of turns, or one more. */
  lemma {:induction false} Laps(n: nat, start: nat, v: nat) returns (laps: nat)
    requires start < n
    ensures forall i: nat | i < n ::
              Visits(n, start, v, i) == laps + (if Passed(start, Turn(n, start, v), i) then 1 else 0)
  {
    if v == 0 {
      laps := 0;
    } else {
      laps := Laps(n, start, v - 1);
      if Turn(n, start, v) == start { laps := laps + 1; }
    }
  }

  lemma Fair(n: nat, start: nat, v: nat, i: nat, j: nat)
    requires start < n && i < n && j < n
    ensures Visits(n, start, v, i) <= Visits(n, start, v, j) + 1
  {
    var laps := Laps(n, start, v);
  }

  lemma {:induction false} TurnsAdd(n: nat, start: nat, a: nat, b: nat)
    requires start < n
    ensures Turn(n, start, a + b) == Turn(n, Turn(n, start, a), b)
  {
    if b > 0 {
      TurnsAdd(n, start, a, b - 1);
    }
  }

  /** Turns that continue where others ended count as if they were one rotation. */
  lemma {:induction false} VisitsAdd(n: nat, start: nat, a: nat, b: nat, i: nat)
    requires start < n
    ensures Visits(n, start, a + b, i) == Visits(n, start, a, i) + Visits(n, Turn(n, start, a), b, i)
  {
    if b > 0 {
      VisitsAdd(n, start, a, b - 1, i);
      TurnsAdd(n, start, a, b - 1);
    }
  }

  /** Coming from anywhere, `n` turns pass every journal. */
  lemma {:induction false} ReachesAll(n: nat, from: nat, i: nat) returns (k: nat)
    requires from < n && i < n
    ensures k < n && Turn(n, from, k) == i
  {
    k := if from <= i then i - from else n - from + i;
    TurnForward(n, from, k);
  }

  lemma {:induction false} TurnForward(n: nat, from: nat, k: nat)
    requires from < n && k < n
    ensures Turn(n, from, k) == if from + k < n then from + k else from + k - n
  {
    if k > 0 {
      TurnForward(n, from, k - 1);
    }
  }

  /** How many turns after `start` the rotation comes by `i`. */
  function Distance(n: nat, start: nat, i: nat): (d: nat)
    requires start < n && i < n
    ensures d < n
  {
    if start <= i then i - start else n - start + i
  }

  lemma TurnAtDistance(n: nat, start: nat, i: nat)
    requires start < n && i < n
    ensures Turn(n, start, Distance(n, start, i)) == i
  {
    TurnForward(n, start, Distance(n, start, i));
  }

  lemma DistanceOfTurn(n: nat, start: nat, u: nat)
    requires start < n && u < n
    ensures Distance(n, start, Turn(n, start, u)) == u
  {
    TurnForward(n, start, u);
  }

  // ----- the first lap -----

  /** The answer ends the poll. */
  predicate Stops(a: Answer) { a.Pause? || a.Vanish? || a.Break? }

  /** With these answers the poll gets to the fetch of turn `d` of its first lap. */
  ghost predicate Reaches(ask: nat -> Answer, d: nat)
  {
    d < MAX_BATCHES_PER_TARGET && (forall u | 0 <= u < d :: !Stops(ask(u))) && !ask(d).Pause? && !ask(d).Vanish?
  }

  /** In the first lap every turn asks; whoever has had a turn was fetched, and the others are unfinished. */
  ghost predicate FirstLap(n: nat, start: nat, ask: nat -> Answer, finished: seq<bool>, counts: seq<nat>, turn: nat,
                           fetched: nat, v: nat)
    requires start < n && |finished| == n == |counts|
  {
    && (if v <= n then turn == v == fetched else fetched >= n)
    && (forall u: nat | u < n && u < v :: !Stops(ask(u)))
    && (forall u: nat | u < n :: u < v <==> counts[Turn(n, start, u)] > 0)
    && (forall u: nat | v <= u < n :: !finished[Turn(n, start, u)])
  }

  lemma LapSkips(n: nat, start: nat, ask: nat -> Answer, finished: seq<bool>, counts: seq<nat>, turn: nat, fetched: nat, v: nat)
    requires start < n && |finished| == n == |counts| && FirstLap(n, start, ask, finished, counts, turn, fetched, v)
    requires finished[Turn(n, start, v)]
    ensures FirstLap(n, start, ask, finished, counts, turn, fetched, v + 1)
  {}

  lemma LapFetched(n: nat, start: nat, ask: nat -> Answer, finished: seq<bool>, counts: seq<nat>, turn: nat, fetched: nat,
                   v: nat, done: bool)
    requires start < n && |finished| == n == |counts| && FirstLap(n, start, ask, finished, counts, turn, fetched, v)
    requires !Stops(ask(turn))
    ensures var i := Turn(n, start, v);
            FirstLap(n, start, ask, if done then finished[i := true] else finished, counts[i := counts[i] + 1], turn + 1,
                     fetched + 1, v + 1)
  {
    var i := Turn(n, start, v);
    forall u: nat | u < n ensures v < n ==> (Turn(n, start, u) == i <==> u == v) {
      if v < n {
        TurnForward(n, start, u);
        TurnForward(n, start, v);
      }
    }
  }

  /** The end of a poll: exactly the journals that its answers let it reach were fetched. */
  ghost predicate Reached(n: nat, start: nat, ask: nat -> Answer, counts: seq<nat>)
    requires start < n && |counts| == n
  {
    forall i: nat | i < n :: counts[i] > 0 <==> Reaches(ask, Distance(n, start, i))
  }

  lemma ReachesBefore(ask: nat -> Answer, n: nat, turn: nat, fetched: nat, v: nat, d: nat)
    requires d < n && fetched <= MAX_BATCHES_PER_TARGET && (if v <= n then turn == v == fetched else fetched >= n)
    requires forall u: nat | u < n && u < v :: !Stops(ask(u))
    requires v < n ==> ask(turn).Pause? || ask(turn).Vanish? || fetched == MAX_BATCHES_PER_TARGET
    ensures d < v <==> Reaches(ask, d)
  {
    if d < v {
      assert d < fetched && !Stops(ask(d));
    } else if v < d {
      assert Reaches(ask, d) ==> !Stops(ask(v));
    }
  }

  /** The poll ends in front of a fetch: a pause, a target that is gone, the limit, or nothing left to do. */
  lemma EndsBefore(n: nat, start: nat, ask: nat -> Answer, finished: seq<bool>, counts: seq<nat>, turn: nat,
                   fetched: nat, v: nat)
    requires start < n && |finished| == n == |counts| && FirstLap(n, start, ask, finished, counts, turn, fetched, v)
    requires fetched <= MAX_BATCHES_PER_TARGET
    requires ask(turn).Pause? || ask(turn).Vanish? || fetched == MAX_BATCHES_PER_TARGET || forall i | 0 <= i < n :: finished[i]
    ensures Reached(n, start, ask, counts)
    ensures (exists d: nat | d < n && d < MAX_BATCHES_PER_TARGET :: FailsAt(ask, d)) ==>
              fetched < MAX_BATCHES_PER_TARGET && ask(turn).Vanish? && !(forall i | 0 <= i < n :: finished[i])
  {
    hide Turn, Distance, Reaches;
    if v < n { assert !finished[Turn(n, start, v)]; }
    forall i: nat | i < n ensures counts[i] > 0 <==> Reaches(ask, Distance(n, start, i)) {
      TurnAtDistance(n, start, i);
      ReachesBefore(ask, n, turn, fetched, v, Distance(n, start, i));
    }
    forall d: nat | d < n && d < MAX_BATCHES_PER_TARGET && FailsAt(ask, d) ensures d == v && v < n {}
  }

  lemma ReachesAfter(ask: nat -> Answer, n: nat, turn: nat, fetched: nat, v: nat, d: nat)
    requires d < n && fetched < MAX_BATCHES_PER_TARGET && (if v <= n then turn == v == fetched else fetched >= n)
    requires ask(turn).Break? && forall u: nat | u < n && u < v :: !Stops(ask(u))
    ensures d <= v <==> Reaches(ask, d)
  {
    if d < v {
      assert d < fetched && !Stops(ask(d));
    } else if v < d {
      assert Reaches(ask, d) ==> !Stops(ask(v));
    }
  }

  /** The poll ends right after a fetch. */
  lemma EndsAfter(n: nat, start: nat, ask: nat -> Answer, finished: seq<bool>, counts: seq<nat>, turn: nat,
                  fetched: nat, v: nat)
    requires start < n && |finished| == n == |counts| && FirstLap(n, start, ask, finished, counts, turn, fetched, v)
    requires fetched < MAX_BATCHES_PER_TARGET && ask(turn).Break?
    ensures var i := Turn(n, start, v); Reached(n, start, ask, counts[i := counts[i] + 1])
  {
    hide Turn, Distance, Reaches;
    var at := Turn(n, start, v);
    if v < n { DistanceOfTurn(n, start, v); }
    forall i: nat | i < n ensures counts[at := counts[at] + 1][i] > 0 <==> Reaches(ask, Distance(n, start, i)) {
      TurnAtDistance(n, start, i);
      var d := Distance(n, start, i);
      assert counts[Turn(n, start, d)] > 0 <==> d < v;
      assert v < n ==> (i == at <==> d == v);
      ReachesAfter(ask, n, turn, fetched, v, d);
    }
  }

  /** The first answer that ends the poll is that of turn `d`, and it keeps no offset. */
  ghost predicate FailsAt(ask: nat -> Answer, d: nat)
  {
    (forall u | 0 <= u < d :: !Stops(ask(u))) && (ask(d).Break? || ask(d).Vanish?)
  }

  // ----- a poll in terms of its answers -----

  /** Fetch `u` was for journal `log[u]`, and `ask(u)` was the answer. Journal `i` is done once that was `Done`. */
  ghost predicate Drained(ask: nat -> Answer, log: seq<nat>, i: nat)
  {
    exists u | 0 <= u < |log| :: log[u] == i && ask(u).Done?
  }

  predicate Within(n: nat, log: seq<nat>) { forall u | 0 <= u < |log| :: log[u] < n }

  /** The position after the last fetch. */
  function Resume(n: nat, start: nat, log: seq<nat>): (from: nat)
    requires start < n && Within(n, log)
    ensures from < n
  {
    if log == [] then start else Succ(n, log[|log| - 1])
  }

  /** The `k` turns after the last fetch pass journals that are done. At the limit, the end of a lap ends the poll. */
  ghost predicate Passes(n: nat, start: nat, ask: nat -> Answer, log: seq<nat>, k: nat)
    requires start < n && Within(n, log)
  {
    forall j: nat | j < k ::
      && Drained(ask, log, Turn(n, Resume(n, start, log), j))
      && (|log| == MAX_BATCHES_PER_TARGET ==> Turn(n, Resume(n, start, log), j) != start)
  }

  /** All journals from the last fetch up to `next` are done. */
  ghost predicate Passing(n: nat, start: nat, ask: nat -> Answer, log: seq<nat>, next: nat)
    requires start < n && Within(n, log)
  {
    exists k: nat :: next == Turn(n, Resume(n, start, log), k) && Passes(n, start, ask, log, k)
  }

  /** The first journal behind the last fetch that is not done. */
  ghost predicate FirstOpen(n: nat, start: nat, ask: nat -> Answer, log: seq<nat>, i: nat)
    requires start < n && Within(n, log)
  {
    Passing(n, start, ask, log, i) && !Drained(ask, log, i)
  }

  /** Each fetch is for the journal whose turn it is, and no answer but the last ended the poll. */
  ghost predicate Polling(n: nat, start: nat, ask: nat -> Answer, log: seq<nat>)
  {
    && start < n && Within(n, log) && |log| <= MAX_BATCHES_PER_TARGET
    && (forall u | 0 <= u < |log| :: FirstOpen(n, start, ask, log[..u], log[u]) && !ask(u).Pause? && !ask(u).Vanish?)
    && (forall u | 0 <= u < |log| - 1 :: !ask(u).Break?)
  }

  /** A poll of `n` journals from `start`: its fetches and its end follow from the answers. */
  ghost predicate Polled(n: nat, start: nat, ask: nat -> Answer, log: seq<nat>, end: End)
  {
    && Polling(n, start, ask, log)
    && if log != [] && ask(|log| - 1).Break? then end == Left
       else if forall i: nat | i < n :: Drained(ask, log, i) then end == Ended(false, None)
       else if |log| == MAX_BATCHES_PER_TARGET then
         && end.Ended? && end.backlog && end.offset.Some?
         && Passing(n, start, ask, log, end.offset.value)
         && (end.offset.value == start || !Drained(ask, log, end.offset.value))
       else if ask(|log|).Vanish? then end == Left
       else && ask(|log|).Pause? && end.Ended? && end.backlog && end.offset.Some?
            && FirstOpen(n, start, ask, log, end.offset.value)
  }

  /** What the loop has done, and where it stands. */
  ghost predicate Logged(n: nat, start: nat, ask: nat -> Answer, finished: seq<bool>, counts: seq<nat>, log: seq<nat>,
                         next: nat)
  {
    && Polling(n, start, ask, log) && (log != [] ==> !ask(|log| - 1).Break?) && Noted(n, ask, finished, counts, log)
    && Passing(n, start, ask, log, next)
  }

  ghost predicate Noted(n: nat, ask: nat -> Answer, finished: seq<bool>, counts: seq<nat>, log: seq<nat>)
  {
    && |finished| == n == |counts|
    && forall i: nat | i < n :: (finished[i] <==> Drained(ask, log, i)) && counts[i] == multiset(log)[i]
  }

  lemma LogStarts(n: nat, start: nat, ask: nat -> Answer)
    requires start < n
    ensures Logged(n, start, ask, seq(n, _ => false), seq(n, _ => 0), [], start)
  {
    assert start == Turn(n, Resume(n, start, []), 0);
  }

  lemma LogSkips(n: nat, start: nat, ask: nat -> Answer, finished: seq<bool>, counts: seq<nat>, log: seq<nat>, next: nat)
    requires Logged(n, start, ask, finished, counts, log, next) && next < n && finished[next]
    requires |log| == MAX_BATCHES_PER_TARGET ==> next != start
    ensures Logged(n, start, ask, finished, counts, log, Succ(n, next))
  {
    hide Drained, Passing;
    assert Drained(ask, log, next);
    PassesOne(n, start, ask, log, next);
    hide Polling, Noted;
  }

  lemma PassesOne(n: nat, start: nat, ask: nat -> Answer, log: seq<nat>, next: nat)
    requires start < n && Within(n, log) && Passing(n, start, ask, log, next) && next < n && Drained(ask, log, next)
    requires |log| == MAX_BATCHES_PER_TARGET ==> next != start
    ensures Passing(n, start, ask, log, Succ(n, next))
  {
    hide Drained;
    var k: nat :| next == Turn(n, Resume(n, start, log), k) && Passes(n, start, ask, log, k);
    assert Succ(n, next) == Turn(n, Resume(n, start, log), k + 1);
    assert Passes(n, start, ask, log, k + 1);
  }

  lemma OneMoreNoted(n: nat, ask: nat -> Answer, finished: seq<bool>, counts: seq<nat>, log: seq<nat>, i: nat)
    requires Noted(n, ask, finished, counts, log) && i < n
    ensures Noted(n, ask, if ask(|log|).Done? then finished[i := true] else finished, counts[i := counts[i] + 1], log + [i])
  {
    forall j: nat | j < n ensures Drained(ask, log + [i], j) <==> Drained(ask, log, j) || (j == i && ask(|log|).Done?) {
      if Drained(ask, log, j) {
        var u :| 0 <= u < |log| && log[u] == j && ask(u).Done?;
        assert (log + [i])[u] == j;
      }
      assert (log + [i])[|log|] == i;
    }
  }

  lemma LogFetches(n: nat, start: nat, ask: nat -> Answer, finished: seq<bool>, counts: seq<nat>, log: seq<nat>, next: nat)
    requires Logged(n, start, ask, finished, counts, log, next) && next < n && !finished[next]
    requires |log| < MAX_BATCHES_PER_TARGET && !ask(|log|).Pause? && !ask(|log|).Vanish?
    ensures var finished' := if ask(|log|).Done? then finished[next := true] else finished;
            var counts' := counts[next := counts[next] + 1];
            && Polling(n, start, ask, log + [next]) && Noted(n, ask, finished', counts', log + [next])
            && (ask(|log|).Break? ==> Polled(n, start, ask, log + [next], Left))
            && (!ask(|log|).Break? ==> Logged(n, start, ask, finished', counts', log + [next], Succ(n, next)))
  {
    hide Polling, Drained, Noted;
    NotDrained(n, ask, finished, counts, log, next);
    OneMoreNoted(n, ask, finished, counts, log, next);
    OneMorePolled(n, start, ask, log, next);
    PollingSizes(n, start, ask, log + [next]);
    assert Resume(n, start, log + [next]) == Succ(n, next) == Turn(n, Succ(n, next), 0);
  }

  lemma NotDrained(n: nat, ask: nat -> Answer, finished: seq<bool>, counts: seq<nat>, log: seq<nat>, i: nat)
    requires Noted(n, ask, finished, counts, log) && i < n
    ensures |finished| == n == |counts| && (finished[i] <==> Drained(ask, log, i))
  {
    hide Drained;
  }

  lemma PollingSizes(n: nat, start: nat, ask: nat -> Answer, log: seq<nat>)
    requires Polling(n, start, ask, log)
    ensures start < n && Within(n, log) && |log| <= MAX_BATCHES_PER_TARGET
  {
    hide FirstOpen;
  }

  lemma OneMorePolled(n: nat, start: nat, ask: nat -> Answer, log: seq<nat>, next: nat)
    requires Polling(n, start, ask, log) && (log != [] ==> !ask(|log| - 1).Break?) && next < n
    requires FirstOpen(n, start, ask, log, next)
    requires |log| < MAX_BATCHES_PER_TARGET && !ask(|log|).Pause? && !ask(|log|).Vanish?
    ensures Polling(n, start, ask, log + [next])
  {
    hide Passing, Drained, FirstOpen;
    assert (log + [next])[..|log|] == log;
    forall u | 0 <= u < |log| ensures (log + [next])[..u] == log[..u] {}
  }

  /** The poll ends in front of a fetch. */
  lemma LogEnds(n: nat, start: nat, ask: nat -> Answer, finished: seq<bool>, counts: seq<nat>, log: seq<nat>, next: nat,
                end: End)
    requires Logged(n, start, ask, finished, counts, log, next) && next < n
    requires if forall i | 0 <= i < n :: finished[i] then end == Ended(false, None)
             else if |log| == MAX_BATCHES_PER_TARGET then
               end == Ended(true, Some(next)) && (next == start || !finished[next])
             else if ask(|log|).Vanish? then end == Left
             else ask(|log|).Pause? && end == Ended(true, Some(next)) && !finished[next]
    ensures Polled(n, start, ask, log, end)
  {
    hide Polling, Passing, Drained;
    if i :| 0 <= i < n && !finished[i] {
      assert !Drained(ask, log, i);
    }
  }

  /** The first position that qualifies is the only one. */
  lemma OneFirst(n: nat, start: nat, ask: nat -> Answer, log: seq<nat>, a: nat, b: nat)
    requires start < n && Within(n, log) && Passing(n, start, ask, log, a) && Passing(n, start, ask, log, b)
    requires !Drained(ask, log, a) || (|log| == MAX_BATCHES_PER_TARGET && a == start)
    requires !Drained(ask, log, b) || (|log| == MAX_BATCHES_PER_TARGET && b == start)
    ensures a == b
  {
    hide Drained;
  }

  /** So a poll is determined by the number of journals, the position it starts from, and the answers. */
  lemma OnePoll(n: nat, start: nat, ask: nat -> Answer, log: seq<nat>, end: End, log': seq<nat>, end': End)
    requires Polled(n, start, ask, log, end) && Polled(n, start, ask, log', end')
    ensures log == log' && end == end'
  {
    hide Passing, Drained;
    var u := if |log| < |log'| then |log| else |log'|;
    SameFetches(n, start, ask, log, log', u);
    assert log[..|log|] == log && log'[..|log'|] == log';
    if |log| < |log'| { GoesOn(n, start, ask, log, end, log'); }
    if |log'| < |log| { GoesOn(n, start, ask, log', end', log); }
    assert log == log';
    hide Polling;
    if end.Ended? && end.offset.Some? {
      OneFirst(n, start, ask, log, end.offset.value, end'.offset.value);
    }
  }

  lemma {:induction false} SameFetches(n: nat, start: nat, ask: nat -> Answer, log: seq<nat>, log': seq<nat>, u: nat)
    requires Polling(n, start, ask, log) && Polling(n, start, ask, log') && u <= |log| && u <= |log'|
    ensures log[..u] == log'[..u]
  {
    hide Passing, Drained;
    if u > 0 {
      SameFetches(n, start, ask, log, log', u - 1);
      assert FirstOpen(n, start, ask, log[..u - 1], log[u - 1]) && FirstOpen(n, start, ask, log'[..u - 1], log'[u - 1]);
      OneFirst(n, start, ask, log[..u - 1], log[u - 1], log'[u - 1]);
      assert log[..u] == log[..u - 1] + [log[u - 1]] && log'[..u] == log'[..u - 1] + [log'[u - 1]];
    }
  }

  /** A poll that goes on did not end before. */
  lemma GoesOn(n: nat, start: nat, ask: nat -> Answer, log: seq<nat>, end: End, log': seq<nat>)
    requires Polling(n, start, ask, log') && |log| < |log'| && log == log'[..|log|]
    ensures !Polled(n, start, ask, log, end)
  {
    hide Passing, Drained;
    var m := |log|;
    assert FirstOpen(n, start, ask, log'[..m], log'[m]) && !ask(m).Pause? && !ask(m).Vanish?;
    assert m > 0 ==> !ask(m - 1).Break?;
  }

  // ----- the loop -----

  function Total(counts: seq<nat>): nat
  {
    if counts == [] then 0 else counts[0] + Total(counts[1..])
  }

  lemma {:induction false} TotalBump(counts: seq<nat>, i: nat)
    requires i < |counts|
    ensures Total(counts[i := counts[i] + 1]) == Total(counts) + 1
  {
    if i > 0 {
      TotalBump(counts[1..], i - 1);
      assert counts[i := counts[i] + 1][1..] == counts[1..][i - 1 := counts[1..][i - 1] + 1];
    } else {
      assert counts[i := counts[i] + 1][1..] == counts[1..];
    }
  }

  /** Where the loop is: `counts` are the fetches per journal, `v` the turns so far. */
  ghost predicate Draining(n: nat, start: nat, next: nat, finished: seq<bool>, fetched: nat, counts: seq<nat>, v: nat)
  {
    && start < n && next == Turn(n, start, v) && |finished| == n == |counts|
    && fetched == Total(counts) <= MAX_BATCHES_PER_TARGET
    && forall i: nat | i < n && !finished[i] :: counts[i] == Visits(n, start, v, i)
  }

  lemma SkipTurn(n: nat, start: nat, next: nat, finished: seq<bool>, fetched: nat, counts: seq<nat>, v: nat)
    requires Draining(n, start, next, finished, fetched, counts, v) && finished[next]
    ensures Draining(n, start, Succ(n, next), finished, fetched, counts, v + 1)
  {}

  lemma FetchTurn(n: nat, start: nat, next: nat, finished: seq<bool>, fetched: nat, counts: seq<nat>, v: nat, done: bool)
    requires Draining(n, start, next, finished, fetched, counts, v) && !finished[next] && fetched < MAX_BATCHES_PER_TARGET
    ensures Draining(n, start, Succ(n, next), if done then finished[next := true] else finished, fetched + 1,
                     counts[next := counts[next] + 1], v + 1)
  {
    TotalBump(counts, next);
  }

  /** The first `k` journals of a lap were finished. */
  ghost predicate AllPassed(n: nat, from: nat, finished: seq<bool>, k: nat)
    requires from < n == |finished|
  {
    forall j: nat | j < k :: finished[Turn(n, from, j)]
  }

  lemma NonePassed(n: nat, from: nat, finished: seq<bool>)
    requires from < n == |finished|
    ensures AllPassed(n, from, finished, 0)
  {}

  lemma OneMorePassed(n: nat, from: nat, finished: seq<bool>, k: nat)
    requires from < n == |finished| && finished[Turn(n, from, k)]
    ensures AllPassed(n, from, finished, k) ==> AllPassed(n, from, finished, k + 1)
  {}

  /** All journals seen on a lap without a fetch are finished, so a lap over an unfinished one fetches. */
  lemma LapFetches(n: nat, from: nat, finished: seq<bool>)
    requires from < n == |finished| && AllPassed(n, from, finished, n)
    ensures forall i | 0 <= i < n :: finished[i]
  {
    forall i: nat | i < n ensures finished[i] {
      var k := ReachesAll(n, from, i);
    }
  }

  /** The loop goes on: the journals have had `v` turns, and the next one is that of `next`. */
  ghost predicate Going(n: nat, start: nat, ask: nat -> Answer, finished: seq<bool>, counts: seq<nat>, log: seq<nat>,
                        next: nat, v: nat)
  {
    && Draining(n, start, next, finished, |log|, counts, v) && FirstLap(n, start, ask, finished, counts, |log|, |log|, v)
    && Logged(n, start, ask, finished, counts, log, next)
  }

  /** The loop is over. */
  ghost predicate Halted(n: nat, start: nat, ask: nat -> Answer, finished: seq<bool>, counts: seq<nat>, log: seq<nat>,
                         next: nat, v: nat, end: End)
  {
    && Draining(n, start, next, finished, |log|, counts, v) && Noted(n, ask, finished, counts, log)
    && LeftOff(n, start, ask, counts, end) && Polled(n, start, ask, log, end)
    && (end.Ended? ==> end.backlog == exists i | 0 <= i < n :: !finished[i])
    && (end.Ended? ==> end.offset == if end.backlog then Some(next) else None)
  }

  /**
   The loop of `poll_target` over `n` journals from a saved offset, for any answers. It fetches at most the limit,
   journals that stay unfinished get the same number of fetches up to one, and a kept offset is where the
   rotation stands. Fetched at all are exactly the journals that the answers let it reach in the first lap. `log` is
   whom each fetch was for; it and the end of the poll are determined by the answers, and a journal is finished
   exactly if one of its fetches was answered `Done`.
   */
  method Drain(n: nat, offset: Option<nat>, ask: nat -> Answer)
    returns (end: End, fetched: nat, ghost finished: seq<bool>, ghost counts: seq<nat>, ghost v: nat, ghost log: seq<nat>)
    requires n > 0
    ensures Polled(n, (if offset.Some? then offset.value else 0) % n, ask, log, end) && fetched == |log|
    ensures |finished| == n == |counts|
    ensures forall i: nat | i < n :: (finished[i] <==> Drained(ask, log, i)) && counts[i] == multiset(log)[i]
    ensures fetched == Total(counts) <= MAX_BATCHES_PER_TARGET
    ensures end.Ended? ==> (end.offset.Some? <==> end.backlog) && (end.offset.Some? ==> end.offset.value < n)
    ensures var start := (if offset.Some? then offset.value else 0) % n;
            && (forall i | 0 <= i < n && !finished[i] :: counts[i] == Visits(n, start, v, i))
            && (end.Ended? ==> (end.backlog <==> exists i | 0 <= i < n :: !finished[i]))
            && (end.Ended? ==> end.offset == if end.backlog then Some(Turn(n, start, v)) else None)
            && Reached(n, start, ask, counts)
            && ((exists d: nat | d < n && d < MAX_BATCHES_PER_TARGET :: FailsAt(ask, d)) ==> end.Left?)
    ensures forall i, j | 0 <= i < n && 0 <= j < n && !finished[i] && !finished[j] :: counts[i] <= counts[j] + 1
  {
    hide Going, Halted, Polled, Drained, Reached, FailsAt, Turn, Visits, Total;
    var start := (if offset.Some? then offset.value else 0) % n;
    var done := new bool[n](_ => false);
    var next: nat, left: bool := start, false;
    fetched, v, counts, log := 0, 0, seq(n, _ => 0), [];
    assert done[..] == seq(n, _ => false);
    GoingStarts(n, start, ask);
    while fetched < MAX_BATCHES_PER_TARGET && exists i | 0 <= i < n :: !done[i]
      invariant done.Length == n && next == start && fetched == |log| <= MAX_BATCHES_PER_TARGET
      invariant Going(n, start, ask, done[..], counts, log, next, v)
      decreases MAX_BATCHES_PER_TARGET - fetched
    {
      end, left, next, fetched, counts, v, log := Lap(n, done, ask, next, fetched, counts, v, log);
      if left {
        finished := done[..];
        HaltedMeans(n, start, ask, finished, counts, log, next, v, end);
        return;
      }
    }
    finished := done[..];
    var backlog := exists i | 0 <= i < n :: !done[i];
    end := Ended(backlog, if backlog then Some(next) else None);
    LapEnds(n, start, ask, finished, counts, log, next, v, end);
    HaltedMeans(n, start, ask, finished, counts, log, next, v, end);
  }

  /** The loop turns to an unfinished journal. */
  method Visit(n: nat, ghost start: nat, done: array<bool>, ask: nat -> Answer, index: nat, fetched0: nat,
               ghost counts0: seq<nat>, ghost v0: nat, ghost log0: seq<nat>)
    returns (end: End, left: bool, next: nat, fetched: nat, ghost counts: seq<nat>, ghost v: nat, ghost log: seq<nat>)
    requires done.Length == n && index < n && !done[index] && fetched0 == |log0| <= MAX_BATCHES_PER_TARGET
    requires Going(n, start, ask, done[..], counts0, log0, index, v0)
    modifies done
    ensures next < n && fetched == |log| <= MAX_BATCHES_PER_TARGET && fetched0 <= fetched
    ensures left ==> Halted(n, start, ask, done[..], counts, log, next, v, end)
    ensures !left ==> Going(n, start, ask, done[..], counts, log, next, v)
    ensures !left ==> next == Succ(n, index) && fetched == fetched0 + 1
  {
    hide *;
    end, left, next, fetched, counts, v, log := Left, false, index, fetched0, counts0, v0, log0;
    GoingSizes(n, start, ask, done[..], counts, log, next, v);
    var answer := ask(fetched);
    if answer.Pause? || fetched == MAX_BATCHES_PER_TARGET {
      end, left := Ended(true, Some(next)), true;
      StopsBefore(n, start, ask, done[..], counts, log, next, v, end);
      return;
    }
    if answer.Vanish? {
      left := true;
      StopsBefore(n, start, ask, done[..], counts, log, next, v, end);
      return;
    }
    if answer.Break? {
      BreaksOff(n, start, ask, done[..], counts, log, next, v);
    } else {
      FetchesOn(n, start, ask, done[..], counts, log, next, v);
    }
    next, fetched := Succ(n, index), fetched + 1;
    counts, v, log := counts[index := counts[index] + 1], v + 1, log + [index];
    if answer.Done? {
      done[index] := true;
    }
    left := answer.Break?;
  }

  /** One lap of the inner loop over all journals. */
  method Lap(n: nat, done: array<bool>, ask: nat -> Answer, next0: nat, fetched0: nat,
             ghost counts0: seq<nat>, ghost v0: nat, ghost log0: seq<nat>)
    returns (end: End, left: bool, next: nat, fetched: nat, ghost counts: seq<nat>, ghost v: nat, ghost log: seq<nat>)
    requires done.Length == n && next0 < n && fetched0 == |log0| < MAX_BATCHES_PER_TARGET
    requires Going(n, next0, ask, done[..], counts0, log0, next0, v0) && exists i | 0 <= i < n :: !done[i]
    modifies done
    ensures fetched == |log| <= MAX_BATCHES_PER_TARGET
    ensures left ==> Halted(n, next0, ask, done[..], counts, log, next, v, end)
    ensures !left ==> Going(n, next0, ask, done[..], counts, log, next, v) && next == next0 && fetched0 < fetched
  {
    hide *;
    end, left, next, fetched, counts, v, log := Left, false, next0, fetched0, counts0, v0, log0;
    ghost var were := done[..];
    FirstTurn(n, next0);
    FullTurn(n, next0);
    NonePassed(n, next0, were);
    for lap := 0 to n
      invariant next < n && fetched0 <= fetched == |log| <= MAX_BATCHES_PER_TARGET
      invariant Going(n, next0, ask, done[..], counts, log, next, v)
      invariant next == Turn(n, next0, lap) && (lap == 0 ==> fetched == fetched0)
      invariant fetched == fetched0 ==> done[..] == were && AllPassed(n, next0, were, lap)
    {
      var index := next;
      NextTurn(n, next0, lap);
      if done[index] {
        if lap > 0 { NotBack(n, next0, lap); }
        OneMorePassed(n, next0, done[..], lap);
        SkipsOn(n, next0, ask, done[..], counts, log, next, v);
        next, v := Succ(n, index), v + 1;
        continue;
      }
      end, left, next, fetched, counts, v, log := Visit(n, next0, done, ask, index, fetched, counts, v, log);
      if left { return; }
    }
    if fetched == fetched0 {
      LapFetches(n, next0, were);
    }
  }

  /** What a poll that is left in the middle of a lap has done. */
  ghost predicate LeftOff(n: nat, start: nat, ask: nat -> Answer, counts: seq<nat>, end: End)
    requires start < n && |counts| == n
  {
    && Reached(n, start, ask, counts)
    && (end.Ended? ==> !exists d: nat | d < n && d < MAX_BATCHES_PER_TARGET :: FailsAt(ask, d))
  }

  lemma GoingStarts(n: nat, start: nat, ask: nat -> Answer)
    requires start < n
    ensures Going(n, start, ask, seq(n, _ => false), seq(n, _ => 0), [], start, 0)
  {
    NoneFetched(n);
    LogStarts(n, start, ask);
    hide Logged, Total;
  }

  lemma GoingSizes(n: nat, start: nat, ask: nat -> Answer, finished: seq<bool>, counts: seq<nat>, log: seq<nat>, next: nat,
                   v: nat)
    requires Going(n, start, ask, finished, counts, log, next, v)
    ensures |finished| == n == |counts|
  {
    hide Logged, FirstLap;
  }

  /** The poll ends in front of the fetch of an unfinished journal. */
  lemma StopsBefore(n: nat, start: nat, ask: nat -> Answer, finished: seq<bool>, counts: seq<nat>, log: seq<nat>, next: nat,
                    v: nat, end: End)
    requires Going(n, start, ask, finished, counts, log, next, v) && next < n == |finished| && !finished[next]
    requires |log| <= MAX_BATCHES_PER_TARGET
    requires if end.Ended? then (ask(|log|).Pause? || |log| == MAX_BATCHES_PER_TARGET) && end == Ended(true, Some(next))
             else ask(|log|).Vanish? && |log| < MAX_BATCHES_PER_TARGET
    ensures Halted(n, start, ask, finished, counts, log, next, v, end)
  {
    hide Reached, FirstLap, FailsAt, Draining, Polled, Logged;
    GoingNotes(n, start, ask, finished, counts, log, next, v);
    EndsBefore(n, start, ask, finished, counts, |log|, |log|, v);
    LogEnds(n, start, ask, finished, counts, log, next, end);
  }

  /** The loop ends behind a lap. */
  lemma LapEnds(n: nat, start: nat, ask: nat -> Answer, finished: seq<bool>, counts: seq<nat>, log: seq<nat>, next: nat,
                v: nat, end: End)
    requires Going(n, start, ask, finished, counts, log, next, v) && next == start < n == |finished|
    requires |log| == MAX_BATCHES_PER_TARGET || forall i | 0 <= i < n :: finished[i]
    requires var backlog := exists i | 0 <= i < n :: !finished[i];
             end == Ended(backlog, if backlog then Some(next) else None)
    ensures Halted(n, start, ask, finished, counts, log, next, v, end)
  {
    hide Reached, FirstLap, FailsAt, Draining, Polled, Logged;
    GoingNotes(n, start, ask, finished, counts, log, next, v);
    EndsBefore(n, start, ask, finished, counts, |log|, |log|, v);
    LogEnds(n, start, ask, finished, counts, log, next, end);
  }

  lemma GoingNotes(n: nat, start: nat, ask: nat -> Answer, finished: seq<bool>, counts: seq<nat>, log: seq<nat>, next: nat,
                   v: nat)
    requires Going(n, start, ask, finished, counts, log, next, v)
    ensures start < n == |finished| == |counts| && |log| <= MAX_BATCHES_PER_TARGET && Noted(n, ask, finished, counts, log)
  {
    hide FirstLap, Passing, FirstOpen, Drained;
  }

  lemma SkipsOn(n: nat, start: nat, ask: nat -> Answer, finished: seq<bool>, counts: seq<nat>, log: seq<nat>, next: nat, v: nat)
    requires Going(n, start, ask, finished, counts, log, next, v) && next < n == |finished| && finished[next]
    requires |log| == MAX_BATCHES_PER_TARGET ==> next != start
    ensures Going(n, start, ask, finished, counts, log, Succ(n, next), v + 1)
  {
    SkipTurn(n, start, next, finished, |log|, counts, v);
    LogSkips(n, start, ask, finished, counts, log, next);
    hide Logged, FirstLap;
    LapSkips(n, start, ask, finished, counts, |log|, |log|, v);
  }

  lemma FetchesOn(n: nat, start: nat, ask: nat -> Answer, finished: seq<bool>, counts: seq<nat>, log: seq<nat>, next: nat,
                  v: nat)
    requires Going(n, start, ask, finished, counts, log, next, v) && next < n == |finished| == |counts| && !finished[next]
    requires |log| < MAX_BATCHES_PER_TARGET && !ask(|log|).Pause? && !ask(|log|).Vanish? && !ask(|log|).Break?
    ensures var finished' := if ask(|log|).Done? then finished[next := true] else finished;
            Going(n, start, ask, finished', counts[next := counts[next] + 1], log + [next], Succ(n, next), v + 1)
  {
    hide Logged, FirstLap, Polled, Polling, Noted, Reached, Total, Visits;
    FetchTurn(n, start, next, finished, |log|, counts, v, ask(|log|).Done?);
    LogFetches(n, start, ask, finished, counts, log, next);
    LapFetched(n, start, ask, finished, counts, |log|, |log|, v, ask(|log|).Done?);
    assert next == Turn(n, start, v);
    hide Draining;
  }

  lemma BreaksOff(n: nat, start: nat, ask: nat -> Answer, finished: seq<bool>, counts: seq<nat>, log: seq<nat>, next: nat,
                  v: nat)
    requires Going(n, start, ask, finished, counts, log, next, v) && next < n == |finished| == |counts| && !finished[next]
    requires |log| < MAX_BATCHES_PER_TARGET && ask(|log|).Break?
    ensures Halted(n, start, ask, finished, counts[next := counts[next] + 1], log + [next], Succ(n, next), v + 1, Left)
  {
    hide Logged, FirstLap, Polled, Polling, Noted, Reached, Total, Visits;
    FetchTurn(n, start, next, finished, |log|, counts, v, false);
    LogFetches(n, start, ask, finished, counts, log, next);
    EndsAfter(n, start, ask, finished, counts, |log|, |log|, v);
    assert next == Turn(n, start, v);
    hide Draining;
  }

  lemma HaltedMeans(n: nat, start: nat, ask: nat -> Answer, finished: seq<bool>, counts: seq<nat>, log: seq<nat>, next: nat,
                    v: nat, end: End)
    requires Halted(n, start, ask, finished, counts, log, next, v, end)
    ensures Polled(n, start, ask, log, end) && start < n && |finished| == n == |counts|
    ensures forall i: nat | i < n :: (finished[i] <==> Drained(ask, log, i)) && counts[i] == multiset(log)[i]
    ensures |log| == Total(counts) <= MAX_BATCHES_PER_TARGET
    ensures forall i | 0 <= i < n && !finished[i] :: counts[i] == Visits(n, start, v, i)
    ensures end.Ended? ==> (end.backlog <==> exists i | 0 <= i < n :: !finished[i])
    ensures end.Ended? ==> end.offset == if end.backlog then Some(Turn(n, start, v)) else None
    ensures Reached(n, start, ask, counts)
    ensures (exists d: nat | d < n && d < MAX_BATCHES_PER_TARGET :: FailsAt(ask, d)) ==> end.Left?
    ensures forall i, j | 0 <= i < n && 0 <= j < n && !finished[i] && !finished[j] :: counts[i] <= counts[j] + 1
  {
    Settled(n, start, next, finished, |log|, counts, v);
    hide Draining, Polled, Reached, FailsAt, Drained, Total, Visits;
  }

  lemma NoneFetched(n: nat)
    requires n > 0
    ensures Total(seq(n, _ => 0)) == 0
  {
    ZeroTotal(seq(n, _ => 0));
  }

  lemma {:induction false} ZeroTotal(counts: seq<nat>)
    requires forall i | 0 <= i < |counts| :: counts[i] == 0
    ensures Total(counts) == 0
  {
    if counts != [] {
      ZeroTotal(counts[1..]);
    }
  }

  lemma FirstTurn(n: nat, from: nat)
    requires from < n
    ensures Turn(n, from, 0) == from
  {}

  lemma FullTurn(n: nat, from: nat)
    requires from < n
    ensures Turn(n, from, n) == from
  {
    TurnForward(n, from, n - 1);
  }

  lemma NotBack(n: nat, from: nat, k: nat)
    requires from < n && 0 < k < n
    ensures Turn(n, from, k) != from
  {
    TurnForward(n, from, k);
  }

  lemma NextTurn(n: nat, from: nat, k: nat)
    requires from < n
    ensures Turn(n, from, k + 1) == Succ(n, Turn(n, from, k))
  {}

  lemma Settled(n: nat, start: nat, next: nat, finished: seq<bool>, fetched: nat, counts: seq<nat>, v: nat)
    requires Draining(n, start, next, finished, fetched, counts, v)
    ensures |finished| == n == |counts| && start < n && fetched == Total(counts) <= MAX_BATCHES_PER_TARGET
    ensures next == Turn(n, start, v)
    ensures forall i | 0 <= i < n && !finished[i] :: counts[i] == Visits(n, start, v, i)
    ensures forall i, j | 0 <= i < n && 0 <= j < n && !finished[i] && !finished[j] :: counts[i] <= counts[j] + 1
  {
    forall i, j | 0 <= i < n && 0 <= j < n && !finished[i] && !finished[j] ensures counts[i] <= counts[j] + 1 {
      Fair(n, start, v, i, j);
    }
  }

  // ----- poll after poll -----

  /** A poll that ended normally with a backlog, as `Drain` describes it. */
  datatype Poll = Poll(start: nat, turns: nat, counts: seq<nat>, finished: seq<bool>)

  ghost predicate PollOk(n: nat, p: Poll)
  {
    && p.start < n && |p.counts| == n == |p.finished|
    && forall i: nat | i < n && !p.finished[i] :: p.counts[i] == Visits(n, p.start, p.turns, i)
  }

  /** Each poll of an unchanged listing starts from the offset that the one before it kept. */
  ghost predicate Chain(n: nat, polls: seq<Poll>)
  {
    && (forall k | 0 <= k < |polls| :: PollOk(n, polls[k]))
    && (forall k | 0 <= k < |polls| - 1 :: polls[k].start < n && polls[k + 1].start == Turn(n, polls[k].start, polls[k].turns))
  }

  function TurnsOf(polls: seq<Poll>): nat
  {
    if polls == [] then 0 else TurnsOf(polls[..|polls| - 1]) + polls[|polls| - 1].turns
  }

  function FetchesOf(polls: seq<Poll>, i: nat): nat
    requires forall k | 0 <= k < |polls| :: i < |polls[k].counts|
  {
    if polls == [] then 0 else FetchesOf(polls[..|polls| - 1], i) + polls[|polls| - 1].counts[i]
  }

  lemma {:induction false} ChainPosition(n: nat, polls: seq<Poll>)
    requires Chain(n, polls) && polls != []
    ensures polls[0].start < n
    ensures polls[|polls| - 1].start == Turn(n, polls[0].start, TurnsOf(polls[..|polls| - 1]))
  {
    hide Turn, Visits;
    var m := |polls| - 1;
    assert PollOk(n, polls[0]);
    FirstTurn(n, polls[0].start);
    if m > 0 {
      var before := polls[..m];
      ChainPosition(n, before);
      assert before[..|before| - 1] == polls[..m - 1];
      TurnsAdd(n, polls[0].start, TurnsOf(polls[..m - 1]), polls[m - 1].turns);
    }
  }

  /** The polls are one rotation: a journal that stayed unfinished was fetched once per visit of that rotation. */
  lemma {:induction false} OneRotation(n: nat, polls: seq<Poll>, i: nat)
    requires Chain(n, polls) && polls != [] && i < n
    requires forall k | 0 <= k < |polls| :: PollOk(n, polls[k]) && !polls[k].finished[i]
    ensures polls[0].start < n && FetchesOf(polls, i) == Visits(n, polls[0].start, TurnsOf(polls), i)
  {
    var m := |polls| - 1;
    var before := polls[..m];
    ChainPosition(n, polls);
    VisitsAdd(n, polls[0].start, TurnsOf(before), polls[m].turns, i);
    if m > 0 {
      OneRotation(n, before, i);
    }
  }

  /** Over any number of such polls, no backlogged journal falls more than one fetch behind another. */
  lemma NoStarvation(n: nat, polls: seq<Poll>, i: nat, j: nat)
    requires Chain(n, polls) && polls != [] && i < n && j < n
    requires forall k | 0 <= k < |polls| :: PollOk(n, polls[k]) && !polls[k].finished[i] && !polls[k].finished[j]
    ensures FetchesOf(polls, i) <= FetchesOf(polls, j) + 1
  {
    OneRotation(n, polls, i);
    OneRotation(n, polls, j);
    Fair(n, polls[0].start, TurnsOf(polls), i, j);
  }

  // ----- polls that fail -----

  /** A poll with its answers. One that is left keeps the offset it started from. */
  datatype Attempt = Attempt(start: nat, ask: nat -> Answer, end: End, counts: seq<nat>)

  function StartAfter(a: Attempt): nat
  {
    if a.end.Left? then a.start else if a.end.offset.Some? then a.end.offset.value else 0
  }

  /** Polls of an unchanged listing, each as `Drain` describes it and from where the one before it leaves the offset. */
  ghost predicate Attempts(n: nat, polls: seq<Attempt>)
  {
    && (forall k | 0 <= k < |polls| ::
          && polls[k].start < n && |polls[k].counts| == n && Reached(n, polls[k].start, polls[k].ask, polls[k].counts)
          && ((exists d: nat | d < n && d < MAX_BATCHES_PER_TARGET :: FailsAt(polls[k].ask, d)) ==> polls[k].end.Left?))
    && (forall k | 0 <= k < |polls| - 1 :: polls[k + 1].start == StartAfter(polls[k]))
  }

  /** The fetches of these journals fail, and no other answer ends the poll. */
  ghost predicate Fail(n: nat, a: Attempt, fails: set<nat>)
    requires a.start < n
  {
    forall u: nat | u < n :: if Turn(n, a.start, u) in fails then a.ask(u).Break? else !Stops(a.ask(u))
  }

  /** A failing journal within reach of the offset. */
  ghost predicate Near(n: nat, start: nat, fails: set<nat>, f: nat)
    requires start < n
  {
    f in fails && f < n && Distance(n, start, f) < MAX_BATCHES_PER_TARGET
  }

  /** The poll ends at the nearest failing journal. */
  lemma NearestFails(n: nat, a: Attempt, fails: set<nat>, f: nat) returns (d: nat)
    requires a.start < n && Fail(n, a, fails) && Near(n, a.start, fails, f)
    ensures d <= Distance(n, a.start, f) && FailsAt(a.ask, d) && Turn(n, a.start, d) in fails
  {
    TurnAtDistance(n, a.start, f);
    d := 0;
    while !Stops(a.ask(d))
      invariant d <= Distance(n, a.start, f) && forall u | 0 <= u < d :: !Stops(a.ask(u))
      decreases Distance(n, a.start, f) - d
    {
      d := d + 1;
    }
  }

  /** As long as they fail, every poll starts from the same offset. */
  lemma {:induction false} StaysPut(n: nat, polls: seq<Attempt>, fails: set<nat>, f: nat, k: nat)
    requires Attempts(n, polls) && k < |polls| && forall j | 0 <= j < |polls| :: Fail(n, polls[j], fails)
    requires Near(n, polls[0].start, fails, f)
    ensures polls[k].start == polls[0].start && polls[k].end.Left?
  {
    if k > 0 {
      StaysPut(n, polls, fails, f, k - 1);
      assert polls[k - 1 + 1].start == StartAfter(polls[k - 1]);
    }
    var d := NearestFails(n, polls[k], fails, f);
  }

  /**
   Journals that fail poll after poll hide those behind them: over any number of polls a journal is fetched, in each
   poll or in none, exactly if no failing journal stands before it in the rotation from the saved offset.
   */
  lemma FailureHides(n: nat, polls: seq<Attempt>, fails: set<nat>, f: nat, k: nat, i: nat)
    requires Attempts(n, polls) && k < |polls| && i < n && forall j | 0 <= j < |polls| :: Fail(n, polls[j], fails)
    requires Near(n, polls[0].start, fails, f)
    ensures var start := polls[0].start;
            polls[k].counts[i] > 0 <==>
              Distance(n, start, i) < MAX_BATCHES_PER_TARGET
              && forall g | g in fails && g < n :: Distance(n, start, i) <= Distance(n, start, g)
  {
    StaysPut(n, polls, fails, f, k);
    var a, d := polls[k], Distance(n, polls[0].start, i);
    TurnAtDistance(n, a.start, i);
    if g :| g in fails && g < n && Distance(n, a.start, g) < d {
      TurnAtDistance(n, a.start, g);
      assert Stops(a.ask(Distance(n, a.start, g)));
    } else {
      forall u: nat | u < d ensures !Stops(a.ask(u)) {
        DistanceOfTurn(n, a.start, u);
      }
    }
  }

  /** So all journals are fetched exactly if none fails but the last of the rotation from the saved offset. */
  lemma AllReachedIffLast(n: nat, polls: seq<Attempt>, fails: set<nat>, f: nat, k: nat)
    requires Attempts(n, polls) && k < |polls| && n <= MAX_BATCHES_PER_TARGET
    requires forall j | 0 <= j < |polls| :: Fail(n, polls[j], fails)
    requires f in fails && f < n
    ensures (forall i: nat | i < n :: polls[k].counts[i] > 0)
            <==> forall g | g in fails && g < n :: Distance(n, polls[0].start, g) == n - 1
  {
    hide Attempts, Fail, Reached;
    StartsWithin(n, polls);
    var start := polls[0].start;
    forall i: nat | i < n
      ensures polls[k].counts[i] > 0 <==> forall g | g in fails && g < n :: Distance(n, start, i) <= Distance(n, start, g)
    {
      FailureHides(n, polls, fails, f, k, i);
    }
    var last := Turn(n, start, n - 1);
    DistanceOfTurn(n, start, n - 1);
    if forall i: nat | i < n :: polls[k].counts[i] > 0 {
      assert polls[k].counts[last] > 0;
    }
  }

  lemma StartsWithin(n: nat, polls: seq<Attempt>)
    requires Attempts(n, polls)
    ensures forall k | 0 <= k < |polls| :: polls[k].start < n && |polls[k].counts| == n
  {}

  /** Two journals, and the fetch of the one at the saved offset always fails: the other is never fetched. */
  lemma FailureStarves(polls: seq<Attempt>, k: nat)
    requires Attempts(2, polls) && k < |polls| && polls[0].start == 0
    requires forall j | 0 <= j < |polls| :: polls[j].ask(0).Break?
    ensures polls[k].counts[1] == 0
  {
    OffsetKept(polls, k);
    assert Stops(polls[k].ask(0)) && Distance(2, 0, 1) == 1;
  }

  lemma {:induction false} OffsetKept(polls: seq<Attempt>, k: nat)
    requires Attempts(2, polls) && k < |polls| && polls[0].start == 0
    requires forall j | 0 <= j < |polls| :: polls[j].ask(0).Break?
    ensures polls[k].start == 0
  {
    if k > 0 {
      OffsetKept(polls, k - 1);
      assert FailsAt(polls[k - 1].ask, 0);
      assert polls[k - 1 + 1].start == StartAfter(polls[k - 1]);
    }
  }
}
