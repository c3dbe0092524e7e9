/** The registration budget per network prefix: a table of one-minute windows. */
module SourceBudget {
  import opened Wrappers

  const MAX_PREFIXES := 4096
  const WINDOW := 60

  type Prefix = string

  /** When the window of a prefix began, and how many registrations it has admitted. */
  datatype Entry = Entry(window: int, count: nat)

  type Table = map<Prefix, Entry>

  function Live(table: Table, now: int): Table { map p | p in table && table[p].window > now - WINDOW :: table[p] }

  /** One decision: the table afterwards, and whether the registration is admitted. */
  function Decide(table: Table, source: Prefix, now: int, budget: nat): (Table, bool)
  {
    var live := Live(table, now);
    if source !in live && |live| >= MAX_PREFIXES then (live, false) else
    var entry := if source in live then live[source] else Entry(now, 0);
    if entry.count >= budget then (live[source := entry], false)
    else (live[source := entry.(count := entry.count + 1)], true)
  }

  /** The table and its lock. */
  class Budget {
    var table: Table
    const budget: nat

    constructor (budget: nat)
      ensures table == map[] && this.budget == budget
    {
      table, this.budget := map[], budget;
    }

    /** `enforce_source_budget`. Its second expiry check finds nothing left to do once old windows are dropped. */
    method Enforce(source: Prefix, now: int) returns (admitted: bool)
      modifies this
      ensures (table, admitted) == Decide(old(table), source, now, budget)
    {
      table := map p | p in table && table[p].window > now - WINDOW :: table[p];
      ghost var live := table;
      assert live == Live(old(table), now);
      if source !in table && |table| >= MAX_PREFIXES { return false; }
      if source !in table { table := table[source := Entry(now, 0)]; }
      assert table == live[source := if source in live then live[source] else Entry(now, 0)];
      if table[source].count >= budget { return false; }
      table := table[source := table[source].(count := table[source].count + 1)];
      assert table == live[source := table[source]];
      admitted := true;
    }
  }

  // ----- every sequence of requests -----

  datatype Request = Request(source: Prefix, now: int)

  predicate Ordered(requests: seq<Request>)
  {
    forall i, j | 0 <= i < j < |requests| :: requests[i].now <= requests[j].now
  }

  /** What a list of requests makes of an empty table. */
  function TableAfter(requests: seq<Request>, budget: nat): Table
  {
    if requests == [] then map[] else
    var last := requests[|requests| - 1];
    Decide(TableAfter(requests[..|requests| - 1], budget), last.source, last.now, budget).0
  }

  /** When registrations of one prefix were admitted. */
  function Admitted(requests: seq<Request>, budget: nat, source: Prefix): seq<int>
  {
    if requests == [] then [] else
    var before, last := requests[..|requests| - 1], requests[|requests| - 1];
    var earlier := Admitted(before, budget, source);
    if last.source == source && Decide(TableAfter(before, budget), source, last.now, budget).1
    then earlier + [last.now] else earlier
  }

  /** How many of some times are in a span of one minute. */
  function InSpan(times: seq<int>, from: int): nat
  {
    if times == [] then 0 else
    var t := times[|times| - 1];
    InSpan(times[..|times| - 1], from) + (if from <= t < from + WINDOW then 1 else 0)
  }

  /** How many of some times are at or after one. */
  function Since(times: seq<int>, from: int): nat
  {
    if times == [] then 0 else
    var t := times[|times| - 1];
    Since(times[..|times| - 1], from) + (if from <= t then 1 else 0)
  }

  lemma {:induction false} SpanOfRecent(times: seq<int>, from: int)
    requires forall i | 0 <= i < |times| :: times[i] < from + WINDOW
    ensures InSpan(times, from) == Since(times, from)
  {
    if times != [] {
      SpanOfRecent(times[..|times| - 1], from);
    }
  }

  lemma OneMore(times: seq<int>, t: int, from: int)
    ensures InSpan(times + [t], from) == InSpan(times, from) + (if from <= t < from + WINDOW then 1 else 0)
    ensures Since(times + [t], from) == Since(times, from) + (if from <= t then 1 else 0)
  {
    assert (times + [t])[..|times|] == times;
  }

  /**
   What one prefix has had. While its window `w` runs, everything since before `w` is the window's count, and
   what the window before it can still add to a span is one less than the budget.
   */
  ghost predicate PrefixOk(e: Option<Entry>, times: seq<int>, now: int, budget: nat)
  {
    && (forall i | 0 <= i < |times| :: times[i] <= now)
    && (forall from :: InSpan(times, from) <= 2 * budget - 1)
    && match e
       case Some(Entry(w, c)) =>
         && w <= now && 1 <= c <= budget
         && (forall from | from > w :: Since(times, from) <= c - 1)
         && (forall from | from > w - WINDOW :: Since(times, from) <= budget - 1 + c)
       case None => forall from | from > now - WINDOW :: Since(times, from) <= budget - 1
  }

  function EntryOf(table: Table, source: Prefix): Option<Entry> { if source in table then Some(table[source]) else None }

  /** Time passes, and a window that is over is forgotten. */
  lemma TimePasses(table: Table, source: Prefix, times: seq<int>, was: int, now: int, budget: nat)
    requires PrefixOk(EntryOf(table, source), times, was, budget) && was <= now
    ensures PrefixOk(EntryOf(Live(table, now), source), times, now, budget)
  {}

  lemma AdmissionOk(e: Option<Entry>, times: seq<int>, now: int, budget: nat)
    requires PrefixOk(e, times, now, budget) && (e.Some? ==> e.value.count < budget && e.value.window > now - WINDOW)
             && budget > 0
    ensures var entry := if e.Some? then e.value else Entry(now, 0);
            PrefixOk(Some(entry.(count := entry.count + 1)), times + [now], now, budget)
  {
    forall from
      ensures InSpan(times + [now], from) == InSpan(times, from) + (if from <= now < from + WINDOW then 1 else 0)
      ensures Since(times + [now], from) == Since(times, from) + (if from <= now then 1 else 0)
    {
      OneMore(times, now, from);
    }
    forall from ensures InSpan(times + [now], from) <= 2 * budget - 1 {
      if now < from + WINDOW {
        SpanOfRecent(times + [now], from);
      }
    }
    if e.None? { NothingLater(times, now); }
  }

  lemma {:induction false} NothingLater(times: seq<int>, now: int)
    requires forall i | 0 <= i < |times| :: times[i] <= now
    ensures forall from | from > now :: Since(times, from) == 0
  {
    if times != [] {
      NothingLater(times[..|times| - 1], now);
    }
  }

  /** One request, whoever it comes from. */
  lemma RequestOk(table: Table, r: Request, source: Prefix, times: seq<int>, was: int, budget: nat)
    requires PrefixOk(EntryOf(table, source), times, was, budget) && was <= r.now && budget > 0
    ensures var (table', admitted) := Decide(table, r.source, r.now, budget);
            PrefixOk(EntryOf(table', source), if r.source == source && admitted then times + [r.now] else times, r.now, budget)
  {
    TimePasses(table, source, times, was, r.now, budget);
    var live := Live(table, r.now);
    hide PrefixOk;
    if r.source == source && Decide(table, source, r.now, budget).1 {
      AdmissionOk(EntryOf(live, source), times, r.now, budget);
    }
  }

  lemma {:induction false} PrefixRun(requests: seq<Request>, budget: nat, source: Prefix)
    requires Ordered(requests) && budget > 0 && requests != []
    ensures PrefixOk(EntryOf(TableAfter(requests, budget), source), Admitted(requests, budget, source),
                     requests[|requests| - 1].now, budget)
  {
    var before, last := requests[..|requests| - 1], requests[|requests| - 1];
    var was := if before == [] then last.now else before[|before| - 1].now;
    if before != [] { PrefixRun(before, budget, source); }
    RequestOk(TableAfter(before, budget), last, source, Admitted(before, budget, source), was, budget);
  }

  // ----- nobody below the budget is refused -----

  /** A window's count is what was admitted since it began, and it began after everything older was admitted. */
  ghost predicate CountOk(e: Option<Entry>, times: seq<int>, now: int)
  {
    match e
    case Some(Entry(w, c)) => w <= now && Since(times, w) == c && forall i | 0 <= i < |times| :: times[i] < w + WINDOW
    case None => forall i | 0 <= i < |times| :: times[i] < now
  }

  lemma {:induction false} NoneSince(times: seq<int>, from: int)
    requires forall i | 0 <= i < |times| :: times[i] < from
    ensures Since(times, from) == 0
  {
    if times != [] {
      NoneSince(times[..|times| - 1], from);
    }
  }

  lemma {:induction false} SinceEarlier(times: seq<int>, a: int, b: int)
    requires a <= b
    ensures Since(times, b) <= Since(times, a)
  {
    if times != [] {
      SinceEarlier(times[..|times| - 1], a, b);
    }
  }

  lemma RequestCounts(table: Table, r: Request, source: Prefix, times: seq<int>, was: int, budget: nat)
    requires CountOk(EntryOf(table, source), times, was) && was <= r.now
    ensures var (table', admitted) := Decide(table, r.source, r.now, budget);
            CountOk(EntryOf(table', source), if r.source == source && admitted then times + [r.now] else times, r.now)
  {
    var e := EntryOf(Live(table, r.now), source);
    assert CountOk(e, times, r.now);
    if r.source == source {
      var entry := if e.Some? then e.value else Entry(r.now, 0);
      OneMore(times, r.now, entry.window);
      if e.None? { NoneSince(times, r.now); }
    }
  }

  lemma {:induction false} CountRun(requests: seq<Request>, budget: nat, source: Prefix)
    requires Ordered(requests) && requests != []
    ensures CountOk(EntryOf(TableAfter(requests, budget), source), Admitted(requests, budget, source),
                    requests[|requests| - 1].now)
  {
    var before, last := requests[..|requests| - 1], requests[|requests| - 1];
    var was := if before == [] then last.now else before[|before| - 1].now;
    if before != [] { CountRun(before, budget, source); }
    RequestCounts(TableAfter(before, budget), last, source, Admitted(before, budget, source), was, budget);
  }

  /**
   For any requests in time order: a registration is refused only if its prefix has already been admitted as often as
   the budget allows within the last 60 seconds, or if it is a new prefix and the table is full of running windows.
   */
  lemma RefusedOnlyOver(requests: seq<Request>, r: Request, budget: nat)
    requires Ordered(requests + [r]) && !Decide(TableAfter(requests, budget), r.source, r.now, budget).1
    ensures || Since(Admitted(requests, budget, r.source), r.now - WINDOW + 1) >= budget
            || (&& r.source !in Live(TableAfter(requests, budget), r.now)
                && |Live(TableAfter(requests, budget), r.now)| >= MAX_PREFIXES)
  {
    var table, times := TableAfter(requests, budget), Admitted(requests, budget, r.source);
    if requests != [] {
      assert forall i | 0 <= i < |requests| :: (requests + [r])[i] == requests[i];
      CountRun(requests, budget, r.source);
    }
    if r.source in Live(table, r.now) {
      SinceEarlier(times, r.now - WINDOW + 1, table[r.source].window);
    }
  }

  lemma SubsetSize<T>(a: set<T>, b: set<T>)
    requires a <= b
    ensures |a| <= |b|
  {
    assert b == a + (b - a);
  }

  lemma PutSize(table: Table, source: Prefix, e: Entry)
    ensures |table[source := e]| == |table| + (if source in table then 0 else 1)
  {
    assert table[source := e].Keys == table.Keys + {source};
    if source in table {
      assert table.Keys + {source} == table.Keys;
    } else {
      assert |table.Keys + {source}| == |table.Keys| + 1;
    }
  }

  lemma DecideSize(table: Table, source: Prefix, now: int, budget: nat)
    requires |table| <= MAX_PREFIXES
    ensures |Decide(table, source, now, budget).0| <= MAX_PREFIXES
  {
    var live := Live(table, now);
    assert live.Keys <= table.Keys;
    SubsetSize(live.Keys, table.Keys);
    var entry := if source in live then live[source] else Entry(now, 0);
    PutSize(live, source, entry);
    PutSize(live, source, entry.(count := entry.count + 1));
  }

  /** The table never holds more than its limit of prefixes. */
  lemma {:induction false} TableBounded(requests: seq<Request>, budget: nat)
    ensures |TableAfter(requests, budget)| <= MAX_PREFIXES
  {
    hide Decide;
    if requests != [] {
      var before, last := requests[..|requests| - 1], requests[|requests| - 1];
      TableBounded(before, budget);
      DecideSize(TableAfter(before, budget), last.source, last.now, budget);
    }
  }

  /**
   For any requests in time order, one prefix gets at most `2 * budget - 1` registrations admitted in any
   half-open span of 60 seconds; with no budget it gets none.
   */
  lemma BudgetHolds(requests: seq<Request>, budget: nat, source: Prefix, from: int)
    requires Ordered(requests)
    ensures InSpan(Admitted(requests, budget, source), from) <= if budget == 0 then 0 else 2 * budget - 1
  {
    if budget == 0 {
      NoneAdmitted(requests, source);
    } else if requests != [] {
      PrefixRun(requests, budget, source);
    }
  }

  lemma {:induction false} NoneAdmitted(requests: seq<Request>, source: Prefix)
    ensures Admitted(requests, 0, source) == []
  {
    if requests != [] {
      NoneAdmitted(requests[..|requests| - 1], source);
    }
  }
}
