/** Collected journal streams: their rows, the transactions on them, and the one history each of them has. */
module JournalStreams {
  import opened Wrappers
  import opened JournalReader

  type StreamId = nat
  type Incarnation = nat

  /** One row of `journal_streams`. */
  datatype Stream = Stream(target: nat, selector: nat, incarnation: Incarnation, cursor: Option<Cursor>,
                           generation: nat, gaps: nat)

  type Table = map<StreamId, Stream>

  /** What a worker was handed when it opened the stream. */
  datatype Expected = Expected(id: StreamId, incarnation: Incarnation, cursor: Option<Cursor>, generation: nat)

  /** A validated batch of the expected incarnation. */
  datatype Batch = Batch(next: Option<Cursor>, gap: bool, empty: bool)

  datatype StoreError = Saturated | Corrupt

  datatype Outcome = Committed | Stale

  predicate Before(a: Cursor, b: Cursor) { a.segment < b.segment || (a.segment == b.segment && a.offset < b.offset) }

  /** The checks of `ValidatedJournalBatch::new` that relate a batch to the position it was fetched from. */
  predicate Follows(cursor: Option<Cursor>, b: Batch)
  {
    && (!b.empty ==> b.next.Some?)
    && (!b.gap && !b.empty && cursor.Some? ==> Before(cursor.value, b.next.value))
    && (!b.gap && b.empty ==> b.next == cursor)
  }

  // ----- transactions as functions of the table -----

  predicate Matches(table: Table, target: nat, e: Expected)
  {
    && e.id in table && table[e.id].target == target && table[e.id].incarnation == e.incarnation
    && table[e.id].cursor == e.cursor && table[e.id].generation == e.generation
  }

  function CommitBatch(table: Table, target: nat, e: Expected, b: Batch): Table
    requires Matches(table, target, e)
  {
    var bump := if b.gap then 1 else 0;
    var row := table[e.id];
    table[e.id := row.(cursor := b.next, generation := row.generation + bump, gaps := row.gaps + bump)]
  }

  function Restarted(row: Stream, incarnation: Incarnation): Stream
  {
    row.(incarnation := incarnation, cursor := None, generation := row.generation + 1, gaps := row.gaps + 1)
  }

  function ExpectedOf(id: StreamId, row: Stream): Expected { Expected(id, row.incarnation, row.cursor, row.generation) }

  predicate IsStreamOf(table: Table, id: StreamId, target: nat, selector: nat)
  {
    id in table && table[id].target == target && table[id].selector == selector
  }

  /** The streams that a target has. */
  function StreamsOf(table: Table, target: nat): set<StreamId> { set id | id in table && table[id].target == target }

  /** The store's table of streams. `current` says whether the caller's registration is still the current one. */
  class StreamStore {
    var table: Table
    const maxPerTarget: nat

    constructor (maxPerTarget: nat)
      ensures table == map[] && this.maxPerTarget == maxPerTarget
    {
      table, this.maxPerTarget := map[], maxPerTarget;
    }

    /** The row that a query by target and selector finds. */
    method Find(target: nat, selector: nat) returns (found: Option<StreamId>)
      ensures found.Some? ==> IsStreamOf(table, found.value, target, selector)
      ensures found.None? ==> forall id | id in table :: !IsStreamOf(table, id, target, selector)
    {
      var left := table.Keys;
      while left != {}
        invariant left <= table.Keys
        invariant forall id | id in table && id !in left :: !IsStreamOf(table, id, target, selector)
        decreases left
      {
        var id :| id in left;
        if table[id].target == target && table[id].selector == selector { return Some(id); }
        left := left - {id};
      }
      found := None;
    }

    /** `open_journal_stream`; `minted` is the identifier a new stream would get. */
    method OpenJournalStream(current: bool, target: nat, selector: nat, listed: Incarnation, minted: StreamId)
      returns (r: Result<Option<Expected>, StoreError>)
      requires minted !in table
      modifies this
      ensures !current <==> r == Ok(None)
      ensures r.Err? || !current ==> table == old(table)
      ensures r.Err? <==> && current && |StreamsOf(old(table), target)| >= maxPerTarget
                          && forall id | id in old(table) :: !IsStreamOf(old(table), id, target, selector)
      ensures r.Err? ==> r.error == Saturated
      ensures current && r.Ok? ==>
                && r.value.Some?
                && var e := r.value.value;
                   && Matches(table, target, e) && e.incarnation == listed && table[e.id].selector == selector
                   && Opened(old(table), table, e.id, target, selector, listed)
      ensures forall id | current && IsStreamOf(old(table), id, target, selector) ::
                && r.Ok? && IsStreamOf(old(table), r.value.value.id, target, selector)
                && (old(table)[r.value.value.id].incarnation == listed ==>
                      table == old(table) && r.value.value.cursor == old(table)[r.value.value.id].cursor)
    {
      if !current { return Ok(None); }
      var found := Find(target, selector);
      if found.Some? {
        var id := found.value;
        var row := table[id];
        if row.incarnation != listed {
          table := table[id := row.(incarnation := listed, cursor := None, generation := row.generation + 1,
                                    gaps := row.gaps + 1)];
        }
        return Ok(Some(ExpectedOf(id, table[id])));
      }
      if |StreamsOf(table, target)| >= maxPerTarget { return Err(Saturated); }
      table := table[minted := Stream(target, selector, listed, None, 0, 0)];
      r := Ok(Some(ExpectedOf(minted, table[minted])));
    }

    /** `commit_journal_batch` */
    method CommitJournalBatch(current: bool, target: nat, e: Expected, b: Batch) returns (r: Outcome)
      modifies this
      ensures r == Committed <==>
                && current && e.id in old(table) && old(table)[e.id].target == target
                && ExpectedOf(e.id, old(table)[e.id]) == e
      ensures r == Committed ==> Matches(old(table), target, e) && table == CommitBatch(old(table), target, e, b)
      ensures r == Committed ==> table[e.id].cursor == b.next && table[e.id].incarnation == e.incarnation
                                 && table[e.id].generation == e.generation + (if b.gap then 1 else 0)
      ensures r == Stale ==> table == old(table)
    {
      if !current { return Stale; }
      if e.id !in table || table[e.id].target != target { return Stale; }
      var row := table[e.id];
      if row.incarnation != e.incarnation || row.cursor != e.cursor || row.generation != e.generation { return Stale; }
      var generation := e.generation + if b.gap then 1 else 0;
      table := table[e.id := row.(cursor := b.next, generation := generation, gaps := row.gaps + if b.gap then 1 else 0)];
      r := Committed;
    }

    /** `commit_incarnation_change` */
    method CommitIncarnationChange(current: bool, target: nat, e: Expected, incarnation: Incarnation)
      returns (r: Result<Outcome, StoreError>)
      modifies this
      ensures incarnation == e.incarnation ==> r == Err(Corrupt) && table == old(table)
      ensures incarnation != e.incarnation ==>
                && r.Ok?
                && (r == Ok(Committed) <==>
                      && current && e.id in old(table) && old(table)[e.id].target == target
                      && old(table)[e.id].incarnation == e.incarnation && old(table)[e.id].generation == e.generation)
      ensures r == Ok(Committed) ==> table == old(table)[e.id := Restarted(old(table)[e.id], incarnation)]
      ensures r == Ok(Committed) ==> table[e.id].incarnation == incarnation && table[e.id].cursor.None?
                                     && table[e.id].generation == e.generation + 1
      ensures r != Ok(Committed) ==> table == old(table)
    {
      if incarnation == e.incarnation { return Err(Corrupt); }
      if !current || e.id !in table { return Ok(Stale); }
      var row := table[e.id];
      if row.target != target || row.incarnation != e.incarnation || row.generation != e.generation { return Ok(Stale); }
      table := table[e.id := row.(incarnation := incarnation, cursor := None, generation := row.generation + 1,
                                  gaps := row.gaps + 1)];
      r := Ok(Committed);
    }
  }

  /** The part of the expected state that an incarnation change compares. */
  predicate Fenced(table: Table, target: nat, e: Expected)
  {
    && e.id in table && table[e.id].target == target && table[e.id].incarnation == e.incarnation
    && table[e.id].generation == e.generation
  }

  /** No journal of a target has two rows. */
  predicate Unique(table: Table)
  {
    forall a, b | a in table && b in table && table[a].target == table[b].target && table[a].selector == table[b].selector ::
      a == b
  }

  /** What opening did: nothing, a restart under another incarnation, or the first row of the journal. */
  predicate Opened(table: Table, table': Table, id: StreamId, target: nat, selector: nat, listed: Incarnation)
  {
    && IsStreamOf(table', id, target, selector) && table' == table[id := table'[id]]
    && if id in table then
         table'[id] == if table[id].incarnation == listed then table[id] else Restarted(table[id], listed)
       else && (forall j | j in table :: !IsStreamOf(table, j, target, selector))
            && table'[id] == Stream(target, selector, listed, None, 0, 0)
  }

  // ----- every run of transactions -----

  datatype Op =
    | Open(id: StreamId, target: nat, selector: nat, listed: Incarnation)
    | Commit(target: nat, e: Expected, b: Batch)
    | Change(target: nat, e: Expected, incarnation: Incarnation)
    | Nothing   // refused, stale or failed

  /** One transaction; what it says of itself is what the methods ensure. */
  predicate Step(table: Table, op: Op, table': Table)
  {
    match op
    case Open(id, target, selector, listed) => Opened(table, table', id, target, selector, listed)
    case Commit(target, e, b) => Matches(table, target, e) && Follows(e.cursor, b) && table' == CommitBatch(table, target, e, b)
    case Change(target, e, incarnation) =>
      Fenced(table, target, e) && incarnation != e.incarnation
      && table' == table[e.id := Restarted(table[e.id], incarnation)]
    case Nothing => table' == table
  }

  predicate Run(tables: seq<Table>, ops: seq<Op>)
  {
    && |tables| == |ops| + 1 && tables[0] == map[]
    && forall i | 0 <= i < |ops| :: Step(tables[i], ops[i], tables[i + 1])
  }

  /** A later state of the same stream: a later generation, or the same one further on. */
  predicate NotAfter(a: Stream, b: Stream)
  {
    a.generation < b.generation
    || (a.generation == b.generation && a.incarnation == b.incarnation
        && (a.cursor == b.cursor || a.cursor.None? || (b.cursor.Some? && Before(a.cursor.value, b.cursor.value))))
  }

  lemma StepForward(table: Table, op: Op, table': Table, id: StreamId)
    requires Step(table, op, table') && id in table
    ensures id in table' && NotAfter(table[id], table'[id])
    ensures table'[id].generation - table[id].generation == table'[id].gaps - table[id].gaps
  {}

  lemma {:induction false} RunForward(tables: seq<Table>, ops: seq<Op>, i: nat, j: nat, id: StreamId)
    requires Run(tables, ops) && i <= j < |tables| && id in tables[i]
    ensures id in tables[j] && NotAfter(tables[i][id], tables[j][id])
    decreases j - i
  {
    if i < j {
      RunForward(tables, ops, i, j - 1, id);
      StepForward(tables[j - 1], ops[j - 1], tables[j], id);
    }
  }

  lemma StepUnique(table: Table, op: Op, table': Table)
    requires Step(table, op, table') && Unique(table)
    ensures Unique(table')
  {
    forall a, b | a in table' && b in table' && a in table && b in table
      ensures table'[a].target == table[a].target && table'[a].selector == table[a].selector
    {}
  }

  /** In every run a journal of a target has at most one row, and all opens hand out that row. */
  lemma {:induction false} OneRow(tables: seq<Table>, ops: seq<Op>, i: nat)
    requires Run(tables, ops) && i < |tables|
    ensures Unique(tables[i])
  {
    if i > 0 {
      OneRow(tables, ops, i - 1);
      StepUnique(tables[i - 1], ops[i - 1], tables[i]);
    }
  }

  lemma StepLabels(table: Table, op: Op, table': Table, id: StreamId)
    requires Step(table, op, table') && id in table
    ensures id in table' && table'[id].target == table[id].target && table'[id].selector == table[id].selector
  {}

  /** A row stays the row of its journal: an open of that journal at any later time is an open of this row. */
  lemma {:induction false} SameRow(tables: seq<Table>, ops: seq<Op>, i: nat, j: nat, id: StreamId)
    requires Run(tables, ops) && i <= j < |ops| && id in tables[i] && ops[j].Open?
    requires ops[j].target == tables[i][id].target && ops[j].selector == tables[i][id].selector
    ensures ops[j].id == id
  {
    LabelsStay(tables, ops, i, j, id);
    OneRow(tables, ops, j);
    assert Step(tables[j], ops[j], tables[j + 1]);
  }

  lemma {:induction false} LabelsStay(tables: seq<Table>, ops: seq<Op>, i: nat, j: nat, id: StreamId)
    requires Run(tables, ops) && i <= j < |tables| && id in tables[i]
    ensures id in tables[j] && tables[j][id].target == tables[i][id].target && tables[j][id].selector == tables[i][id].selector
    decreases j - i
  {
    if i < j {
      LabelsStay(tables, ops, i, j - 1, id);
      StepLabels(tables[j - 1], ops[j - 1], tables[j], id);
    }
  }

  /** Rows are made only while their target has fewer than `limit`. */
  predicate Limited(limit: nat, tables: seq<Table>, ops: seq<Op>)
    requires |tables| == |ops| + 1
  {
    forall i | 0 <= i < |ops| && ops[i].Open? && ops[i].id !in tables[i] :: |StreamsOf(tables[i], ops[i].target)| < limit
  }

  lemma {:induction false} StreamsBounded(limit: nat, tables: seq<Table>, ops: seq<Op>, i: nat, target: nat)
    requires Run(tables, ops) && Limited(limit, tables, ops) && i < |tables|
    ensures |StreamsOf(tables[i], target)| <= limit
  {
    if i > 0 {
      StreamsBounded(limit, tables, ops, i - 1, target);
      StreamsStep(tables[i - 1], ops[i - 1], tables[i], target);
    }
  }

  lemma StreamsStep(table: Table, op: Op, table': Table, target: nat)
    requires Step(table, op, table')
    ensures StreamsOf(table', target) == StreamsOf(table, target)
            || (&& op.Open? && op.id !in table && op.target == target
                && StreamsOf(table', target) == StreamsOf(table, target) + {op.id})
  {}

  /** Generation and gap count rise in lock step. */
  lemma {:induction false} GapsAreGenerations(tables: seq<Table>, ops: seq<Op>, i: nat, id: StreamId)
    requires Run(tables, ops) && i < |tables| && id in tables[i]
    ensures tables[i][id].generation == tables[i][id].gaps
  {
    if i > 0 && id in tables[i - 1] {
      GapsAreGenerations(tables, ops, i - 1, id);
      StepForward(tables[i - 1], ops[i - 1], tables[i], id);
    } else if i > 0 {
      assert Step(tables[i - 1], ops[i - 1], tables[i]);
    }
  }

  /** A commit that carries records or a gap. */
  predicate Moves(op: Op) { op.Commit? && (!op.b.empty || op.b.gap) }

  /** Records without a gap raise the cursor within the generation; a gap begins the next generation. */
  lemma CommitRaises(table: Table, op: Op, table': Table)
    requires Step(table, op, table') && Moves(op)
    ensures var a, b := table[op.e.id], table'[op.e.id];
            if op.b.gap then b.generation == a.generation + 1
            else && b.generation == a.generation && b.incarnation == a.incarnation && b.cursor.Some?
                 && (a.cursor.Some? ==> Before(a.cursor.value, b.cursor.value))
  {}

  /** Two commits that carry records or a gap never both succeed from the same expected state. */
  lemma OneWinner(tables: seq<Table>, ops: seq<Op>, i: nat, j: nat)
    requires Run(tables, ops) && i < j < |ops| && Moves(ops[i]) && Moves(ops[j])
    ensures ops[i].e != ops[j].e
  {
    var id := ops[i].e.id;
    assert Step(tables[i], ops[i], tables[i + 1]) && Step(tables[j], ops[j], tables[j + 1]);
    CommitRaises(tables[i], ops[i], tables[i + 1]);
    RunForward(tables, ops, i + 1, j, id);
  }

  /** Within one generation of a stream the cursors of all its states form one rising line. */
  lemma OneLine(tables: seq<Table>, ops: seq<Op>, i: nat, j: nat, id: StreamId)
    requires Run(tables, ops) && i <= j < |tables| && id in tables[i] && id in tables[j]
    requires tables[i][id].generation == tables[j][id].generation && tables[i][id].cursor.Some?
    ensures tables[j][id].incarnation == tables[i][id].incarnation && tables[j][id].cursor.Some?
    ensures tables[j][id].cursor == tables[i][id].cursor || Before(tables[i][id].cursor.value, tables[j][id].cursor.value)
  {
    RunForward(tables, ops, i, j, id);
  }
}
