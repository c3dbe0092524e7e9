/** Every run of the collector: what recovery finds and what it leaves. */
module ArchiveRuns {
  import opened Wrappers
  import opened ArchiveDisk
  import opened ArchiveLedger
  import opened ArchiveSafety
  import opened ArchiveWork

  /** The file that a target's worker has in hand. */
  function InHand(s: Sys, t: nat): Option<Key>
  {
    match WorkerOf(s, t)
    case Holding(f) => Some(f.key)
    case Refused(f) => Some(f.key)
    case _ => if (s.job.AppendJob? || s.job.CutJob?) && s.job.target == t then Some(s.job.frame.key) else None
  }

  /** A file that nobody has in hand holds exactly its committed frames. */
  ghost predicate KeyInv(world: World, s: Sys, k: Key)
  {
    k in s.disk.files ==>
      || WorkerOf(s, world.owner(k.stream)).Dead?
      || InHand(s, world.owner(k.stream)) == Some(k)
      || (s.job.PruneJob? && k.day < s.job.cutoff)
      || Exactly(s.disk, s.ledger, k)
  }

  ghost predicate WorkerInv(world: World, s: Sys, t: nat)
  {
    match WorkerOf(s, t)
    case Holding(f) => FrameOk(world, s.ledger, t, f) && Appended(s.disk, s.ledger, f)
    case Refused(f) => FrameOk(world, s.ledger, t, f) && Appended(s.disk, s.ledger, f)
    case Appending => s.job.AppendJob? && s.job.target == t
    case Cutting => s.job.CutJob? && s.job.target == t
    case _ => true
  }

  ghost predicate JobInv(world: World, s: Sys)
  {
    match s.job
    case Free => s.todo == []
    case AppendJob(t, f) =>
      WorkerOf(s, t).Appending? && FrameOk(world, s.ledger, t, f) && AppendStage(s.disk, s.ledger, f, s.todo) && !s.poisoned
    case CutJob(t, f) => WorkerOf(s, t).Cutting? && FrameOk(world, s.ledger, t, f) && CutStage(s.disk, s.ledger, f, s.todo)
    case PruneJob(cutoff, _) =>
      && (forall t :: WorkerOf(s, t).Idle?) && PruneStage(s.disk, s.ledger, s.job, s.todo)
      && (forall k: Key | k.day < cutoff :: RowsOf(s.ledger, k) == [])
    case RecoverJob(_) => false
  }

  ghost predicate RunningInv(world: World, s: Sys)
  {
    && (forall k :: KeyInv(world, s, k))
    && (forall t :: WorkerInv(world, s, t))
    && JobInv(world, s)
    && (!s.poisoned && !s.job.AppendJob? ==> DirsDurable(s.disk))
  }

  ghost predicate SysInv(world: World, s: Sys)
  {
    && BaseInv(world, s.disk, s.ledger)
    && match s.process
       case Off => s.todo == []
       case Starting => s.workers == map[] && s.job.RecoverJob? && RecoverStage(s.disk, s.ledger, s.job.left, s.todo)
       case Running => RunningInv(world, s)
       case Failed => false
  }

  // ----- calls -----

  /** The next call of whatever runs is possible and keeps its hands off committed bytes. */
  lemma NextCallGentle(world: World, s: Sys)
    requires SysInv(world, s) && s.todo != []
    ensures Possible(s.disk, s.todo[0]) && Gentle(s.disk, s.ledger, s.todo[0])
  {
    hide BaseInv, AppendStage, CutStage, PruneStage, RecoverStage, KeyInv, WorkerInv, Possible, Gentle;
    match s.job
    case AppendJob(t, f) => AppendCallKeeps(world, s.disk, s.ledger, f, s.todo);
    case CutJob(t, f) => CutCallKeeps(s.disk, s.ledger, f, s.todo);
    case PruneJob(_, _) => PruneCallKeeps(s.disk, s.ledger, s.job, s.todo);
    case RecoverJob(left) => RecoverCallKeeps(s.disk, s.ledger, left, s.todo);
    case Free =>
  }

  lemma StoppedKeeps(world: World, s: Sys, d: Disk)
    requires SysInv(world, s) && Stopped(s, d)
    ensures BaseInv(world, d, s.ledger)
  {
    hide BaseInv, RunningInv, RecoverStage, Partly, Possible, Gentle;
    if d != s.disk {
      NextCallGentle(world, s);
      PartlyKeeps(world, s.disk, s.ledger, s.todo[0], d);
    }
  }

  predicate Touches(c: Call, k: Key)
  {
    (c.CreateFile? || c.Append? || c.SyncData? || c.SetLen? || c.Remove?) && c.key == k
  }

  /** A call on one file leaves what is known of the others. */
  lemma Elsewhere(d: Disk, ledger: Ledger, c: Call, k: Key)
    requires Possible(d, c) && k in Do(d, c).files && !Touches(c, k)
    ensures k in d.files && Do(d, c).files[k] == d.files[k]
    ensures Firm(d, k) ==> Firm(Do(d, c), k)
    ensures Exactly(d, ledger, k) ==> Exactly(Do(d, c), ledger, k)
  {}

  lemma AppendedElsewhere(d: Disk, ledger: Ledger, c: Call, f: Frame)
    requires Possible(d, c) && Appended(d, ledger, f) && !Touches(c, f.key)
    ensures Appended(Do(d, c), ledger, f)
  {}

  /** A job on the file of one target leaves the other files and workers as they are. */
  lemma OneFileCall(world: World, s: Sys, s': Sys, t: nat, f: Frame)
    requires (forall k :: KeyInv(world, s, k)) && (forall u :: WorkerInv(world, s, u))
    requires s.job == AppendJob(t, f) || s.job == CutJob(t, f)
    requires world.owner(f.key.stream) == t && (WorkerOf(s, t).Appending? || WorkerOf(s, t).Cutting?)
    requires Proceed(s, s') && forall k | k != f.key :: !Touches(s.todo[0], k)
    ensures (forall k :: KeyInv(world, s', k)) && (forall u :: WorkerInv(world, s', u))
  {
    var c := s.todo[0];
    forall k ensures KeyInv(world, s', k) {
      assert KeyInv(world, s, k);
      if k in s'.disk.files && k != f.key { Elsewhere(s.disk, s.ledger, c, k); }
    }
    forall u ensures WorkerInv(world, s', u) {
      assert WorkerInv(world, s, u);
      if WorkerOf(s, u).Holding? || WorkerOf(s, u).Refused? {
        AppendedElsewhere(s.disk, s.ledger, c, WorkerOf(s, u).frame);
      }
    }
  }

  lemma AppendTouches(d: Disk, ledger: Ledger, f: Frame, todo: seq<Call>)
    requires AppendStage(d, ledger, f, todo) && todo != []
    ensures forall k | k != f.key :: !Touches(todo[0], k)
  {}

  lemma AppendCallStep(world: World, s: Sys, s': Sys)
    requires SysInv(world, s) && s.process.Running? && s.job.AppendJob? && Proceed(s, s')
    ensures SysInv(world, s')
  {
    hide BaseInv, AppendStage, KeyInv, WorkerInv, Possible, Gentle, FrameOk;
    var t, f := s.job.target, s.job.frame;
    AppendCallKeeps(world, s.disk, s.ledger, f, s.todo);
    GentleKeeps(world, s.disk, s.ledger, s.todo[0]);
    AppendTouches(s.disk, s.ledger, f, s.todo);
    OneFileCall(world, s, s', t, f) by { OwnerOf(world, s.ledger, t, f); }
  }

  lemma OwnerOf(world: World, ledger: Ledger, t: nat, f: Frame)
    requires FrameOk(world, ledger, t, f)
    ensures world.owner(f.key.stream) == t && f.start == |Committed(ledger, f.key)|
  {}

  lemma CutCallStep(world: World, s: Sys, s': Sys)
    requires SysInv(world, s) && s.process.Running? && s.job.CutJob? && Proceed(s, s')
    ensures SysInv(world, s')
  {
    var t, f := s.job.target, s.job.frame;
    CutTouches(s.disk, s.ledger, f, s.todo);
    hide BaseInv, CutStage, KeyInv, WorkerInv, Possible, Gentle, FrameOk;
    OwnerOf(world, s.ledger, t, f);
    CutCallKeeps(s.disk, s.ledger, f, s.todo);
    GentleKeeps(world, s.disk, s.ledger, s.todo[0]);
    OneFileCall(world, s, s', t, f);
  }

  lemma CutTouches(d: Disk, ledger: Ledger, f: Frame, todo: seq<Call>)
    requires CutStage(d, ledger, f, todo) && todo != []
    ensures forall k | k != f.key :: !Touches(todo[0], k)
    ensures Possible(d, todo[0]) ==> Do(d, todo[0]).dirs == d.dirs
  {}

  lemma PruneCallStep(world: World, s: Sys, s': Sys)
    requires SysInv(world, s) && s.process.Running? && s.job.PruneJob? && Proceed(s, s')
    ensures SysInv(world, s')
  {
    hide BaseInv, Possible, Gentle, Exactly;
    PruneTouches(s.disk, s.ledger, s.job, s.todo);
    PruneCallKeeps(s.disk, s.ledger, s.job, s.todo);
    GentleKeeps(world, s.disk, s.ledger, s.todo[0]);
    hide PruneStage;
    forall t ensures WorkerOf(s', t).Idle? {
      assert WorkerOf(s, t).Idle?;
    }
    forall k ensures KeyInv(world, s', k) {
      assert KeyInv(world, s, k);
      if k in s'.disk.files && !Touches(s.todo[0], k) { Elsewhere(s.disk, s.ledger, s.todo[0], k); }
    }
    forall u ensures WorkerInv(world, s', u) {
      assert WorkerInv(world, s, u);
    }
  }

  lemma PruneTouches(d: Disk, ledger: Ledger, job: Job, todo: seq<Call>)
    requires job.PruneJob? && PruneStage(d, ledger, job, todo) && todo != []
    ensures forall k | Touches(todo[0], k) :: k.day < job.cutoff
    ensures Possible(d, todo[0]) && DirsDurable(d) ==> DirsDurable(Do(d, todo[0]))
    ensures Possible(d, todo[0]) ==> forall k | k in Do(d, todo[0]).files :: k in d.files
  {}

  lemma RecoverCallStep(world: World, s: Sys, s': Sys)
    requires SysInv(world, s) && s.process.Starting? && Proceed(s, s')
    ensures SysInv(world, s')
  {
    hide BaseInv, RecoverStage, Possible, Gentle;
    RecoverCallKeeps(s.disk, s.ledger, s.job.left, s.todo);
    GentleKeeps(world, s.disk, s.ledger, s.todo[0]);
  }

  // ----- the ledger -----

  /** Committing one frame changes what is committed for one file only. */
  lemma InsertRows(world: World, ledger: Ledger, f: Frame, k: Key)
    ensures k != f.key ==> RowsOf(Insert(world, ledger, f), k) == RowsOf(ledger, k)
    ensures k != f.key ==> Committed(Insert(world, ledger, f), k) == Committed(ledger, k)
  {}

  /** A commit always adds a row. */
  lemma InsertChanges(world: World, ledger: Ledger, f: Frame)
    ensures Insert(world, ledger, f) != ledger
  {
    assert |RowsOf(Insert(world, ledger, f), f.key)| == |RowsOf(ledger, f.key)| + 1;
  }

  /** The rows and the text of the file that the frame is committed to. */
  lemma InsertText(world: World, d: Disk, ledger: Ledger, t: nat, f: Frame)
    requires BaseInv(world, d, ledger) && FrameOk(world, ledger, t, f)
    ensures var ledger' := Insert(world, ledger, f);
            RowsOk(world, RowsOf(ledger', f.key)) && Committed(ledger', f.key) == Committed(ledger, f.key) + f.data
  {
    RowsExtend(world, RowsOf(ledger, f.key), f);
  }

  lemma InsertRowsOk(world: World, d: Disk, ledger: Ledger, t: nat, f: Frame)
    requires BaseInv(world, d, ledger) && FrameOk(world, ledger, t, f)
    ensures forall k | k in Insert(world, ledger, f) :: RowsOk(world, Insert(world, ledger, f)[k])
  {
    InsertText(world, d, ledger, t, f);
    hide RowsOk, FrameOk, Text;
  }

  lemma InsertDurable(world: World, d: Disk, ledger: Ledger, t: nat, f: Frame, k: Key)
    requires BaseInv(world, d, ledger) && FrameOk(world, ledger, t, f) && Appended(d, ledger, f)
    requires RowsOf(Insert(world, ledger, f), k) != []
    ensures Durable(d, Insert(world, ledger, f), k)
  {
    InsertText(world, d, ledger, t, f);
    InsertRows(world, ledger, f, k);
    assert k != f.key ==> Durable(d, ledger, k);
    hide BaseInv, Insert, Committed, RowsOf, RowsOk;
  }

  lemma InsertBase(world: World, d: Disk, ledger: Ledger, t: nat, f: Frame)
    requires BaseInv(world, d, ledger) && FrameOk(world, ledger, t, f) && Appended(d, ledger, f)
    ensures BaseInv(world, d, Insert(world, ledger, f)) && Exactly(d, Insert(world, ledger, f), f.key)
  {
    InsertRowsOk(world, d, ledger, t, f);
    InsertText(world, d, ledger, t, f);
    hide Insert, RowsOk, FrameOk, Durable, Committed, RowsOf;
    forall k | RowsOf(Insert(world, ledger, f), k) != [] ensures Durable(d, Insert(world, ledger, f), k) {
      InsertDurable(world, d, ledger, t, f, k);
    }
  }

  lemma SameCommitted(d: Disk, ledger: Ledger, ledger': Ledger, f: Frame, todo: seq<Call>)
    requires Committed(ledger', f.key) == Committed(ledger, f.key)
    ensures AppendStage(d, ledger, f, todo) ==> AppendStage(d, ledger', f, todo)
    ensures CutStage(d, ledger, f, todo) ==> CutStage(d, ledger', f, todo)
    ensures Appended(d, ledger, f) ==> Appended(d, ledger', f)
  {}

  lemma CommitStep(world: World, s: Sys, s': Sys, t: nat)
    requires SysInv(world, s) && Commit(world, s, s', t)
    ensures SysInv(world, s')
  {
    hide BaseInv, Appended, Exactly, Committed, FrameOk, JobInv, KeyInv, DirsDurable, Insert;
    var f := WorkerOf(s, t).frame;
    assert WorkerInv(world, s, t);
    if s'.ledger != s.ledger {
      InsertBase(world, s.disk, s.ledger, t, f);
    }
    forall k | k != f.key ensures Committed(s'.ledger, k) == Committed(s.ledger, k) {
      InsertRows(world, s.ledger, f, k);
    }
    hide WorkerInv;
    CommitJob(world, s, s', t);
    forall k ensures KeyInv(world, s', k) {
      CommitKey(world, s, s', t, k);
    }
    forall u ensures WorkerInv(world, s', u) {
      CommitWorker(world, s, s', t, u);
    }
  }

  lemma CommitKey(world: World, s: Sys, s': Sys, t: nat, k: Key)
    requires KeyInv(world, s, k) && WorkerInv(world, s, t) && Commit(world, s, s', t)
    requires forall j | j != WorkerOf(s, t).frame.key :: Committed(s'.ledger, j) == Committed(s.ledger, j)
    requires s'.ledger != s.ledger ==> Exactly(s.disk, s'.ledger, WorkerOf(s, t).frame.key)
    ensures KeyInv(world, s', k)
  {
    var f := WorkerOf(s, t).frame;
    CommitChanges(world, s, s', t);
    SameExactly(s.disk, s.ledger, s'.ledger, k);
    hide Commit, Committed, Appended, Insert, Firm, Exactly, FrameOk;
    if k == f.key {
      assert world.owner(k.stream) == t by { FrameOwner(world, s, t); }
    } else if world.owner(k.stream) != t {
      assert InHand(s', world.owner(k.stream)) == InHand(s, world.owner(k.stream));
    }
  }

  lemma FrameOwner(world: World, s: Sys, t: nat)
    requires WorkerInv(world, s, t) && WorkerOf(s, t).Holding?
    ensures world.owner(WorkerOf(s, t).frame.key.stream) == t
  {}

  lemma SameExactly(d: Disk, ledger: Ledger, ledger': Ledger, k: Key)
    ensures Committed(ledger', k) == Committed(ledger, k) && Exactly(d, ledger, k) ==> Exactly(d, ledger', k)
  {
    hide Committed;
  }

  /** What a commit changes: the ledger, and the worker whose frame it was. */
  lemma CommitChanges(world: World, s: Sys, s': Sys, t: nat)
    requires Commit(world, s, s', t)
    ensures s'.disk == s.disk && s'.job == s.job && forall u | u != t :: WorkerOf(s', u) == WorkerOf(s, u)
    ensures WorkerOf(s, t).Holding?
    ensures var f := WorkerOf(s, t).frame;
            WorkerOf(s', t) == Refused(f) || WorkerOf(s', t).Dead? || (WorkerOf(s', t).Idle? && s'.ledger != s.ledger)
  {
    InsertChanges(world, s.ledger, WorkerOf(s, t).frame);
    hide Insert;
  }

  lemma CommitWorker(world: World, s: Sys, s': Sys, t: nat, u: nat)
    requires WorkerInv(world, s, u) && WorkerInv(world, s, t) && Commit(world, s, s', t)
    requires forall j | j != WorkerOf(s, t).frame.key :: Committed(s'.ledger, j) == Committed(s.ledger, j)
    ensures WorkerInv(world, s', u)
  {
    hide Committed;
  }

  lemma CommitJob(world: World, s: Sys, s': Sys, t: nat)
    requires JobInv(world, s) && WorkerInv(world, s, t) && Commit(world, s, s', t)
    requires forall j | j != WorkerOf(s, t).frame.key :: Committed(s'.ledger, j) == Committed(s.ledger, j)
    ensures JobInv(world, s')
  {
    hide Committed, AppendStage, CutStage, PruneStage;
    if s.job.AppendJob? || s.job.CutJob? {
      SameCommitted(s.disk, s.ledger, s'.ledger, s.job.frame, s.todo);
    }
  }

  // ----- jobs begin and end -----

  lemma BeginAppendStep(world: World, s: Sys, s': Sys, t: nat, k: Key, data: Bytes)
    requires SysInv(world, s) && BeginAppend(world, s, s', t, k, data)
    ensures SysInv(world, s')
  {
    if s'.job.AppendJob? {
      var f := Frame(k, StartOf(s.disk, k), data);
      assert KeyInv(world, s, k);
      Uncommitted(world, s.disk, s.ledger, k);
      assert FrameOk(world, s.ledger, t, f);
      assert AppendStage(s.disk, s.ledger, f, s'.todo);
    }
    hide BaseInv, AppendStage, Exactly, Appended, AppendCalls, FrameOk;
    forall j ensures KeyInv(world, s', j) {
      assert KeyInv(world, s, j);
    }
    forall u ensures WorkerInv(world, s', u) {
      assert WorkerInv(world, s, u);
    }
  }

  lemma BeginCutStep(world: World, s: Sys, s': Sys, t: nat)
    requires SysInv(world, s) && BeginCut(s, s', t)
    ensures SysInv(world, s')
  {
    hide BaseInv, Exactly, Appended, FrameOk;
    assert WorkerInv(world, s, t);
    OwnerOf(world, s.ledger, t, WorkerOf(s, t).frame);
    forall j ensures KeyInv(world, s', j) {
      assert KeyInv(world, s, j);
    }
    forall u ensures WorkerInv(world, s', u) {
      assert WorkerInv(world, s, u);
    }
  }

  lemma BeginPruneStep(world: World, s: Sys, s': Sys, cutoff: nat)
    requires SysInv(world, s) && BeginPrune(s, s', cutoff)
    ensures SysInv(world, s')
  {
    RetainedKeeps(world, s.disk, s.ledger, cutoff);
    hide BaseInv, Retained;
    forall t ensures WorkerOf(s', t).Idle? {
      assert WorkerOf(s, t).Idle?;
    }
    forall k ensures KeyInv(world, s', k) {
      assert KeyInv(world, s, k) && WorkerOf(s, world.owner(k.stream)).Idle?;
    }
  }

  lemma PruneDecides(world: World, s: Sys, s': Sys, k: Key, st: nat)
    requires SysInv(world, s) && (PruneFile(s, s', k) || EndPrune(s, s') || (DropDir(s, s', st) && s.process.Running?))
    ensures SysInv(world, s')
  {
    assert PruneFile(s, s', k) ==> k.stream in s.disk.dirs;
    hide BaseInv, Exactly;
    forall t ensures WorkerOf(s', t).Idle? {
      assert WorkerOf(s, t).Idle?;
    }
    forall j ensures KeyInv(world, s', j) {
      assert KeyInv(world, s, j);
    }
    forall u ensures WorkerInv(world, s', u) {}
  }

  lemma FinishPrune(world: World, s: Sys, s': Sys)
    requires SysInv(world, s) && Finish(s, s') && s.job.PruneJob? && !s'.process.Failed?
    ensures SysInv(world, s')
  {
    hide BaseInv, Exactly;
    forall t ensures WorkerOf(s', t).Idle? {
      assert WorkerOf(s, t).Idle?;
    }
    forall j ensures KeyInv(world, s', j) {
      assert KeyInv(world, s, j);
    }
  }

  lemma FinishFile(world: World, s: Sys, s': Sys)
    requires SysInv(world, s) && Finish(s, s') && !s.job.PruneJob?
    ensures SysInv(world, s')
  {
    hide BaseInv, FrameOk;
    var t, f := s.job.target, s.job.frame;
    OwnerOf(world, s.ledger, t, f);
    assert s.job.AppendJob? ==> Appended(s.disk, s.ledger, f) && DirsDurable(s.disk);
    assert s.job.CutJob? ==> Exactly(s.disk, s.ledger, f.key);
    hide Exactly, Appended, AppendStage, CutStage, KeyInv, WorkerInv, DirsDurable;
    forall j ensures KeyInv(world, s', j) {
      FinishKey(world, s, s', j);
    }
    forall u ensures WorkerInv(world, s', u) {
      FinishWorker(world, s, s', u);
    }
  }

  lemma FinishKey(world: World, s: Sys, s': Sys, k: Key)
    requires KeyInv(world, s, k) && Finish(s, s') && (s.job.AppendJob? || s.job.CutJob?)
    requires world.owner(s.job.frame.key.stream) == s.job.target
    requires s.job.CutJob? ==> Exactly(s.disk, s.ledger, s.job.frame.key)
    requires WorkerOf(s, s.job.target).Appending? || WorkerOf(s, s.job.target).Cutting?
    ensures KeyInv(world, s', k)
  {
    hide Exactly;
  }

  lemma FinishWorker(world: World, s: Sys, s': Sys, u: nat)
    requires WorkerInv(world, s, u) && Finish(s, s') && (s.job.AppendJob? || s.job.CutJob?)
    requires FrameOk(world, s.ledger, s.job.target, s.job.frame)
    requires s.job.AppendJob? ==> Appended(s.disk, s.ledger, s.job.frame)
    ensures WorkerInv(world, s', u)
  {
    hide Appended, FrameOk;
  }

  lemma RecoverDecides(world: World, s: Sys, s': Sys, k: Key, row: Row, st: nat)
    requires SysInv(world, s) && (RecoverFile(world, s, s', k, row) || (DropDir(s, s', st) && s.process.Starting?))
    ensures SysInv(world, s')
  {
    if RecoverFile(world, s, s', k, row) {
      if RowsOf(s.ledger, k) != [] {
        assert Durable(s.disk, s.ledger, k);
        FinalIsLast(world, RowsOf(s.ledger, k), row);
        assert s.disk.files[k].bytes[row.start..row.end] == Committed(s.ledger, k)[row.start..row.end];
      }
      assert k.stream in s.disk.dirs;
      hide BaseInv;
      assert RecoveringFile(s'.disk, s'.ledger, s'.job.left, s'.todo, k);
    }
  }

  /** Recovery ends well, and every file holds exactly its committed frames. */
  lemma AllRecovered(world: World, s: Sys)
    requires SysInv(world, s) && s.process.Starting? && s.todo == [] && s.job.RecoverJob? && s.job.left == {}
    ensures forall k :: RowsOf(s.ledger, k) != [] ==> k in s.disk.files
    ensures forall k | k in s.disk.files :: Recovered(s.disk, s.ledger, k)
  {
    forall k ensures RowsOf(s.ledger, k) != [] ==> k in s.disk.files {
      Uncommitted(world, s.disk, s.ledger, k);
    }
    forall k | k in s.disk.files ensures Recovered(s.disk, s.ledger, k) {}
  }

  /** With every file recovered and no worker at work, everything is in order. */
  lemma RestedRuns(world: World, s: Sys)
    requires (forall k | k in s.disk.files :: Recovered(s.disk, s.ledger, k)) && DirsDurable(s.disk)
    requires s.workers == map[] && s.job.Free? && s.todo == []
    ensures RunningInv(world, s)
  {
    hide Committed, Firm, DirsDurable;
  }

  /** A file that recovery kept holds its committed frames, and only those. */
  lemma KeptFiles(s: Sys)
    requires forall k :: RowsOf(s.ledger, k) != [] ==> k in s.disk.files
    requires forall k | k in s.disk.files :: Recovered(s.disk, s.ledger, k)
    ensures forall k :: k in s.disk.files <==> RowsOf(s.ledger, k) != []
    ensures forall k | k in s.disk.files :: s.disk.files[k].bytes == Committed(s.ledger, k)
  {
    hide Committed, Firm;
    forall k ensures k in s.disk.files <==> RowsOf(s.ledger, k) != [] {}
  }

  lemma EndRecoverStep(world: World, s: Sys, s': Sys)
    requires SysInv(world, s) && EndRecover(s, s')
    ensures SysInv(world, s') && s'.process.Running?
    ensures forall k :: k in s'.disk.files <==> RowsOf(s'.ledger, k) != []
    ensures forall k | k in s'.disk.files :: s'.disk.files[k].bytes == Committed(s'.ledger, k)
  {
    hide BaseInv, RecoverStage, DirsDurable, Possible, RunningInv, Recovered, Total, RowsOf, Committed;
    AllRecovered(world, s);
    RemainingDirs(world, s.disk, s.ledger);
    KeptFiles(s);
    RestedRuns(world, s.(job := Free, process := Running, used := Total(s.disk.files), poisoned := false, failed := false));
  }

  lemma RemainingDirs(world: World, d: Disk, ledger: Ledger)
    requires BaseInv(world, d, ledger) && forall st | st in d.dirs :: !Possible(d, RemoveDir(st))
    ensures DirsDurable(d)
  {
    forall st | st in d.dirs ensures d.dirs[st] {
      assert !Possible(d, RemoveDir(st));
    }
  }
}
