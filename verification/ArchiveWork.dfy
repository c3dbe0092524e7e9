/** The archive's jobs, call by call, and what the files hold meanwhile. */
module ArchiveWork {
  import opened ArchiveDisk
  import opened ArchiveLedger
  import opened ArchiveSafety

  ghost predicate DirsDurable(d: Disk) { forall st | st in d.dirs :: d.dirs[st] }

  /** The file holds exactly its committed frames. */
  ghost predicate Exactly(d: Disk, ledger: Ledger, k: Key)
  {
    Firm(d, k) && d.files[k].bytes == Committed(ledger, k)
  }

  ghost predicate FrameOk(world: World, ledger: Ledger, t: nat, f: Frame)
  {
    && world.owner(f.key.stream) == t && f.start == |Committed(ledger, f.key)|
    && 0 < |f.data| <= MAX_COMPRESSED_FRAME_BYTES
  }

  /** The frame stands behind the committed ones and is on disk. */
  ghost predicate Appended(d: Disk, ledger: Ledger, f: Frame)
  {
    && Firm(d, f.key) && d.files[f.key].bytes == Committed(ledger, f.key) + f.data
    && d.files[f.key].synced == |d.files[f.key].bytes|
  }

  ghost predicate Written(d: Disk, ledger: Ledger, f: Frame)
  {
    f.key in d.files && d.files[f.key].bytes == Committed(ledger, f.key) + f.data
  }

  // ----- an append -----

  ghost predicate AppendStage(d: Disk, ledger: Ledger, f: Frame, todo: seq<Call>)
  {
    var k := f.key;
    || (todo == AppendCalls(d, k, f.data) && (k in d.files ==> Exactly(d, ledger, k)) && DirsDurable(d))
    || (todo == [SyncRoot] + AppendCalls(d, k, f.data) && k !in d.files && k.stream in d.dirs)
    || (todo == [Append(k, f.data), SyncData(k), SyncDir(k.stream)] && DirsDurable(d)
        && k in d.files && d.files[k].bytes == Committed(ledger, k))
    || (todo == [SyncData(k), SyncDir(k.stream)] && DirsDurable(d) && Written(d, ledger, f))
    || (todo == [SyncData(k)] && DirsDurable(d) && Written(d, ledger, f) && Firm(d, k))
    || (todo == [SyncDir(k.stream)] && DirsDurable(d) && Written(d, ledger, f) && d.files[k].synced == |d.files[k].bytes|)
    || (todo == [] && DirsDurable(d) && Appended(d, ledger, f))
  }

  lemma AppendCallKeeps(world: World, d: Disk, ledger: Ledger, f: Frame, todo: seq<Call>)
    requires BaseInv(world, d, ledger) && AppendStage(d, ledger, f, todo) && todo != []
    ensures Possible(d, todo[0]) && Gentle(d, ledger, todo[0])
    ensures AppendStage(Do(d, todo[0]), ledger, f, todo[1..])
  {
    var k := f.key;
    assert k !in d.files ==> Committed(ledger, k) == [] by { Uncommitted(world, d, ledger, k); }
    hide BaseInv;
    if todo == AppendCalls(d, k, f.data) && k in d.files && k.stream in d.dirs {
      assert todo == [Append(k, f.data), SyncData(k)];
    } else if todo == AppendCalls(d, k, f.data) {
      AppendNew(d, ledger, f, todo) by { SoundDir(world, d, ledger, k); }
    } else if todo[0] == SyncRoot {
      assert todo[1..] == AppendCalls(d, k, f.data);
    }
  }

  lemma SoundDir(world: World, d: Disk, ledger: Ledger, k: Key)
    requires BaseInv(world, d, ledger)
    ensures k in d.files ==> k.stream in d.dirs
  {}

  lemma Uncommitted(world: World, d: Disk, ledger: Ledger, k: Key)
    requires BaseInv(world, d, ledger)
    ensures k !in d.files ==> RowsOf(ledger, k) == []
  {
    assert RowsOf(ledger, k) != [] ==> Durable(d, ledger, k);
  }

  /** The first call for a file that does not exist yet. */
  lemma AppendNew(d: Disk, ledger: Ledger, f: Frame, todo: seq<Call>)
    requires f.key !in d.files && todo == AppendCalls(d, f.key, f.data) && DirsDurable(d)
    requires Committed(ledger, f.key) == []
    ensures Possible(d, todo[0]) && Gentle(d, ledger, todo[0])
    ensures AppendStage(Do(d, todo[0]), ledger, f, todo[1..])
  {
    var k := f.key;
    var made := [CreateFile(k), Append(k, f.data), SyncData(k), SyncDir(k.stream)];
    if k.stream in d.dirs {
      assert todo == made;
      assert todo[1..] == [Append(k, f.data), SyncData(k), SyncDir(k.stream)];
    } else {
      assert todo == [MakeDir(k.stream), SyncRoot] + made;
      var d' := Do(d, MakeDir(k.stream));
      assert AppendCalls(d', k, f.data) == made;
      assert todo[1..] == [SyncRoot] + made;
    }
  }

  // ----- a truncation -----

  ghost predicate CutStage(d: Disk, ledger: Ledger, f: Frame, todo: seq<Call>)
  {
    || (todo == [SetLen(f.key, f.start), SyncData(f.key)] && Appended(d, ledger, f))
    || (todo == [SyncData(f.key)] && Exactly(d, ledger, f.key))
    || (todo == [] && Exactly(d, ledger, f.key))
  }

  lemma CutCallKeeps(d: Disk, ledger: Ledger, f: Frame, todo: seq<Call>)
    requires CutStage(d, ledger, f, todo) && todo != [] && f.start == |Committed(ledger, f.key)|
    ensures Possible(d, todo[0]) && Gentle(d, ledger, todo[0])
    ensures CutStage(Do(d, todo[0]), ledger, f, todo[1..])
  {}

  // ----- retention and recovery -----

  ghost predicate PruneStage(d: Disk, ledger: Ledger, job: Job, todo: seq<Call>)
    requires job.PruneJob?
  {
    || todo == []
    || (exists k: Key :: k in d.files && k.stream in d.dirs && k.day < job.cutoff && job.freed == |d.files[k].bytes|
                         && todo == [Remove(k), SyncDir(k.stream)])
    || (exists st :: st in d.dirs && todo == [SyncDir(st)])
    || (exists st :: Possible(d, RemoveDir(st)) && todo == [RemoveDir(st), SyncRoot] && job.freed == 0)
    || (todo == [SyncRoot] && job.freed == 0)
  }

  lemma PruneCallKeeps(d: Disk, ledger: Ledger, job: Job, todo: seq<Call>)
    requires job.PruneJob? && PruneStage(d, ledger, job, todo) && todo != []
    requires forall k: Key | k.day < job.cutoff :: RowsOf(ledger, k) == []
    ensures Possible(d, todo[0]) && Gentle(d, ledger, todo[0])
    ensures PruneStage(Do(d, todo[0]), ledger, job, todo[1..])
  {
    if todo[0].Remove? {
      var st := todo[0].key.stream;
      assert todo[1..] == [SyncDir(st)] && st in Do(d, todo[0]).dirs;
    } else if todo[0].RemoveDir? {
      assert todo[1..] == [SyncRoot];
    }
  }

  /** A file that recovery has dealt with. */
  ghost predicate Recovered(d: Disk, ledger: Ledger, k: Key)
  {
    RowsOf(ledger, k) != [] && Exactly(d, ledger, k)
  }

  ghost predicate RecoverStage(d: Disk, ledger: Ledger, left: set<Key>, todo: seq<Call>)
  {
    && left <= d.files.Keys
    && (|| (todo == [] && forall k | k in d.files && k !in left :: Recovered(d, ledger, k))
        || (exists k: Key :: RecoveringFile(d, ledger, left, todo, k))
        || (exists st ::
              st in d.dirs && todo == [SyncDir(st)] && forall k | k in d.files && k !in left :: Recovered(d, ledger, k))
        || (exists st :: Possible(d, RemoveDir(st)) && todo == [RemoveDir(st), SyncRoot]
                         && forall k | k in d.files && k !in left :: Recovered(d, ledger, k))
        || (todo == [SyncRoot] && forall k | k in d.files && k !in left :: Recovered(d, ledger, k)))
  }

  ghost predicate RecoveringFile(d: Disk, ledger: Ledger, left: set<Key>, todo: seq<Call>, k: Key)
  {
    && k in d.files && k.stream in d.dirs && k !in left
    && (forall j | j in d.files && j !in left && j != k :: Recovered(d, ledger, j))
    && (|| (todo == [Remove(k), SyncDir(k.stream)] && RowsOf(ledger, k) == [])
        || (todo == [SetLen(k, |Committed(ledger, k)|), SyncData(k)] && RowsOf(ledger, k) != [] && Durable(d, ledger, k))
        || (todo == [SyncData(k)] && Recovered(d, ledger, k)))
  }

  lemma RecoverCallKeeps(d: Disk, ledger: Ledger, left: set<Key>, todo: seq<Call>)
    requires RecoverStage(d, ledger, left, todo) && todo != []
    ensures Possible(d, todo[0]) && Gentle(d, ledger, todo[0])
    ensures RecoverStage(Do(d, todo[0]), ledger, left, todo[1..])
  {
    var c := todo[0];
    var d' := Do(d, c);
    if c.Remove? || c.SetLen? || c.SyncData? {
      var k :| RecoveringFile(d, ledger, left, todo, k);
      RecoverFileCall(d, ledger, left, todo, k);
    } else {
      assert forall k | k in d'.files && k !in left :: Recovered(d, ledger, k) && Recovered(d', ledger, k);
      if c.RemoveDir? { assert todo[1..] == [SyncRoot]; }
    }
  }

  lemma RecoverFileCall(d: Disk, ledger: Ledger, left: set<Key>, todo: seq<Call>, k: Key)
    requires left <= d.files.Keys && RecoveringFile(d, ledger, left, todo, k)
    ensures Possible(d, todo[0]) && Gentle(d, ledger, todo[0])
    ensures RecoverStage(Do(d, todo[0]), ledger, left, todo[1..])
  {
    var c := todo[0];
    var d' := Do(d, c);
    forall j | j in d'.files && j !in left && j != k ensures Recovered(d', ledger, j) {
      assert Recovered(d, ledger, j);
    }
    if c.Remove? {
      assert todo[1..] == [SyncDir(k.stream)];
    } else if c.SetLen? {
      assert todo[1..] == [SyncData(k)];
      assert Recovered(d', ledger, k);
      assert RecoveringFile(d', ledger, left, todo[1..], k);
    } else {
      assert Recovered(d', ledger, k);
    }
  }
}
