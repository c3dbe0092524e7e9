/** The archive object: the source's methods in their own form, proved against the calls and sums of the model. */
module ArchiveCode {
  import opened Wrappers
  import opened Decimal
  import opened Sums
  import opened ArchiveDisk
  import opened ArchiveLedger
  import opened ArchiveSafety
  import opened ArchivePaths
  import F = FileSystem

  const MAX_ARCHIVE_FILES: nat := 4_067_328
  const MAX_JSONL_BATCH_BYTES: nat := 768 * 1024

  datatype ArchiveError = Io | Invalid | Limit | Capacity | Poisoned | MissingCommitted | HashMismatch

  /** Running calls one after another. */
  ghost predicate AllPossible(d: Disk, calls: seq<Call>)
    decreases |calls|
  {
    calls == [] || (Possible(d, calls[0]) && AllPossible(Do(d, calls[0]), calls[1..]))
  }

  ghost function DoAll(d: Disk, calls: seq<Call>): Disk
    requires AllPossible(d, calls)
    decreases |calls|
  {
    if calls == [] then d else DoAll(Do(d, calls[0]), calls[1..])
  }

  lemma {:induction false} DoOneMore(d: Disk, calls: seq<Call>, c: Call)
    requires AllPossible(d, calls) && Possible(DoAll(d, calls), c)
    ensures AllPossible(d, calls + [c]) && DoAll(d, calls + [c]) == Do(DoAll(d, calls), c)
    decreases |calls|
  {
    if calls == [] {
      assert [c][1..] == [];
    } else {
      assert (calls + [c])[1..] == calls[1..] + [c];
      DoOneMore(Do(d, calls[0]), calls[1..], c);
    }
  }

  lemma PlanShape(d: Disk, k: Key, data: Bytes)
    ensures var p := AppendCalls(d, k, data);
            var a := if k.stream in d.dirs then 0 else 2;
            var b := if k in d.files then a else a + 1;
            && |p| == (if k in d.files then b + 2 else b + 3)
            && (a == 2 ==> p[0] == MakeDir(k.stream) && p[1] == SyncRoot) && (b > a ==> p[a] == CreateFile(k))
            && p[b] == Append(k, data) && p[b + 1] == SyncData(k) && (k !in d.files ==> p[b + 2] == SyncDir(k.stream))
  {}

  /** A list of calls that was given up on: some were made, and the next failed, perhaps part way. */
  ghost predicate GivenUp(d: Disk, calls: seq<Call>, d': Disk)
  {
    exists n: nat :: n < |calls| && GivenUpAt(d, calls, d', n)
  }

  ghost predicate GivenUpAt(d: Disk, calls: seq<Call>, d': Disk, n: nat)
    requires n < |calls|
  {
    && AllPossible(d, calls[..n])
    && Possible(DoAll(d, calls[..n]), calls[n]) && Partly(DoAll(d, calls[..n]), calls[n], d')
  }

  /** The operating system: any call may fail, and a failed write may leave part of its bytes. */
  class Device {
    var disk: Disk
    ghost const world: World
    /** Where the step machine is. */
    ghost var sys: Sys
    /** How many calls have failed. */
    ghost var faults: nat

    constructor (d: Disk, ghost world: World, ghost sys: Sys)
      ensures disk == d && this.world == world && this.sys == sys
    {
      disk, this.world, this.sys := d, world, sys;
    }

    /** The machine got here from `start`, on the same disk. */
    ghost predicate Follows(start: Sys)
      reads this
    {
      sys.disk == disk && Leads(world, start, sys)
    }

    /** One call; the machine makes it too, or takes its way out of the job on failure. */
    method Issue(c: Call, ghost start: Sys) returns (ok: bool)
      requires Possible(disk, c) && Follows(start) && sys.todo != [] && sys.todo[0] == c
      modifies this
      ensures Follows(start)
      ensures ok ==> disk == Do(old(disk), c) && sys == old(sys).(disk := disk, todo := old(sys).todo[1..])
      ensures !ok ==> Partly(old(disk), c, disk) && sys == AfterFailure(old(sys)).(disk := disk)
      ensures faults == old(faults) + (if ok then 0 else 1)
    {
      ok, faults := false, faults + 1;
      if {
        case true =>
          disk, ok, faults := Do(disk, c), true, old(faults);
        case true =>
          disk := Do(disk, c);
        case true =>
          if c.Append? {
            var n: nat :| n <= |c.bytes|;
            disk := Do(disk, Append(c.key, c.bytes[..n]));
          }
        case true =>
      }
      CallIsStep(world, sys, disk, ok);
      hide Leads, Next;
      ghost var s' := if ok then sys.(disk := disk, todo := sys.todo[1..]) else AfterFailure(sys).(disk := disk);
      Then(world, start, sys, s');
      sys := s';
    }

    /** Two calls, one after the other. */
    method IssueBoth(a: Call, b: Call, ghost start: Sys) returns (ok: bool)
      requires Possible(disk, a) && Possible(Do(disk, a), b) && Follows(start) && sys.todo == [a, b]
      modifies this
      ensures Follows(start)
      ensures ok ==> disk == Do(Do(old(disk), a), b) && sys == old(sys).(disk := disk, todo := [])
      ensures !ok ==> Partly(old(disk), a, disk) || Partly(Do(old(disk), a), b, disk)
      ensures !ok ==> sys == AfterFailure(old(sys)).(disk := disk)
      ensures faults == old(faults) + (if ok then 0 else 1)
    {
      hide Leads, Do, Possible, Partly, Follows;
      ghost var was, d := sys, disk;
      ok := Issue(a, start);
      if !ok { return; }
      assert [a, b][1..] == [b] && [b][1..] == [];
      ok := Issue(b, start);
      FailsAlike(was, Do(d, a), [b], disk);
    }

    /** The machine decides what comes next. */
    ghost method Decide(s': Sys, start: Sys)
      requires Follows(start) && Next(world, sys, s') && s'.disk == disk
      modifies this`sys
      ensures Follows(start) && sys == s'
    {
      hide Leads, Next;
      Then(world, start, sys, s');
      sys := s';
    }

    /** An error outside the calls ends the process. */
    ghost method Abort(start: Sys)
      requires Follows(start)
      modifies this`sys
      ensures Follows(start) && sys == Ended(old(sys))
    {
      ExitIsStep(world, sys);
      Decide(Ended(sys), start);
    }
  }

  /** The files in some stream directories. */
  ghost function FilesIn(d: Disk, streams: set<nat>): set<Key> { set k | k in d.files && k.stream in streams }

  lemma OneMoreStream(d: Disk, streams: set<nat>, st: nat)
    requires st !in streams
    ensures |FilesIn(d, streams + {st})| == |FilesIn(d, streams)| + |FilesIn(d, {st})|
  {
    assert FilesIn(d, streams + {st}) == FilesIn(d, streams) + FilesIn(d, {st});
    assert FilesIn(d, streams) * FilesIn(d, {st}) == {};
  }

  lemma Fewer<T>(a: set<T>, b: set<T>)
    requires a <= b
    ensures |a| <= |b|
  {
    assert b == a + (b - a);
  }

  /** The files in some stream directories are those that were there. */
  ghost predicate SameIn(d: Disk, d': Disk, streams: set<nat>)
  {
    forall k: Key | k.stream in streams :: k in d'.files <==> k in d.files
  }

  lemma SameThere(d: Disk, d': Disk, streams: set<nat>, st: nat)
    requires SameIn(d, d', streams) && st in streams
    ensures FilesIn(d', {st}) == FilesIn(d, {st})
  {}

  lemma SameStill(d: Disk, before: Disk, d': Disk, streams: set<nat>, st: nat)
    requires SameIn(d, before, streams) && Elsewhere(before, d', st)
    ensures SameIn(d, d', streams - {st})
  {}

  /** Outside one stream directory the files are those that were there. */
  ghost predicate Elsewhere(d: Disk, d': Disk, st: nat)
  {
    forall k: Key | k.stream != st :: k in d'.files <==> k in d.files
  }

  lemma ElsewhereStill(d: Disk, before: Disk, d': Disk, st: nat, k: Key)
    requires Elsewhere(d, before, st) && k.stream == st && (d'.files == before.files - {k} || d'.files == before.files)
    ensures Elsewhere(d, d', st)
  {}

  lemma OnlyHere(d: Disk, before: Disk, d': Disk, st: nat, k: Key)
    requires Elsewhere(d, before, st) && k.stream == st && forall j | j != k :: j in d'.files <==> j in before.files
    ensures Elsewhere(d, d', st)
  {}

  lemma SameFilesElsewhere(d: Disk, before: Disk, d': Disk, st: nat)
    requires Elsewhere(d, before, st) && d'.files == before.files
    ensures Elsewhere(d, d', st)
  {}

  lemma KeysOf(d: Disk, st: nat, keys: set<Key>)
    requires keys == set k | k in d.files && k.stream == st
    ensures keys == FilesIn(d, {st}) && Elsewhere(d, d, st)
  {}

  /** All entries below the archive's root. */
  ghost function Entries(d: Disk): nat { |d.dirs| + |d.files| }

  /** Entries of visited directories are entries. */
  lemma VisitedEntries(d: Disk, streams: set<nat>)
    requires streams <= d.dirs.Keys
    ensures |streams| + |FilesIn(d, streams)| <= Entries(d)
    ensures streams == d.dirs.Keys && (forall k | k in d.files :: k.stream in d.dirs) ==>
              |streams| + |FilesIn(d, streams)| == Entries(d)
  {
    Fewer(streams, d.dirs.Keys);
    Fewer(FilesIn(d, streams), d.files.Keys);
    if streams == d.dirs.Keys && forall k | k in d.files :: k.stream in d.dirs {
      assert FilesIn(d, streams) == d.files.Keys;
    }
  }

  /** A walk over the stream directories of `d`, of which `streams` are left as they were. */
  ghost predicate Walk(d: Disk, d': Disk, streams: set<nat>, visited: nat)
  {
    && streams <= d.dirs.Keys && SameIn(d, d', streams)
    && visited == |d.dirs.Keys - streams| + |FilesIn(d, d.dirs.Keys - streams)| <= MAX_ARCHIVE_FILES
  }

  lemma WalkStarts(d: Disk)
    ensures Walk(d, d, d.dirs.Keys, 0)
  {
    assert d.dirs.Keys - d.dirs.Keys == {};
  }

  lemma WalkEnters(d: Disk, before: Disk, streams: set<nat>, visited: nat, st: nat)
    requires Walk(d, before, streams, visited) && st in streams
    ensures visited + 1 + |FilesIn(before, {st})| <= Entries(d)
    ensures visited + 1 + |FilesIn(before, {st})|
            == |d.dirs.Keys - (streams - {st})| + |FilesIn(d, d.dirs.Keys - (streams - {st}))|
  {
    var seen := d.dirs.Keys - streams;
    assert d.dirs.Keys - (streams - {st}) == seen + {st};
    SameThere(d, before, streams, st);
    OneMoreStream(d, seen, st);
    VisitedEntries(d, seen + {st});
    hide FilesIn, Entries, SameIn;
  }

  lemma WalkGoesOn(d: Disk, before: Disk, d': Disk, streams: set<nat>, visited: nat, st: nat)
    requires Walk(d, before, streams, visited) && st in streams && Elsewhere(before, d', st)
    requires visited + 1 + |FilesIn(before, {st})| <= MAX_ARCHIVE_FILES
    ensures Walk(d, d', streams - {st}, visited + 1 + |FilesIn(before, {st})|)
  {
    WalkEnters(d, before, streams, visited, st);
    SameStill(d, before, d', streams, st);
    hide FilesIn, Entries, SameIn, Elsewhere;
  }

  lemma WalkEnds(d: Disk, d': Disk, visited: nat)
    requires Walk(d, d', {}, visited) && forall k | k in d.files :: k.stream in d.dirs
    ensures Entries(d) == visited <= MAX_ARCHIVE_FILES
  {
    assert d.dirs.Keys - {} == d.dirs.Keys;
    VisitedEntries(d, d.dirs.Keys);
    hide FilesIn, Entries, SameIn;
  }

  class JournalArchive {
    const device: Device
    /** The quota, the digest and the owners of streams. */
    const world: World
    var used: nat
    var poisoned: bool

    constructor (device: Device, world: World, used: nat)
      ensures this.device == device && this.world == world && this.used == used && !poisoned
    {
      this.device, this.world, this.used, poisoned := device, world, used, false;
    }

    /** The machine has the archive's disk and fields, and no call of it is waiting. */
    ghost predicate Valid()
      reads this, device
    {
      && device.world == world && device.sys.disk == device.disk && device.sys.todo == []
      && device.sys.used == used && device.sys.poisoned == poisoned
    }

    /** `append_reserved`: makes the directory and the file if need be, writes the frame and syncs. */
    method AppendReserved(k: Key, frame: Bytes, ghost start: Sys) returns (r: Result<Frame, ArchiveError>)
      requires Sound(device.disk) && device.Follows(start) && device.sys.todo == AppendCalls(device.disk, k, frame)
      modifies device
      ensures device.faults == old(device.faults) + (if r == Err(Io) then 1 else 0)
      ensures device.Follows(start)
      ensures r.Ok? ==> r.value == Frame(k, StartOf(old(device.disk), k), frame)
      ensures r.Ok? ==> AllPossible(old(device.disk), AppendCalls(old(device.disk), k, frame))
                        && device.disk == DoAll(old(device.disk), AppendCalls(old(device.disk), k, frame))
      ensures r.Ok? ==> device.sys == old(device.sys).(disk := device.disk, todo := [])
      ensures r.Err? ==> r.error == Io && GivenUp(old(device.disk), AppendCalls(old(device.disk), k, frame), device.disk)
      ensures r.Err? ==> device.sys == AfterFailure(old(device.sys)).(disk := device.disk)
    {
      SameDisk(device, start);
      hide AllPossible, DoAll, AppendCalls, Leads, AfterFailure, GivenUp, Device.Follows, Made, Do, Possible;
      ghost var d, was := device.disk, device.sys;
      ghost var plan := AppendCalls(d, k, frame);
      ghost var n := 0;
      NoneMade(was);
      PlanShape(d, k, frame);
      var ok := MakeStreamDir(k, start, was, d, plan);
      if !ok { return Err(Io); }
      n := if k.stream in d.dirs then 0 else 2;
      var existed := k in device.disk.files;
      ok := MakeFile(k, start, was, d, plan, n);
      if !ok { return Err(Io); }
      n := if k in d.files then n else n + 1;
      var from := |device.disk.files[k].bytes|;
      ok := WriteAndSync(k, frame, existed, start, was, d, plan, n);
      if !ok { return Err(Io); }
      AllMade(was, d, plan, |plan|, device.disk, device.sys);
      r := Ok(Frame(k, from, frame));
    }

    /** The first calls of an append, if its stream is new. */
    method MakeStreamDir(k: Key, ghost start: Sys, ghost was: Sys, ghost d: Disk, ghost plan: seq<Call>) returns (ok: bool)
      requires device.Follows(start) && Made(was, d, plan, 0, d, device.sys) && device.disk == d
      requires k.stream !in d.dirs ==> |plan| >= 2 && plan[0] == MakeDir(k.stream) && plan[1] == SyncRoot
      modifies device
      ensures device.faults == old(device.faults) + (if ok then 0 else 1)
      ensures device.Follows(start)
      ensures ok ==> Made(was, d, plan, if k.stream in d.dirs then 0 else 2, device.disk, device.sys)
                     && device.disk.files == d.files && k.stream in device.disk.dirs
      ensures !ok ==> GivenUp(d, plan, device.disk) && device.sys == AfterFailure(was).(disk := device.disk)
    {
      hide Leads, Made, GivenUp, AfterFailure, Device.Follows;
      ok := true;
      if k.stream !in device.disk.dirs {
        ok := Step(MakeDir(k.stream), start, was, d, plan, 0);
        if !ok { return; }
        ok := Step(SyncRoot, start, was, d, plan, 1);
      }
    }

    /** The next call, if its file is new. */
    method MakeFile(k: Key, ghost start: Sys, ghost was: Sys, ghost d: Disk, ghost plan: seq<Call>, ghost n: nat)
      returns (ok: bool)
      requires device.Follows(start) && Made(was, d, plan, n, device.disk, device.sys)
      requires device.disk.files == d.files && k.stream in device.disk.dirs
      requires k !in d.files ==> n < |plan| && plan[n] == CreateFile(k)
      modifies device
      ensures device.faults == old(device.faults) + (if ok then 0 else 1)
      ensures device.Follows(start)
      ensures ok ==> Made(was, d, plan, if k in d.files then n else n + 1, device.disk, device.sys)
      ensures ok ==> k in device.disk.files && |device.disk.files[k].bytes| == StartOf(d, k) && k.stream in device.disk.dirs
      ensures !ok ==> GivenUp(d, plan, device.disk) && device.sys == AfterFailure(was).(disk := device.disk)
    {
      hide Leads, Made, GivenUp, AfterFailure, Device.Follows;
      ok := true;
      if k !in device.disk.files {
        ok := Step(CreateFile(k), start, was, d, plan, n);
      }
    }

    /** The last calls: the frame, and the file's name if it is new. */
    method WriteAndSync(k: Key, frame: Bytes, existed: bool, ghost start: Sys, ghost was: Sys, ghost d: Disk,
                        ghost plan: seq<Call>, ghost n: nat) returns (ok: bool)
      requires device.Follows(start) && Made(was, d, plan, n, device.disk, device.sys)
      requires k in device.disk.files && k.stream in device.disk.dirs
      requires |plan| == (if existed then n + 2 else n + 3) && plan[n] == Call.Append(k, frame) && plan[n + 1] == SyncData(k)
      requires !existed ==> plan[n + 2] == SyncDir(k.stream)
      modifies device
      ensures device.faults == old(device.faults) + (if ok then 0 else 1)
      ensures device.Follows(start)
      ensures ok ==> Made(was, d, plan, |plan|, device.disk, device.sys)
      ensures !ok ==> GivenUp(d, plan, device.disk) && device.sys == AfterFailure(was).(disk := device.disk)
    {
      hide Leads, Made, GivenUp, AfterFailure, Device.Follows;
      ok := Step(Call.Append(k, frame), start, was, d, plan, n);
      if !ok { return; }
      ok := Step(SyncData(k), start, was, d, plan, n + 1);
      if !ok || existed { return; }
      ok := Step(SyncDir(k.stream), start, was, d, plan, n + 2);
    }

    /** One call of a plan of which `n` are done. */
    method Step(c: Call, ghost start: Sys, ghost was: Sys, ghost d: Disk, ghost plan: seq<Call>, ghost n: nat)
      returns (ok: bool)
      requires n < |plan| && plan[n] == c && Possible(device.disk, c)
      requires device.Follows(start) && Made(was, d, plan, n, device.disk, device.sys)
      modifies device
      ensures device.faults == old(device.faults) + (if ok then 0 else 1)
      ensures device.Follows(start)
      ensures ok ==> Made(was, d, plan, n + 1, device.disk, device.sys) && device.disk == Do(old(device.disk), c)
      ensures !ok ==> GivenUp(d, plan, device.disk) && device.sys == AfterFailure(was).(disk := device.disk)
    {
      hide Leads, Made, GivenUp, AfterFailure, Do, Possible, Partly, Device.Follows;
      ghost var d', s := device.disk, device.sys;
      MadeNext(was, d, plan, n, d', s);
      ok := device.Issue(c, start);
      if ok {
        OneMoreMade(was, d, plan, n, d', s);
      } else {
        NextGivenUp(was, d, plan, n, d', s, device.disk);
        FailsAlike(was, d', plan[n..], device.disk);
      }
    }

    /** `append` with the encoded frame of a batch of `jsonl` bytes; worker `t` polls the stream. */
    method Append(k: Key, jsonl: nat, frame: Bytes, ghost t: nat) returns (r: Result<Frame, ArchiveError>)
      requires Valid() && Sound(device.disk)
      requires device.sys.process.Running? && device.sys.job.Free? && WorkerOf(device.sys, t).Idle?
      requires world.owner(k.stream) == t && frame != []
      modifies device, this`used, this`poisoned
      ensures device.faults == old(device.faults) + (if r == Err(Io) then 1 else 0)
      ensures Valid() && Leads(world, old(device.sys), device.sys)
      ensures r == Err(Invalid) <==> jsonl == 0 || jsonl > MAX_JSONL_BATCH_BYTES
      ensures r == Err(Poisoned) <==> 0 < jsonl <= MAX_JSONL_BATCH_BYTES && old(poisoned)
      ensures r == Err(Limit) <==> && 0 < jsonl <= MAX_JSONL_BATCH_BYTES && !old(poisoned)
                                   && |frame| <= MAX_COMPRESSED_FRAME_BYTES && old(used) + |frame| > MAX_U64
      ensures r.Ok? || r == Err(Io) <==> && 0 < jsonl <= MAX_JSONL_BATCH_BYTES && !old(poisoned)
                                         && |frame| <= MAX_COMPRESSED_FRAME_BYTES && old(used) + |frame| <= MAX_U64
                                         && old(used) + |frame| <= world.quota
      ensures r.Err? ==> r.error in {Invalid, Poisoned, Limit, Capacity, Io}
      ensures r.Err? && r.error != Io ==>
                && used == old(used) && poisoned == old(poisoned) && device.disk == old(device.disk)
                && device.sys == if r.error.Poisoned? then Put(old(device.sys), t, Dead) else old(device.sys)
      ensures r.Ok? || r == Err(Io) ==> used == old(used) + |frame|
      ensures r.Ok? ==> !poisoned && r.value == Frame(k, StartOf(old(device.disk), k), frame)
      ensures r.Ok? ==> AllPossible(old(device.disk), AppendCalls(old(device.disk), k, frame))
                        && device.disk == DoAll(old(device.disk), AppendCalls(old(device.disk), k, frame))
      ensures r.Ok? ==> device.sys == Put(old(device.sys), t, Holding(r.value)).(disk := device.disk, used := used)
      ensures r == Err(Io) ==> poisoned && GivenUp(old(device.disk), AppendCalls(old(device.disk), k, frame), device.disk)
      ensures r == Err(Io) ==> device.sys == Put(old(device.sys), t, Dead).(disk := device.disk, used := used,
                                                                            poisoned := true, failed := true)
    {
      hide Leads, Next, AllPossible, DoAll, AppendCalls, GivenUp, Sound, StartOf;
      ghost var start := device.sys;
      Stay(world, start);
      if jsonl == 0 || jsonl > MAX_JSONL_BATCH_BYTES { return Err(Invalid); }
      if poisoned {
        BeginIsStep(world, start, t, k, frame);
        device.Decide(Put(start, t, Dead), start);
        return Err(Poisoned);
      }
      if |frame| > MAX_COMPRESSED_FRAME_BYTES { return Err(Capacity); }
      var next := used + |frame|;
      if next > MAX_U64 { return Err(Limit); }
      if next > world.quota { return Err(Capacity); }
      used := next;
      BeginIsStep(world, start, t, k, frame);
      device.Decide(Begun(start, t, k, frame), start);
      r := AppendReserved(k, frame, start);
      if r.Err? {
        poisoned := true;
        PutAgain(start, t, Appending, Dead);
      } else {
        EndIsStep(world, device.sys, t, r.value);
        PutAgain(start, t, Appending, Holding(r.value));
        device.Decide(Put(device.sys, t, Holding(r.value)).(job := Free), start);
      }
    }

    /** `truncate_uncommitted` by worker `t`, whose commit of the frame was refused. */
    method TruncateUncommitted(f: Frame, ghost t: nat) returns (r: Result<(), ArchiveError>)
      requires Valid() && device.sys.process.Running? && device.sys.job.Free? && WorkerOf(device.sys, t) == Refused(f)
      requires f.key in device.disk.files ==> f.start <= |device.disk.files[f.key].bytes|
      modifies device, this`used
      ensures device.faults == old(device.faults) + (if r == Err(Io) && f.key in old(device.disk).files then 1 else 0)
      ensures Valid() && Leads(world, old(device.sys), device.sys)
      ensures r.Ok? ==> f.key in old(device.disk).files && |f.data| <= old(used) && used == old(used) - |f.data|
      ensures r.Err? ==> r.error in {Io, Invalid}
      ensures r != Err(Io) ==> f.key in old(device.disk).files
      ensures r != Err(Io) ==> device.disk == old(device.disk).(files := old(device.disk).files[f.key :=
                          F.SyncFile(F.TruncateFile(old(device.disk).files[f.key], f.start))])
      ensures r.Ok? ==> device.sys == Put(old(device.sys), t, Idle).(disk := device.disk, used := used)
      ensures r.Err? ==> used == old(used)
      ensures r.Err? ==> device.sys == Put(old(device.sys), t, Dead).(disk := device.disk, failed := true)
      ensures r == Err(Invalid) ==> old(used) < |f.data|
    {
      hide Leads, Next;
      ghost var start := device.sys;
      Stay(world, start);
      CutIsStep(world, start, t, f);
      PutAgain(start, t, Cutting, Dead);
      PutAgain(start, t, Cutting, Idle);
      device.Decide(CutBegun(start, t, f), start);
      if f.key !in device.disk.files {
        GivingUpIsStep(world, device.sys);
        device.Decide(AfterFailure(device.sys), start);
        return Err(Io);
      }
      r := Truncate(f.key, f.start, start);
      if r.Err? { return; }
      CutEndIsStep(world, device.sys, t, f);
      device.Decide(CutEnded(device.sys, t, f), start);
      if used < |f.data| { return Err(Invalid); }
      used := used - |f.data|;
      r := Ok(());
    }

    /** `scan_used_bytes` */
    method ScanUsedBytes() returns (r: Result<nat, ArchiveError>)
      ensures r.Ok? ==> r.value == Total(device.disk.files)
      ensures r.Err? ==> r.error == Limit
      ensures r.Ok? <==> Entries(device.disk) <= MAX_ARCHIVE_FILES && Total(device.disk.files) <= MAX_U64
    {
      var files := device.disk.files;
      var total, entries := 0, |device.disk.dirs|;
      var left := files;
      while left != map[]
        invariant left.Keys <= files.Keys && forall k | k in left :: left[k] == files[k]
        invariant total + Total(left) == Total(files)
        invariant entries + |left| == |device.disk.dirs| + |files| && total <= MAX_U64
        decreases |left|
      {
        if entries > MAX_ARCHIVE_FILES { return Err(Limit); }
        var k :| k in left;
        SumSplit(left, Size, k);
        if total + |left[k].bytes| > MAX_U64 { return Err(Limit); }
        total, entries := total + |left[k].bytes|, entries + 1;
        SizeDrops(left, k);
        left := left - {k};
      }
      if entries > MAX_ARCHIVE_FILES { return Err(Limit); }
      r := Ok(total);
    }

    /** All stream directories. */
    method PruneAll(cutoff: nat, ghost was: Disk, ghost start: Sys, ghost base: Sys) returns (r: Result<(), ArchiveError>)
      requires Pruning(was, device.disk, cutoff) && device.world == world
               && forall k | k in device.disk.files :: k.stream in device.disk.dirs
      requires base.process.Running? && base.job == PruneJob(cutoff, 0) && base.todo == []
      requires device.Follows(start) && device.sys == base.(disk := device.disk, used := used)
      modifies device, this`used
      ensures device.faults == old(device.faults) + (if r == Err(Io) then 1 else 0)
      ensures Pruning(was, device.disk, cutoff)
      ensures r.Ok? ==> forall k | k in device.disk.files :: k.day >= cutoff
      ensures r.Ok? ==> used + Total(old(device.disk).files) == old(used) + Total(device.disk.files)
      ensures old(used) >= Total(old(device.disk).files) ==> used >= Total(device.disk.files) && r != Err(Invalid)
      ensures r.Err? ==> r.error in {Io, Limit, Invalid}
      ensures r.Ok? ==> Entries(old(device.disk)) <= MAX_ARCHIVE_FILES
      ensures r == Err(Limit) ==> Entries(old(device.disk)) > MAX_ARCHIVE_FILES
      ensures device.Follows(start)
      ensures r.Ok? ==> device.sys == base.(disk := device.disk, used := used)
      ensures r.Err? ==> PruneFailed(base, r.error, device.sys, device.disk, used)
    {
      hide Leads, Next, Pruning, Total, Device.Follows, FilesIn, Entries, Walk, Elsewhere;
      ghost var d := device.disk;
      WalkStarts(d);
      var visited: nat, streams := 0, device.disk.dirs.Keys;
      while streams != {}
        invariant Walk(d, device.disk, streams, visited) && visited <= MAX_ARCHIVE_FILES
        invariant Pruning(was, device.disk, cutoff) && streams <= device.disk.dirs.Keys
        invariant forall k | k in device.disk.files && k.day < cutoff :: k.stream in streams
        invariant used + Total(old(device.disk).files) == old(used) + Total(device.disk.files)
        invariant device.faults == old(device.faults)
        invariant device.Follows(start) && device.sys == base.(disk := device.disk, used := used)
        decreases |streams|
      {
        var st :| st in streams;
        ghost var before, n := device.disk, visited;
        WalkEnters(d, before, streams, n, st);
        visited := visited + 1;
        if visited > MAX_ARCHIVE_FILES {
          device.Abort(start);
          return Err(Limit);
        }
        r, visited := PruneDirectory(st, cutoff, visited, was, start, base);
        if r.Err? { return; }
        WalkGoesOn(d, before, device.disk, streams, n, st);
        streams := streams - {st};
      }
      WalkEnds(d, device.disk, visited);
      r := Ok(());
    }

    /** `prune_before`, after the ledger forgot the days before `cutoff` and while no worker runs. */
    method PruneBefore(cutoff: nat) returns (r: Result<(), ArchiveError>)
      requires Valid() && Sound(device.disk)
      requires device.sys.process.Running? && device.sys.job.Free? && forall t :: WorkerOf(device.sys, t).Idle?
      modifies device, this`used
      ensures device.faults == old(device.faults) + (if r == Err(Io) then 1 else 0)
      ensures Valid() && Leads(world, old(device.sys), device.sys)
      ensures r.Ok? ==> device.disk.files == map k | k in old(device.disk).files && k.day >= cutoff :: old(device.disk).files[k]
      ensures r.Ok? ==> used + Total(old(device.disk).files) == old(used) + Total(device.disk.files)
      ensures r.Ok? ==> device.sys == old(device.sys).(ledger := Retained(old(device.sys).ledger, cutoff),
                                                       disk := device.disk, used := used)
      ensures r.Err? ==> if r.error.Invalid? then device.sys.process.Failed? else device.sys.process.Off?
      ensures r.Err? ==> r.error in {Io, Limit, Invalid}
      ensures r.Ok? ==> Entries(old(device.disk)) <= MAX_ARCHIVE_FILES
      ensures r == Err(Limit) ==> Entries(old(device.disk)) > MAX_ARCHIVE_FILES
      ensures old(used) >= Total(old(device.disk).files) ==> used >= Total(device.disk.files) && r != Err(Invalid)
    {
      hide Leads, Next, Pruning, Retained, Total, Entries;
      ghost var was, start := device.disk, device.sys;
      Stay(world, start);
      ghost var base := PruneBegun(start, cutoff);
      PruneIsStep(world, start, cutoff);
      PruneStarts(was, cutoff);
      device.Decide(base, start);
      r := PruneAll(cutoff, was, start, base);
      if r.Err? { return; }
      PruneDone(was, device.disk, cutoff);
      PruneEndIsStep(world, device.sys);
      device.Decide(device.sys.(job := Free), start);
      r := Ok(());
    }

    /** One stream directory: its old files go, and the directory too if it is empty then. */
    method PruneDirectory(st: nat, cutoff: nat, visitedBefore: nat, ghost was: Disk, ghost start: Sys, ghost base: Sys)
      returns (r: Result<(), ArchiveError>, visited: nat)
      requires Pruning(was, device.disk, cutoff) && st in device.disk.dirs && device.world == world
      requires visitedBefore <= MAX_ARCHIVE_FILES
      requires base.process.Running? && base.job == PruneJob(cutoff, 0) && base.todo == []
      requires device.Follows(start) && device.sys == base.(disk := device.disk, used := used)
      modifies device, this`used
      ensures device.faults == old(device.faults) + (if r == Err(Io) then 1 else 0)
      ensures Pruning(was, device.disk, cutoff) && device.disk.dirs.Keys >= old(device.disk).dirs.Keys - {st}
      ensures forall k | k in device.disk.files :: k in old(device.disk).files
      ensures Elsewhere(old(device.disk), device.disk, st) && (r.Err? ==> r.error in {Io, Limit, Invalid})
      ensures r.Ok? ==> visited == visitedBefore + |FilesIn(old(device.disk), {st})| <= MAX_ARCHIVE_FILES
      ensures r == Err(Limit) ==> visitedBefore + |FilesIn(old(device.disk), {st})| > MAX_ARCHIVE_FILES
      ensures r.Ok? ==> forall k | k in device.disk.files && k.stream == st :: k.day >= cutoff
      ensures r.Ok? ==> used + Total(old(device.disk).files) == old(used) + Total(device.disk.files)
      ensures old(used) >= Total(old(device.disk).files) ==> used >= Total(device.disk.files) && r != Err(Invalid)
      ensures device.Follows(start)
      ensures r.Ok? ==> device.sys == base.(disk := device.disk, used := used)
      ensures r.Err? ==> PruneFailed(base, r.error, device.sys, device.disk, used)
    {
      hide Leads, Next, Device.Follows, Pruning, FilesIn, Elsewhere, Total;
      r, visited := PruneStream(st, cutoff, visitedBefore, was, start, base);
      if r.Err? { return; }
      if forall k | k in device.disk.files :: k.stream != st {
        ghost var d := device.disk;
        r := DropStreamDir(st, start);
        PruningDirs(was, d, device.disk, cutoff, st);
        SameFilesElsewhere(old(device.disk), d, device.disk, st);
      }
    }

    /** The old files of one stream directory. */
    method PruneStream(st: nat, cutoff: nat, visitedBefore: nat, ghost was: Disk, ghost start: Sys, ghost base: Sys)
      returns (r: Result<(), ArchiveError>, visited: nat)
      requires Pruning(was, device.disk, cutoff) && st in device.disk.dirs && device.world == world
      requires visitedBefore <= MAX_ARCHIVE_FILES
      requires base.process.Running? && base.job == PruneJob(cutoff, 0) && base.todo == []
      requires device.Follows(start) && device.sys == base.(disk := device.disk, used := used)
      modifies device, this`used
      ensures device.faults == old(device.faults) + (if r == Err(Io) then 1 else 0)
      ensures Pruning(was, device.disk, cutoff) && device.disk.dirs == old(device.disk).dirs
      ensures forall k | k in device.disk.files :: k in old(device.disk).files
      ensures Elsewhere(old(device.disk), device.disk, st) && (r.Err? ==> r.error in {Io, Limit, Invalid})
      ensures r.Ok? ==> visited == visitedBefore + |FilesIn(old(device.disk), {st})| <= MAX_ARCHIVE_FILES
      ensures r == Err(Limit) ==> visitedBefore + |FilesIn(old(device.disk), {st})| > MAX_ARCHIVE_FILES
      ensures r.Ok? ==> forall k | k in device.disk.files && k.stream == st :: k.day >= cutoff
      ensures r.Ok? ==> used + Total(old(device.disk).files) == old(used) + Total(device.disk.files)
      ensures old(used) >= Total(old(device.disk).files) ==> used >= Total(device.disk.files) && r != Err(Invalid)
      ensures device.Follows(start)
      ensures r.Ok? ==> device.sys == base.(disk := device.disk, used := used)
      ensures r.Err? ==> PruneFailed(base, r.error, device.sys, device.disk, used)
    {
      hide Leads, Next, Device.Follows, Pruning, Total, FilesIn, Elsewhere, PruneFailed, Ended;
      visited := visitedBefore;
      var keys := set k | k in device.disk.files && k.stream == st;
      KeysOf(device.disk, st, keys);
      while keys != {}
        invariant Pruning(was, device.disk, cutoff) && device.disk.dirs == old(device.disk).dirs
        invariant visited + |keys| == visitedBefore + |FilesIn(old(device.disk), {st})| && visited <= MAX_ARCHIVE_FILES
        invariant Elsewhere(old(device.disk), device.disk, st)
        invariant forall k | k in device.disk.files :: k in old(device.disk).files
        invariant forall k | k in keys :: k in device.disk.files && k.stream == st
        invariant forall k | k in device.disk.files && k.stream == st && k.day < cutoff :: k in keys
        invariant used + Total(old(device.disk).files) == old(used) + Total(device.disk.files)
        invariant device.faults == old(device.faults)
        invariant device.Follows(start) && device.sys == base.(disk := device.disk, used := used)
        decreases |keys|
      {
        var k :| k in keys;
        keys := keys - {k};
        visited := visited + 1;
        if visited > MAX_ARCHIVE_FILES {
          LimitFails(base, device.disk, used);
          device.Abort(start);
          return Err(Limit), visited;
        }
        if k.day < cutoff {
          PruningHas(was, device.disk, cutoff, k);
          ghost var d := device.disk;
          r := PruneOne(k, start, base);
          PruningOn(was, d, device.disk, cutoff, k);
          ElsewhereStill(old(device.disk), d, device.disk, st, k);
          if r.Err? { return; }
        }
      }
      r := Ok(());
    }

    /** One old file and its bytes. */
    method PruneOne(k: Key, ghost start: Sys, ghost base: Sys) returns (r: Result<(), ArchiveError>)
      requires k in device.disk.files && k.stream in device.disk.dirs && device.world == world
      requires base.process.Running? && base.todo == [] && base.job.PruneJob? && base.job.freed == 0 && k.day < base.job.cutoff
      requires device.Follows(start) && device.sys == base.(disk := device.disk, used := used)
      modifies device, this`used
      ensures device.faults == old(device.faults) + (if r == Err(Io) then 1 else 0)
      ensures device.disk.dirs == old(device.disk).dirs
      ensures device.disk.files == old(device.disk).files - {k} || (r == Err(Io) && device.disk.files == old(device.disk).files)
      ensures r.Ok? ==> used + Total(old(device.disk).files) == old(used) + Total(device.disk.files)
      ensures r.Err? ==> used == old(used) && Total(device.disk.files) <= Total(old(device.disk).files)
      ensures r == Err(Invalid) ==> old(used) < Total(old(device.disk).files)
      ensures r.Err? ==> r.error in {Io, Invalid}
      ensures device.Follows(start)
      ensures r.Ok? ==> device.sys == base.(disk := device.disk, used := used)
      ensures r.Err? ==> PruneFailed(base, r.error, device.sys, device.disk, used)
    {
      hide Leads, Next, Total;
      PruneFileIsStep(world, device.sys, k);
      var bytes := |device.disk.files[k].bytes|;
      device.Decide(FileChosen(device.sys, k), start);
      r := RemoveSynced(k, start);
      if r.Err? { return; }
      PrunedIsStep(world, device.sys);
      device.Decide(FilePruned(device.sys), start);
      if used < bytes { return Err(Invalid); }
      used := used - bytes;
    }

    /** A file's removal, made durable. */
    method RemoveSynced(k: Key, ghost start: Sys) returns (r: Result<(), ArchiveError>)
      requires k in device.disk.files && k.stream in device.disk.dirs
      requires device.Follows(start) && device.sys.todo == [Remove(k), SyncDir(k.stream)]
      modifies device
      ensures device.faults == old(device.faults) + (if r == Err(Io) then 1 else 0)
      ensures device.disk.dirs == old(device.disk).dirs
      ensures r.Ok? ==> device.disk.files == old(device.disk).files - {k}
      ensures r.Err? ==> r.error == Io && (device.disk.files == old(device.disk).files
                                           || device.disk.files == old(device.disk).files - {k})
      ensures Total(device.disk.files) <= Total(old(device.disk).files)
      ensures r.Ok? ==> Total(old(device.disk).files) == |old(device.disk).files[k].bytes| + Total(device.disk.files)
      ensures device.Follows(start)
      ensures device.sys == (if r.Ok? then old(device.sys).(todo := [])
                             else AfterFailure(old(device.sys))).(disk := device.disk)
    {
      SumSplit(device.disk.files, Size, k);
      RemovedAndSynced(device.disk, k);
      hide Leads, Next, Device.Follows, Do, Possible, Partly, AfterFailure, Total;
      var ok := device.IssueBoth(Remove(k), SyncDir(k.stream), start);
      r := if ok then Ok(()) else Err(Io);
    }

    /** An empty stream directory goes. */
    method DropStreamDir(st: nat, ghost start: Sys) returns (r: Result<(), ArchiveError>)
      requires Possible(device.disk, RemoveDir(st)) && device.world == world
      requires device.Follows(start) && DropsDirs(device.sys)
      modifies device
      ensures device.faults == old(device.faults) + (if r == Err(Io) then 1 else 0)
      ensures device.disk.files == old(device.disk).files
      ensures device.disk.dirs.Keys >= old(device.disk).dirs.Keys - {st}
      ensures r.Ok? ==> device.disk.dirs.Keys == old(device.disk).dirs.Keys - {st}
      ensures forall s | s in device.disk.dirs ::
                s in old(device.disk).dirs && (old(device.disk).dirs[s] ==> device.disk.dirs[s])
      ensures r.Err? ==> r.error == Io
      ensures device.Follows(start)
      ensures device.sys == (if r.Ok? then old(device.sys) else Ended(old(device.sys))).(disk := device.disk)
    {
      DropIsStep(world, device.sys, st);
      hide Leads, Next;
      device.Decide(device.sys.(todo := [RemoveDir(st), SyncRoot]), start);
      DirDroppedAndSynced(device.disk, st);
      hide Do, Possible, Partly;
      var ok := device.IssueBoth(RemoveDir(st), SyncRoot, start);
      r := if ok then Ok(()) else Err(Io);
    }

    /** `verify_and_truncate` */
    method VerifyAndTruncate(k: Key, row: Row, ghost start: Sys) returns (r: Result<(), ArchiveError>)
      requires k in device.disk.files && device.world == world
      requires device.Follows(start) && Looks(device.sys, k) && Final(RowsOf(device.sys.ledger, k), row)
      modifies device
      ensures device.faults == old(device.faults) + (if r == Err(Io) then 1 else 0)
      ensures device.disk.dirs == old(device.disk).dirs && device.disk.files.Keys == old(device.disk).files.Keys
      ensures forall j | j in device.disk.files && j != k :: device.disk.files[j] == old(device.disk).files[j]
      ensures r.Ok? ==> Verified(world, old(device.disk).files[k], row)
                        && device.disk.files[k].bytes == old(device.disk).files[k].bytes[..row.end]
      ensures r.Ok? ==> var bytes := old(device.disk).files[k].bytes;
                        && row.start < row.end <= |bytes| && row.end - row.start <= MAX_COMPRESSED_FRAME_BYTES
                        && world.digest(bytes[row.start..row.end]) == row.hash
      ensures r.Err? && r.error != Io ==> !Verified(world, old(device.disk).files[k], row)
                                          && device.disk == old(device.disk)
      ensures r == Err(MissingCommitted) ==> |old(device.disk).files[k].bytes| < row.end
      ensures r.Err? ==> r.error != Limit
      ensures device.Follows(start)
      ensures r.Ok? ==> device.sys == Looked(old(device.sys), k).(disk := device.disk)
      ensures r.Err? ==> device.sys == RecoverFailed(old(device.sys), r.error).(disk := device.disk)
    {
      hide Leads, Next, Final, Verified, Looks, RowsOf, AfterFailure, Ended;
      LookedFails(device.sys, k, device.disk);
      r := Verify(device.disk.files[k], row);
      if r.Err? {
        DamagedIsStep(world, device.sys, k, row);
        device.Decide(device.sys.(process := Failed), start);
        return;
      }
      CutFileIsStep(world, device.sys, k, row);
      device.Decide(Looked(device.sys, k).(todo := [SetLen(k, row.end), SyncData(k)]), start);
      r := Truncate(k, row.end, start);
    }

    /** The checks that come before the cut. */
    method Verify(file: File, row: Row) returns (r: Result<(), ArchiveError>)
      ensures r.Ok? <==> Verified(world, file, row)
      ensures r.Ok? ==> && row.start < row.end <= |file.bytes| && row.end - row.start <= MAX_COMPRESSED_FRAME_BYTES
                        && world.digest(file.bytes[row.start..row.end]) == row.hash
      ensures r.Err? ==> r.error != Io && r.error != Limit
      ensures r == Err(MissingCommitted) ==> |file.bytes| < row.end
    {
      if row.start >= row.end || row.end - row.start > MAX_COMPRESSED_FRAME_BYTES { return Err(Invalid); }
      if |file.bytes| < row.end { return Err(MissingCommitted); }
      if world.digest(file.bytes[row.start..row.end]) != row.hash { return Err(HashMismatch); }
      r := Ok(());
    }

    /** A file's end, cut off for good. */
    method Truncate(k: Key, len: nat, ghost start: Sys) returns (r: Result<(), ArchiveError>)
      requires k in device.disk.files && len <= |device.disk.files[k].bytes|
      requires device.Follows(start) && device.sys.todo == [SetLen(k, len), SyncData(k)]
      modifies device
      ensures device.faults == old(device.faults) + (if r == Err(Io) then 1 else 0)
      ensures device.disk.dirs == old(device.disk).dirs && device.disk.files.Keys == old(device.disk).files.Keys
      ensures forall j | j in device.disk.files && j != k :: device.disk.files[j] == old(device.disk).files[j]
      ensures r.Ok? ==> device.disk == old(device.disk).(files := old(device.disk).files[k :=
                          F.SyncFile(F.TruncateFile(old(device.disk).files[k], len))])
                        && device.disk.files[k].bytes == old(device.disk).files[k].bytes[..len]
      ensures r.Err? ==> r.error == Io
      ensures device.Follows(start)
      ensures device.sys == (if r.Ok? then old(device.sys).(todo := [])
                             else AfterFailure(old(device.sys))).(disk := device.disk)
    {
      CutAndSynced(device.disk, k, len);
      hide Do, Possible, Partly, Leads, Next, Device.Follows, AfterFailure;
      var ok := device.IssueBoth(SetLen(k, len), SyncData(k), start);
      r := if ok then Ok(()) else Err(Io);
    }

    /** A file that the ledger does not know. */
    method RemoveUnknown(k: Key, ghost start: Sys) returns (r: Result<(), ArchiveError>)
      requires k in device.disk.files && k.stream in device.disk.dirs && device.world == world
      requires device.Follows(start) && Looks(device.sys, k) && RowsOf(device.sys.ledger, k) == []
      modifies device
      ensures device.faults == old(device.faults) + (if r == Err(Io) then 1 else 0)
      ensures device.disk.dirs == old(device.disk).dirs
      ensures r.Ok? ==> device.disk.files == old(device.disk).files - {k}
      ensures r.Err? ==> r.error == Io && (device.disk.files == old(device.disk).files
                                           || device.disk.files == old(device.disk).files - {k})
      ensures device.Follows(start)
      ensures r.Ok? ==> device.sys == Looked(old(device.sys), k).(disk := device.disk)
      ensures r.Err? ==> device.sys == RecoverFailed(old(device.sys), r.error).(disk := device.disk)
    {
      UnknownFileIsStep(world, device.sys, k);
      hide Leads, Next;
      device.Decide(Looked(device.sys, k).(todo := [Remove(k), SyncDir(k.stream)]), start);
      r := RemoveSynced(k, start);
    }

    /** One stream directory: files the ledger knows are checked and cut, the others are removed. */
    method RecoverStream(st: nat, boundaries: map<Key, Row>, leftBefore: map<Key, Row>, visitedBefore: nat, ghost was: Disk,
                         ghost todo: set<nat>, ghost start: Sys, ghost base: Sys)
      returns (r: Result<(), ArchiveError>, left: map<Key, Row>, visited: nat)
      requires st in device.disk.dirs && st !in todo && device.world == world && visitedBefore <= MAX_ARCHIVE_FILES
      requires Recovering(world, was, device.disk, boundaries, leftBefore, todo + {st})
      requires RecoverBase(base) && BoundariesOf(base.ledger, boundaries)
      requires device.Follows(start) && device.sys == Looking(base, device.disk, todo + {st}, {})
      modifies device
      ensures device.faults == old(device.faults) + (if r == Err(Io) then 1 else 0)
      ensures device.disk.dirs == old(device.disk).dirs
      ensures Elsewhere(old(device.disk), device.disk, st)
      ensures r.Ok? ==> visited == visitedBefore + |FilesIn(old(device.disk), {st})| <= MAX_ARCHIVE_FILES
      ensures r == Err(Limit) ==> visitedBefore + |FilesIn(old(device.disk), {st})| > MAX_ARCHIVE_FILES
      ensures r.Ok? ==> Recovering(world, was, device.disk, boundaries, left, todo)
      ensures r.Err? && r.error != Io && r.error != Limit ==> Damaged(world, was, boundaries)
      ensures device.Follows(start)
      ensures r.Ok? ==> device.sys == Looking(base, device.disk, todo, {})
      ensures r.Err? ==> EndedBadly(base, r.error, device.sys, device.disk)
    {
      hide RecoveringKeys, Recovering, Damaged, Verified, Leads, Next, Device.Follows, BoundariesOf, Looking, EndedBadly,
           FilesIn, Elsewhere;
      left, visited := leftBefore, visitedBefore;
      var keys := set k | k in device.disk.files && k.stream == st;
      KeysOf(device.disk, st, keys);
      StreamListed(world, was, device.disk, boundaries, left, todo, st);
      LooksAtStream(base, device.disk, todo, st, keys);
      while keys != {}
        invariant device.disk.dirs == old(device.disk).dirs
        invariant forall k | k in keys :: k in device.disk.files && k.stream == st
        invariant Elsewhere(old(device.disk), device.disk, st)
        invariant visited + |keys| == visitedBefore + |FilesIn(old(device.disk), {st})| && visited <= MAX_ARCHIVE_FILES
        invariant RecoveringKeys(world, was, device.disk, boundaries, left, todo, keys)
        invariant device.faults == old(device.faults)
        invariant device.Follows(start) && device.sys == Looking(base, device.disk, todo, keys)
        decreases |keys|
      {
        var k :| k in keys;
        visited := visited + 1;
        if visited > MAX_ARCHIVE_FILES {
          LookingEnds(base, device.disk, todo, keys);
          device.Abort(start);
          return Err(Limit), left, visited;
        }
        ghost var before := device.disk;
        r, left := RecoverOne(k, boundaries, left, was, todo, keys, start, base);
        OnlyHere(old(device.disk), before, device.disk, st, k);
        if r.Err? { return; }
        keys := keys - {k};
      }
      AllLooked(world, was, device.disk, boundaries, left, todo);
      r := Ok(());
    }

    /** One file. */
    method RecoverOne(k: Key, boundaries: map<Key, Row>, leftBefore: map<Key, Row>, ghost was: Disk, ghost todo: set<nat>,
                      ghost keys: set<Key>, ghost start: Sys, ghost base: Sys)
      returns (r: Result<(), ArchiveError>, left: map<Key, Row>)
      requires k in keys && k in device.disk.files && k.stream !in todo && device.world == world
      requires RecoveringKeys(world, was, device.disk, boundaries, leftBefore, todo, keys)
      requires RecoverBase(base) && BoundariesOf(base.ledger, boundaries)
      requires device.Follows(start) && device.sys == Looking(base, device.disk, todo, keys)
      modifies device
      ensures device.faults == old(device.faults) + (if r == Err(Io) then 1 else 0)
      ensures device.disk.dirs == old(device.disk).dirs
      ensures forall j | j != k :: j in device.disk.files <==> j in old(device.disk).files
      ensures r.Ok? ==> RecoveringKeys(world, was, device.disk, boundaries, left, todo, keys - {k})
      ensures r.Err? && r.error != Io ==> Damaged(world, was, boundaries)
      ensures r != Err(Limit)
      ensures device.Follows(start)
      ensures r.Ok? ==> device.sys == Looking(base, device.disk, todo, keys - {k})
      ensures r.Err? ==> EndedBadly(base, r.error, device.sys, device.disk)
    {
      hide RecoveringKeys, Damaged, Verified, Leads, Next, Device.Follows, BoundariesOf, Looking, EndedBadly;
      left := leftBefore;
      ghost var d := device.disk;
      FileKnown(world, was, d, boundaries, left, todo, keys, k);
      LooksAt(base, d, todo, keys, k, boundaries);
      if k in left {
        r := VerifyAndTruncate(k, left[k], start);
        if r.Err? && r.error != Io { DamageFound(world, was, boundaries, k); }
        if r.Err? { LookFails(base, d, todo, keys, r.error, device.disk); return; }
        FileCut(world, was, d, device.disk, boundaries, left, todo, keys, k);
        left := left - {k};
      } else {
        r := RemoveUnknown(k, start);
        if r.Err? { LookFails(base, d, todo, keys, r.error, device.disk); return; }
        FileDropped(world, was, d, device.disk, boundaries, left, todo, keys, k);
      }
      LooksOn(base, d, device.disk, todo, keys, k);
    }

    /** One stream directory; it goes if it is empty then. */
    method RecoverDirectory(st: nat, boundaries: map<Key, Row>, leftBefore: map<Key, Row>, visitedBefore: nat, ghost was: Disk,
                            ghost todo: set<nat>, ghost start: Sys, ghost base: Sys)
      returns (r: Result<(), ArchiveError>, left: map<Key, Row>, visited: nat)
      requires st in device.disk.dirs && st !in todo && device.world == world && visitedBefore <= MAX_ARCHIVE_FILES
      requires Recovering(world, was, device.disk, boundaries, leftBefore, todo + {st}) && Occupied(device.disk, todo + {st})
      requires RecoverBase(base) && BoundariesOf(base.ledger, boundaries)
      requires device.Follows(start) && device.sys == Looking(base, device.disk, todo + {st}, {})
      modifies device
      ensures device.faults == old(device.faults) + (if r == Err(Io) then 1 else 0)
      ensures device.disk.dirs.Keys >= old(device.disk).dirs.Keys - {st}
      ensures Elsewhere(old(device.disk), device.disk, st)
      ensures r.Ok? ==> visited == visitedBefore + |FilesIn(old(device.disk), {st})| <= MAX_ARCHIVE_FILES
      ensures r == Err(Limit) ==> visitedBefore + |FilesIn(old(device.disk), {st})| > MAX_ARCHIVE_FILES
      ensures r.Ok? ==> Recovering(world, was, device.disk, boundaries, left, todo) && Occupied(device.disk, todo)
      ensures r.Err? && r.error != Io && r.error != Limit ==> Damaged(world, was, boundaries)
      ensures device.Follows(start)
      ensures r.Ok? ==> device.sys == Looking(base, device.disk, todo, {})
      ensures r.Err? ==> EndedBadly(base, r.error, device.sys, device.disk)
    {
      hide Leads, Next, Recovering, Damaged, Looking, BoundariesOf, EndedBadly, Occupied, Device.Follows, FilesIn, Elsewhere;
      ghost var before := device.disk;
      r, left, visited := RecoverStream(st, boundaries, leftBefore, visitedBefore, was, todo, start, base);
      if r.Err? { return; }
      StillOccupied(before, device.disk, todo, st);
      if forall k | k in device.disk.files :: k.stream != st {
        ghost var d := device.disk;
        LookingEnds(base, d, todo, {});
        r := DropStreamDir(st, start);
        LooksElsewhere(base, d, device.disk, todo);
        SameFilesElsewhere(before, d, device.disk, st);
        if r.Err? {
          LookFails(base, d, todo, {}, r.error, device.disk);
          return;
        }
        DroppedOccupied(d, device.disk, todo, st);
        DirsOnly(world, was, d, device.disk, boundaries, left, todo, st);
      }
    }

    /** All stream directories. */
    method RecoverAll(boundaries: map<Key, Row>, ghost start: Sys, ghost base: Sys)
      returns (r: Result<(), ArchiveError>, left: map<Key, Row>)
      requires Recovering(world, device.disk, device.disk, boundaries, boundaries, device.disk.dirs.Keys)
      requires Occupied(device.disk, device.disk.dirs.Keys) && device.world == world
      requires forall k | k in device.disk.files :: k.stream in device.disk.dirs
      requires RecoverBase(base) && BoundariesOf(base.ledger, boundaries)
      requires device.Follows(start) && device.sys == Looking(base, device.disk, device.disk.dirs.Keys, {})
      modifies device
      ensures device.faults == old(device.faults) + (if r == Err(Io) then 1 else 0)
      ensures r.Ok? ==> Recovering(world, old(device.disk), device.disk, boundaries, left, {}) && Occupied(device.disk, {})
      ensures r.Err? && r.error != Io && r.error != Limit ==> Damaged(world, old(device.disk), boundaries)
      ensures r.Ok? ==> Entries(old(device.disk)) <= MAX_ARCHIVE_FILES
      ensures r == Err(Limit) ==> Entries(old(device.disk)) > MAX_ARCHIVE_FILES
      ensures device.Follows(start)
      ensures r.Ok? ==> device.sys == Looking(base, device.disk, {}, {})
      ensures r.Err? ==> EndedBadly(base, r.error, device.sys, device.disk)
    {
      hide Leads, Next, Recovering, Damaged, Looking, BoundariesOf, EndedBadly, Occupied, Device.Follows, Ended, Walk,
           Elsewhere, FilesIn, Entries;
      ghost var was := device.disk;
      WalkStarts(was);
      left := boundaries;
      var visited: nat, streams := 0, device.disk.dirs.Keys;
      while streams != {}
        invariant streams <= device.disk.dirs.Keys && Recovering(world, was, device.disk, boundaries, left, streams)
        invariant Walk(was, device.disk, streams, visited) && visited <= MAX_ARCHIVE_FILES
        invariant Occupied(device.disk, streams) && device.faults == old(device.faults)
        invariant device.Follows(start) && device.sys == Looking(base, device.disk, streams, {})
        decreases |streams|
      {
        var st :| st in streams;
        ghost var rest := streams - {st};
        assert rest + {st} == streams;
        ghost var before, n := device.disk, visited;
        WalkEnters(was, before, streams, n, st);
        visited := visited + 1;
        if visited > MAX_ARCHIVE_FILES {
          LookingEnds(base, device.disk, streams, {});
          device.Abort(start);
          return Err(Limit), left;
        }
        r, left, visited := RecoverDirectory(st, boundaries, left, visited, was, rest, start, base);
        if r.Err? { return; }
        WalkGoesOn(was, before, device.disk, streams, n, st);
        streams := streams - {st};
      }
      WalkEnds(was, device.disk, visited);
      r := Ok(());
    }

    /** `recover_locked` */
    method RecoverLocked(boundaries: map<Key, Row>, ghost start: Sys, ghost base: Sys) returns (r: Result<(), ArchiveError>)
      requires Sound(device.disk) && device.world == world
      requires RecoverBase(base) && base.job.left == device.disk.files.Keys && BoundariesOf(base.ledger, boundaries)
      requires device.Follows(start) && device.sys == base && base.disk == device.disk
      modifies device
      ensures device.faults == old(device.faults) + (if r == Err(Io) then 1 else 0)
      ensures r.Ok? ==> forall k :: k in device.disk.files <==> k in boundaries
      ensures r.Ok? ==> forall k | k in boundaries :: CutAt(world, old(device.disk), device.disk, boundaries, k)
      ensures r.Err? && r.error != Io && r.error != Limit ==> Damaged(world, old(device.disk), boundaries)
      ensures r.Ok? ==> Entries(old(device.disk)) <= MAX_ARCHIVE_FILES && |boundaries| <= MAX_ARCHIVE_FILES
      ensures r == Err(Limit) ==> Entries(old(device.disk)) > MAX_ARCHIVE_FILES || |boundaries| > MAX_ARCHIVE_FILES
      ensures device.Follows(start)
      ensures r.Ok? ==> device.sys == Looking(base, device.disk, {}, {}) && Occupied(device.disk, {})
      ensures r.Err? ==> EndedBadly(base, r.error, device.sys, device.disk)
    {
      hide Leads, Next, Recovering, Damaged, CutAt, Looking, BoundariesOf, EndedBadly, Occupied, Device.Follows, Ended, Entries;
      ghost var was := device.disk;
      LooksAtAll(base);
      if |boundaries| > MAX_ARCHIVE_FILES {
        LookingEnds(base, was, was.dirs.Keys, {});
        device.Abort(start);
        return Err(Limit);
      }
      RecoveryBegins(world, was, boundaries);
      var left;
      r, left := RecoverAll(boundaries, start, base);
      if r.Err? { return; }
      RecoveryEnds(world, was, device.disk, boundaries, left);
      if left != map[] {
        ghost var k :| k in left;
        DamageFound(world, was, boundaries, k);
        NothingLeft(base, device.disk, boundaries, k);
        MissingIsStep(world, device.sys, k);
        LookFails(base, device.disk, {}, {}, MissingCommitted, device.disk);
        device.Decide(device.sys.(process := Failed), start);
        return Err(MissingCommitted);
      }
    }

    /** `recover` at the start of the process, with the boundaries of the ledger after its days before `cutoff` went. */
    method Recover(boundaries: map<Key, Row>, ghost cutoff: nat) returns (r: Result<(), ArchiveError>)
      requires Valid() && Sound(device.disk)
      requires device.sys.process.Off? && BoundariesOf(Retained(device.sys.ledger, cutoff), boundaries)
      modifies device, this`used, this`poisoned
      ensures device.faults == old(device.faults) + (if r == Err(Io) then 1 else 0)
      ensures Valid() && Leads(world, old(device.sys), device.sys)
      ensures r.Ok? ==> !poisoned && used == Total(device.disk.files)
      ensures r.Ok? ==> forall k :: k in device.disk.files <==> k in boundaries
      ensures r.Ok? ==> forall k | k in boundaries :: CutAt(world, old(device.disk), device.disk, boundaries, k)
      ensures r.Ok? ==> device.sys == Restarted(old(device.sys), cutoff).(process := Running, job := Free, disk := device.disk,
                                        used := used, poisoned := false, failed := false)
      ensures r.Err? && r.error != Io && r.error != Limit ==>
                device.sys.process.Failed? && Damaged(world, old(device.disk), boundaries)
      ensures r == Err(Io) || r == Err(Limit) ==> device.sys.process.Off?
      ensures r == Err(Limit) ==> || Entries(old(device.disk)) > MAX_ARCHIVE_FILES || |boundaries| > MAX_ARCHIVE_FILES
                                  || Entries(device.disk) > MAX_ARCHIVE_FILES || Total(device.disk.files) > MAX_U64
      ensures r.Ok? ==> && Entries(old(device.disk)) <= MAX_ARCHIVE_FILES && |boundaries| <= MAX_ARCHIVE_FILES
                        && used <= MAX_U64
    {
      hide Leads, Next, Total, Retained, BoundariesOf, CutAt, Damaged, Sound, EndedBadly, Looking, Occupied, Entries;
      ghost var was, start := device.disk, device.sys;
      Stay(world, start);
      ghost var base := Restarted(start, cutoff);
      RestartIsStep(world, start, cutoff);
      device.Decide(base, start);
      r := RecoverLocked(boundaries, start, base);
      if r.Err? {
        EndsBadly(base, r.error, device.sys, device.disk);
        return;
      }
      r := CountAfresh(boundaries, start, base);
    }

    /** The end of `recover`: the bytes are counted and the archive takes appends again. */
    method CountAfresh(ghost boundaries: map<Key, Row>, ghost start: Sys, ghost base: Sys) returns (r: Result<(), ArchiveError>)
      requires device.world == world && RecoverBase(base) && BoundariesOf(base.ledger, boundaries)
      requires Occupied(device.disk, {}) && forall k | k in boundaries :: k in device.disk.files
      requires device.Follows(start) && device.sys == Looking(base, device.disk, {}, {})
      requires base.used == used && base.poisoned == poisoned
      modifies device`sys, this`used, this`poisoned
      ensures Valid() && device.Follows(start)
      ensures r.Ok? ==> !poisoned && used == Total(device.disk.files)
      ensures r.Ok? ==> device.sys == base.(process := Running, job := Free, disk := device.disk, used := used,
                                            poisoned := false, failed := false)
      ensures r.Err? ==> r.error == Limit && device.sys.process.Off?
      ensures r.Ok? <==> Entries(device.disk) <= MAX_ARCHIVE_FILES && Total(device.disk.files) <= MAX_U64
    {
      hide Leads, Next, Total, BoundariesOf, EndedBadly, Looking, Occupied;
      LookingEnds(base, device.disk, {}, {});
      var scan := ScanUsedBytes();
      if scan.Err? {
        device.Abort(start);
        return Err(scan.error);
      }
      RecoveredIsStep(world, base, device.disk, boundaries);
      device.Decide(device.sys.(process := Running, job := Free, used := scan.value, poisoned := false,
                                failed := false), start);
      used, poisoned := scan.value, false;
      r := Ok(());
    }
  }

  // ----- the steps that the code takes -----

  /** The first `n` calls of a plan were made, and the machine made them. */
  ghost predicate Made(was: Sys, d: Disk, plan: seq<Call>, n: nat, d': Disk, s: Sys)
  {
    && n <= |plan| && AllPossible(d, plan[..n]) && d' == DoAll(d, plan[..n])
    && s == was.(disk := d', todo := plan[n..])
  }

  lemma NoneMade(was: Sys)
    ensures Made(was, was.disk, was.todo, 0, was.disk, was)
  {
    assert was.todo[..0] == [] && was.todo[0..] == was.todo;
  }

  lemma MadeNext(was: Sys, d: Disk, plan: seq<Call>, n: nat, d': Disk, s: Sys)
    requires Made(was, d, plan, n, d', s) && n < |plan|
    ensures s.todo != [] && s.todo[0] == plan[n] && s.todo[1..] == plan[n + 1..]
    ensures s == was.(disk := d', todo := plan[n..])
  {
    assert plan[n..][1..] == plan[n + 1..];
  }

  lemma OneMoreMade(was: Sys, d: Disk, plan: seq<Call>, n: nat, d': Disk, s: Sys)
    requires Made(was, d, plan, n, d', s) && n < |plan| && Possible(d', plan[n])
    ensures Made(was, d, plan, n + 1, Do(d', plan[n]), was.(disk := Do(d', plan[n]), todo := plan[n + 1..]))
  {
    hide Do, Possible;
    DoOneMore(d, plan[..n], plan[n]);
    assert plan[..n + 1] == plan[..n] + [plan[n]];
  }

  lemma NextGivenUp(was: Sys, d: Disk, plan: seq<Call>, n: nat, d': Disk, s: Sys, d'': Disk)
    requires Made(was, d, plan, n, d', s) && n < |plan| && Possible(d', plan[n]) && Partly(d', plan[n], d'')
    ensures GivenUp(d, plan, d'')
  {
    hide Do, Possible, Partly;
    assert GivenUpAt(d, plan, d'', n);
  }

  /** A failure leaves the same state whichever call of the job it was. */
  lemma FailsAlike(s: Sys, d: Disk, todo: seq<Call>, d': Disk)
    ensures AfterFailure(s.(disk := d, todo := todo)).(disk := d') == AfterFailure(s).(disk := d')
  {
    var m := s.(disk := d, todo := todo);
    assert m.job == s.job && m.workers == s.workers;
    match s.job {
      case AppendJob(t, _) => assert Put(m, t, Dead) == Put(s, t, Dead).(disk := d, todo := todo);
      case CutJob(t, _) => assert Put(m, t, Dead) == Put(s, t, Dead).(disk := d, todo := todo);
      case _ =>
    }
  }

  lemma AllMade(was: Sys, d: Disk, plan: seq<Call>, n: nat, d': Disk, s: Sys)
    requires Made(was, d, plan, n, d', s) && n == |plan|
    ensures AllPossible(d, plan) && d' == DoAll(d, plan) && s == was.(disk := d', todo := [])
  {
    assert plan[..n] == plan;
  }

  // ----- pairs of calls -----

  lemma CutAndSynced(d: Disk, k: Key, len: nat)
    requires k in d.files && len <= |d.files[k].bytes|
    ensures Possible(d, SetLen(k, len)) && Possible(Do(d, SetLen(k, len)), SyncData(k))
    ensures Do(Do(d, SetLen(k, len)), SyncData(k))
            == d.(files := d.files[k := F.SyncFile(F.TruncateFile(d.files[k], len))])
    ensures F.SyncFile(F.TruncateFile(d.files[k], len)).bytes == d.files[k].bytes[..len]
    ensures forall d' | Partly(d, SetLen(k, len), d') || Partly(Do(d, SetLen(k, len)), SyncData(k), d') ::
              && d'.dirs == d.dirs && d'.files.Keys == d.files.Keys
              && forall j | j in d.files && j != k :: d'.files[j] == d.files[j]
  {}

  lemma RemovedAndSynced(d: Disk, k: Key)
    requires k in d.files && k.stream in d.dirs
    ensures Possible(d, Remove(k)) && Possible(Do(d, Remove(k)), SyncDir(k.stream))
    ensures var d' := Do(Do(d, Remove(k)), SyncDir(k.stream)); d'.dirs == d.dirs && d'.files == d.files - {k}
    ensures forall d' | Partly(d, Remove(k), d') || Partly(Do(d, Remove(k)), SyncDir(k.stream), d') ::
              d'.dirs == d.dirs && (d'.files == d.files || d'.files == d.files - {k})
  {}

  lemma DirDroppedAndSynced(d: Disk, st: nat)
    requires Possible(d, RemoveDir(st))
    ensures Possible(Do(d, RemoveDir(st)), SyncRoot)
    ensures var d' := Do(Do(d, RemoveDir(st)), SyncRoot);
            d'.dirs.Keys == d.dirs.Keys - {st} && d'.files == d.files && forall s | s in d'.dirs :: d'.dirs[s]
    ensures forall d' | Partly(d, RemoveDir(st), d') || Partly(Do(d, RemoveDir(st)), SyncRoot, d') ::
              && d'.files == d.files && d'.dirs.Keys >= d.dirs.Keys - {st}
              && forall s | s in d'.dirs :: s in d.dirs && (d.dirs[s] ==> d'.dirs[s])
  {}

  // ----- jobs -----

  lemma SameDisk(device: Device, start: Sys)
    requires device.Follows(start)
    ensures device.sys.disk == device.disk
  {}

  lemma PutAgain(s: Sys, t: nat, a: Worker, b: Worker)
    ensures Put(Put(s, t, a), t, b) == Put(s, t, b)
  {
    assert s.workers[t := a][t := b] == s.workers[t := b];
  }

  ghost function Begun(s: Sys, t: nat, k: Key, data: Bytes): Sys
  {
    Put(s, t, Appending).(job := AppendJob(t, Frame(k, StartOf(s.disk, k), data)), todo := AppendCalls(s.disk, k, data),
                          used := s.used + |data|)
  }

  lemma BeginIsStep(world: World, s: Sys, t: nat, k: Key, data: Bytes)
    requires s.process.Running? && s.job.Free? && WorkerOf(s, t).Idle? && world.owner(k.stream) == t && data != []
    ensures s.poisoned ==> Next(world, s, Put(s, t, Dead))
    ensures !s.poisoned && |data| <= MAX_COMPRESSED_FRAME_BYTES && s.used + |data| <= world.quota
            ==> Next(world, s, Begun(s, t, k, data))
  {
    if s.poisoned {
      assert BeginAppend(world, s, Put(s, t, Dead), t, k, data);
    } else if |data| <= MAX_COMPRESSED_FRAME_BYTES && s.used + |data| <= world.quota {
      assert BeginAppend(world, s, Begun(s, t, k, data), t, k, data);
    }
  }

  lemma EndIsStep(world: World, s: Sys, t: nat, f: Frame)
    requires s.process.Running? && s.todo == [] && s.job == AppendJob(t, f)
    ensures Next(world, s, Put(s, t, Holding(f)).(job := Free))
  {
    assert Finish(s, Put(s, t, Holding(f)).(job := Free));
  }

  ghost function CutBegun(s: Sys, t: nat, f: Frame): Sys
  {
    Put(s, t, Cutting).(job := CutJob(t, f), todo := [SetLen(f.key, f.start), SyncData(f.key)])
  }

  ghost function CutEnded(s: Sys, t: nat, f: Frame): Sys
  {
    if |f.data| <= s.used then Put(s, t, Idle).(job := Free, used := s.used - |f.data|)
    else Put(s, t, Dead).(job := Free, failed := true)
  }

  lemma CutIsStep(world: World, s: Sys, t: nat, f: Frame)
    requires s.process.Running? && s.job.Free? && WorkerOf(s, t) == Refused(f)
    ensures Next(world, s, CutBegun(s, t, f))
  {
    assert BeginCut(s, CutBegun(s, t, f), t);
  }

  lemma CutEndIsStep(world: World, s: Sys, t: nat, f: Frame)
    requires s.process.Running? && s.todo == [] && s.job == CutJob(t, f)
    ensures Next(world, s, CutEnded(s, t, f))
  {
    assert Finish(s, CutEnded(s, t, f));
  }

  ghost function PruneBegun(s: Sys, cutoff: nat): Sys
  {
    s.(ledger := Retained(s.ledger, cutoff), job := PruneJob(cutoff, 0))
  }

  lemma PruneIsStep(world: World, s: Sys, cutoff: nat)
    requires s.process.Running? && s.job.Free? && forall t :: WorkerOf(s, t).Idle?
    ensures Next(world, s, PruneBegun(s, cutoff))
  {
    assert BeginPrune(s, PruneBegun(s, cutoff), cutoff);
  }

  lemma PruneEndIsStep(world: World, s: Sys)
    requires s.process.Running? && s.job.PruneJob? && s.todo == [] && s.job.freed == 0
    requires forall k | k in s.disk.files :: k.day >= s.job.cutoff
    ensures Next(world, s, s.(job := Free))
  {
    assert EndPrune(s, s.(job := Free));
  }

  ghost function FileChosen(s: Sys, k: Key): Sys
    requires s.job.PruneJob? && k in s.disk.files
  {
    s.(job := PruneJob(s.job.cutoff, |s.disk.files[k].bytes|), todo := [Remove(k), SyncDir(k.stream)])
  }

  lemma PruneFileIsStep(world: World, s: Sys, k: Key)
    requires s.process.Running? && s.job.PruneJob? && s.todo == [] && s.job.freed == 0
    requires k in s.disk.files && k.day < s.job.cutoff
    ensures Next(world, s, FileChosen(s, k))
  {
    assert PruneFile(s, FileChosen(s, k), k);
  }

  ghost function FilePruned(s: Sys): Sys
    requires s.job.PruneJob?
  {
    if s.job.freed <= s.used then s.(job := PruneJob(s.job.cutoff, 0), used := s.used - s.job.freed)
    else s.(process := Failed)
  }

  lemma PrunedIsStep(world: World, s: Sys)
    requires s.process.Running? && s.todo == [] && s.job.PruneJob?
    ensures Next(world, s, FilePruned(s))
  {
    assert Finish(s, FilePruned(s));
  }

  /** Where a failed prune leaves the machine: out of bytes to free, or ended. */
  ghost predicate PruneFailed(base: Sys, e: ArchiveError, s: Sys, d: Disk, used: nat)
  {
    if e.Invalid? then s.process.Failed? && s.disk == d && s.used == used && s.todo == [] && s.poisoned == base.poisoned
    else s == Ended(base).(disk := d, used := used)
  }

  lemma LimitFails(base: Sys, d: Disk, used: nat)
    ensures PruneFailed(base, Limit, Ended(base.(disk := d, used := used)), d, used)
  {}

  ghost predicate DropsDirs(s: Sys)
  {
    s.todo == [] && ((s.process.Running? && s.job.PruneJob? && s.job.freed == 0) || (s.process.Starting? && s.job.RecoverJob?))
  }

  lemma DropIsStep(world: World, s: Sys, st: nat)
    requires DropsDirs(s) && Possible(s.disk, RemoveDir(st))
    ensures Next(world, s, s.(todo := [RemoveDir(st), SyncRoot]))
  {
    assert DropDir(s, s.(todo := [RemoveDir(st), SyncRoot]), st);
  }

  // ----- the steps of recovery -----

  /** `final_frame_boundaries` of a ledger */
  ghost predicate BoundariesOf(ledger: Ledger, boundaries: map<Key, Row>)
  {
    && (forall k :: k in boundaries <==> RowsOf(ledger, k) != [])
    && forall k | k in boundaries :: Final(RowsOf(ledger, k), boundaries[k])
  }

  ghost function Restarted(s: Sys, cutoff: nat): Sys
  {
    s.(process := Starting, ledger := Retained(s.ledger, cutoff), workers := map[],
       job := RecoverJob(s.disk.files.Keys), todo := [])
  }

  lemma RestartIsStep(world: World, s: Sys, cutoff: nat)
    requires s.process.Off?
    ensures Next(world, s, Restarted(s, cutoff))
  {
    assert Restart(s, Restarted(s, cutoff), cutoff);
  }

  ghost predicate RecoverBase(base: Sys) { base.process.Starting? && base.job.RecoverJob? && base.todo == [] }

  ghost function Unseen(d: Disk, todo: set<nat>, keys: set<Key>): set<Key>
  {
    set k | k in d.files && (k.stream in todo || k in keys)
  }

  /** The machine while files of the streams in `todo`, and the files `keys`, are yet to be looked at. */
  ghost function Looking(base: Sys, d: Disk, todo: set<nat>, keys: set<Key>): Sys
  {
    base.(disk := d, job := RecoverJob(Unseen(d, todo, keys)))
  }

  /** The machine is about to look at file `k`. */
  ghost predicate Looks(s: Sys, k: Key)
  {
    s.process.Starting? && s.job.RecoverJob? && s.todo == [] && k in s.job.left && k in s.disk.files
  }

  ghost function Looked(s: Sys, k: Key): Sys
    requires s.job.RecoverJob?
  {
    s.(job := RecoverJob(s.job.left - {k}))
  }

  ghost function RecoverFailed(s: Sys, e: ArchiveError): Sys
  {
    if e.Io? || e.Limit? then Ended(s) else s.(process := Failed)
  }

  ghost predicate EndedBadly(base: Sys, e: ArchiveError, s: Sys, d: Disk)
  {
    && s.disk == d && s.todo == [] && s.used == base.used && s.poisoned == base.poisoned
    && if e.Io? || e.Limit? then s.process.Off? else s.process.Failed?
  }

  lemma CutFileIsStep(world: World, s: Sys, k: Key, row: Row)
    requires Looks(s, k) && Final(RowsOf(s.ledger, k), row) && Verified(world, s.disk.files[k], row)
    ensures Next(world, s, Looked(s, k).(todo := [SetLen(k, row.end), SyncData(k)]))
  {
    assert RecoverFile(world, s, Looked(s, k).(todo := [SetLen(k, row.end), SyncData(k)]), k, row);
  }

  lemma DamagedIsStep(world: World, s: Sys, k: Key, row: Row)
    requires Looks(s, k) && Final(RowsOf(s.ledger, k), row) && !Verified(world, s.disk.files[k], row)
    ensures Next(world, s, s.(process := Failed))
  {
    assert RecoverFile(world, s, s.(process := Failed), k, row);
  }

  /** A call that fails while a file is looked at ends the process. */
  lemma LookedFails(s: Sys, k: Key, d: Disk)
    requires Looks(s, k)
    ensures s.job.RecoverJob? && s.todo == []
    ensures forall todo, d' :: AfterFailure(Looked(s, k).(todo := todo)).(disk := d') == Ended(s).(disk := d')
  {}

  lemma UnknownFileIsStep(world: World, s: Sys, k: Key)
    requires Looks(s, k) && RowsOf(s.ledger, k) == []
    ensures Next(world, s, Looked(s, k).(todo := [Remove(k), SyncDir(k.stream)]))
  {
    assert RecoverFile(world, s, Looked(s, k).(todo := [Remove(k), SyncDir(k.stream)]), k, Row(0, 0, 0, []));
  }

  lemma LooksAtAll(base: Sys)
    requires RecoverBase(base) && Sound(base.disk) && base.job.left == base.disk.files.Keys
    ensures base == Looking(base, base.disk, base.disk.dirs.Keys, {})
    ensures Occupied(base.disk, base.disk.dirs.Keys)
  {
    assert base.job.left == Unseen(base.disk, base.disk.dirs.Keys, {});
  }

  lemma LooksAtStream(base: Sys, d: Disk, todo: set<nat>, st: nat, keys: set<Key>)
    requires keys == set k | k in d.files && k.stream == st
    ensures Looking(base, d, todo + {st}, {}) == Looking(base, d, todo, keys)
  {
    assert Unseen(d, todo + {st}, {}) == Unseen(d, todo, keys);
  }

  lemma LooksAt(base: Sys, d: Disk, todo: set<nat>, keys: set<Key>, k: Key, boundaries: map<Key, Row>)
    requires RecoverBase(base) && k in keys && k in d.files && BoundariesOf(base.ledger, boundaries)
    ensures Looks(Looking(base, d, todo, keys), k) && Looking(base, d, todo, keys).ledger == base.ledger
    ensures k in boundaries ==> Final(RowsOf(base.ledger, k), boundaries[k])
    ensures k !in boundaries ==> RowsOf(base.ledger, k) == []
  {}

  /** File `k` was dealt with: it is gone, or it stays. */
  lemma LooksOn(base: Sys, d: Disk, d': Disk, todo: set<nat>, keys: set<Key>, k: Key)
    requires k in keys && k.stream !in todo && (d'.files.Keys == d.files.Keys || d'.files.Keys == d.files.Keys - {k})
    ensures Looked(Looking(base, d, todo, keys), k).(disk := d') == Looking(base, d', todo, keys - {k})
  {
    assert Unseen(d, todo, keys) - {k} == Unseen(d', todo, keys - {k});
  }

  lemma LookFails(base: Sys, d: Disk, todo: set<nat>, keys: set<Key>, e: ArchiveError, d': Disk)
    requires RecoverBase(base)
    ensures EndedBadly(base, e, RecoverFailed(Looking(base, d, todo, keys), e).(disk := d'), d')
  {}

  lemma LookingEnds(base: Sys, d: Disk, todo: set<nat>, keys: set<Key>)
    requires RecoverBase(base)
    ensures var s := Looking(base, d, todo, keys);
            && s.disk == d && s.todo == [] && s.used == base.used && s.poisoned == base.poisoned && DropsDirs(s)
            && EndedBadly(base, Limit, Ended(s), d) && s.job.RecoverJob? && s.process.Starting? && s.ledger == base.ledger
            && s == base.(disk := d, job := s.job)
  {}

  lemma EndsBadly(base: Sys, e: ArchiveError, s: Sys, d: Disk)
    requires EndedBadly(base, e, s, d)
    ensures s.disk == d && s.todo == [] && s.used == base.used && s.poisoned == base.poisoned
    ensures if e.Io? || e.Limit? then s.process.Off? else s.process.Failed?
  {}

  lemma LooksElsewhere(base: Sys, d: Disk, d': Disk, todo: set<nat>)
    requires d'.files == d.files
    ensures Looking(base, d, todo, {}).(disk := d') == Looking(base, d', todo, {})
  {}

  /** Every directory that was dealt with holds a file. */
  ghost predicate Occupied(d: Disk, todo: set<nat>)
  {
    forall st | st in d.dirs && st !in todo :: !Possible(d, RemoveDir(st))
  }

  /** One more directory was dealt with; if it has files, it counts. */
  lemma StillOccupied(d: Disk, d': Disk, todo: set<nat>, st: nat)
    requires Occupied(d, todo + {st}) && d'.dirs == d.dirs
    requires Elsewhere(d, d', st)
    ensures Occupied(d', todo + {st})
    ensures !(forall k | k in d'.files :: k.stream != st) ==> Occupied(d', todo)
  {
    forall s | s in d'.dirs && s !in todo + {st} ensures !Possible(d', RemoveDir(s)) {
      var k :| k in d.files && k.stream == s;
      assert k in d'.files;
    }
  }

  lemma DroppedOccupied(d: Disk, d': Disk, todo: set<nat>, st: nat)
    requires Occupied(d, todo + {st}) && d'.files == d.files && d'.dirs.Keys == d.dirs.Keys - {st}
    ensures Occupied(d', todo)
  {}

  lemma NothingLeft(base: Sys, d: Disk, boundaries: map<Key, Row>, k: Key)
    requires RecoverBase(base) && Occupied(d, {}) && BoundariesOf(base.ledger, boundaries) && k in boundaries && k !in d.files
    ensures var s := Looking(base, d, {}, {});
            && s.process.Starting? && s.job.RecoverJob? && s.todo == [] && s.job.left == {} && s.disk == d
            && Occupied(s.disk, {}) && k in s.ledger && RowsOf(s.ledger, k) != []
            && s.used == base.used && s.poisoned == base.poisoned
  {}

  lemma MissingIsStep(world: World, s: Sys, k: Key)
    requires s.process.Starting? && s.job.RecoverJob? && s.todo == [] && s.job.left == {} && Occupied(s.disk, {})
    requires k in s.ledger && RowsOf(s.ledger, k) != [] && k !in s.disk.files
    ensures Next(world, s, s.(process := Failed))
  {
    assert EndRecover(s, s.(process := Failed));
  }

  lemma RecoveredIsStep(world: World, base: Sys, d: Disk, boundaries: map<Key, Row>)
    requires RecoverBase(base) && Occupied(d, {}) && BoundariesOf(base.ledger, boundaries)
    requires forall k | k in boundaries :: k in d.files
    ensures var s := Looking(base, d, {}, {});
            Next(world, s, s.(process := Running, job := Free, used := Total(d.files), poisoned := false, failed := false))
  {
    var s := Looking(base, d, {}, {});
    assert EndRecover(s, s.(process := Running, job := Free, used := Total(d.files), poisoned := false, failed := false));
  }

  lemma SizeDrops(m: map<Key, F.File>, k: Key)
    requires k in m
    ensures |m - {k}| == |m| - 1
  {
    assert (m - {k}).Keys == m.Keys - {k};
    assert |m.Keys - {k}| == |m.Keys| - 1;
    assert |(m - {k}).Keys| == |m - {k}| && |m.Keys| == |m|;
  }

  /** What pruning has done so far: only old files are gone. */
  ghost predicate Pruning(was: Disk, d: Disk, cutoff: nat)
  {
    && (forall k | k in d.files :: k in was.files && d.files[k] == was.files[k] && k.stream in d.dirs)
    && (forall k | k in was.files && k.day >= cutoff :: k in d.files)
  }

  lemma PruneStarts(d: Disk, cutoff: nat)
    requires Sound(d)
    ensures Pruning(d, d, cutoff) && forall k | k in d.files :: k.stream in d.dirs
  {}

  lemma PruningHas(was: Disk, d: Disk, cutoff: nat, k: Key)
    requires Pruning(was, d, cutoff) && k in d.files
    ensures k.stream in d.dirs
  {}

  lemma PruningOn(was: Disk, d: Disk, d': Disk, cutoff: nat, k: Key)
    requires Pruning(was, d, cutoff) && k.day < cutoff && d'.dirs == d.dirs
    requires d'.files == d.files || d'.files == d.files - {k}
    ensures Pruning(was, d', cutoff)
  {}

  lemma PruningDirs(was: Disk, d: Disk, d': Disk, cutoff: nat, st: nat)
    requires Pruning(was, d, cutoff) && d'.files == d.files && d'.dirs.Keys >= d.dirs.Keys - {st}
    requires forall k | k in d.files :: k.stream != st
    ensures Pruning(was, d', cutoff)
  {}

  lemma PruneDone(was: Disk, d: Disk, cutoff: nat)
    requires Pruning(was, d, cutoff) && forall k | k in d.files :: k.day >= cutoff
    ensures d.files == map k | k in was.files && k.day >= cutoff :: was.files[k]
  {}

  // ----- recovery, file by file -----

  ghost predicate Checks(world: World, was: Disk, boundaries: map<Key, Row>, k: Key)
    requires k in boundaries && k in was.files
  {
    Verified(world, was.files[k], boundaries[k])
  }

  /** Some boundary has no file, or one that does not hold its last frame. */
  ghost predicate Damaged(world: World, was: Disk, boundaries: map<Key, Row>)
  {
    exists k | k in boundaries :: k !in was.files || !Checks(world, was, boundaries, k)
  }

  lemma DamageFound(world: World, was: Disk, boundaries: map<Key, Row>, k: Key)
    requires k in boundaries && (k !in was.files || !Checks(world, was, boundaries, k))
    ensures Damaged(world, was, boundaries)
  {}

  /** A file that was dealt with: cut at its boundary. */
  ghost predicate CutAt(world: World, was: Disk, d: Disk, boundaries: map<Key, Row>, k: Key)
  {
    && k in boundaries && k in was.files && k in d.files && Checks(world, was, boundaries, k)
    && d.files[k].bytes == was.files[k].bytes[..boundaries[k].end]
  }

  /** Recovery has yet to look at `keys` and at the streams in `todo`; `left` are the boundaries without a file so far. */
  ghost predicate RecoveringKeys(world: World, was: Disk, d: Disk, boundaries: map<Key, Row>, left: map<Key, Row>,
                                 todo: set<nat>, keys: set<Key>)
  {
    && (forall k | k in left :: k in boundaries && left[k] == boundaries[k])
    && (forall k | k in d.files && (k.stream in todo || k in keys) ::
          k in was.files && d.files[k] == was.files[k] && (k in left <==> k in boundaries))
    && (forall k | k in d.files && k.stream !in todo && k !in keys :: k !in left && CutAt(world, was, d, boundaries, k))
    && (forall k | k in boundaries && k !in left :: k in d.files && k.stream !in todo && k !in keys)
    && (forall k | k in was.files && k in boundaries :: k in d.files)
    && (forall k | k in d.files :: k.stream in d.dirs)
  }

  ghost predicate Recovering(world: World, was: Disk, d: Disk, boundaries: map<Key, Row>, left: map<Key, Row>, todo: set<nat>)
  {
    RecoveringKeys(world, was, d, boundaries, left, todo, {})
  }

  lemma RecoveryBegins(world: World, d: Disk, boundaries: map<Key, Row>)
    requires Sound(d)
    ensures Recovering(world, d, d, boundaries, boundaries, d.dirs.Keys)
  {}

  lemma RecoveryEnds(world: World, was: Disk, d: Disk, boundaries: map<Key, Row>, left: map<Key, Row>)
    requires Recovering(world, was, d, boundaries, left, {})
    ensures forall k | k in left :: k in boundaries && k !in was.files && k !in d.files
    ensures left == map[] ==> forall k :: k in d.files <==> k in boundaries
    ensures left == map[] ==> forall k | k in boundaries :: CutAt(world, was, d, boundaries, k)
  {}

  lemma DirsOnly(world: World, was: Disk, d: Disk, d': Disk, boundaries: map<Key, Row>, left: map<Key, Row>,
                 todo: set<nat>, st: nat)
    requires Recovering(world, was, d, boundaries, left, todo) && d'.files == d.files
    requires d'.dirs.Keys >= d.dirs.Keys - {st} && forall k | k in d.files :: k.stream != st
    ensures Recovering(world, was, d', boundaries, left, todo)
  {}

  /** Opening a stream directory: its files are the keys to look at. */
  lemma StreamListed(world: World, was: Disk, d: Disk, boundaries: map<Key, Row>, left: map<Key, Row>, todo: set<nat>, st: nat)
    requires Recovering(world, was, d, boundaries, left, todo + {st}) && st !in todo
    ensures RecoveringKeys(world, was, d, boundaries, left, todo, set k | k in d.files && k.stream == st)
  {}

  lemma AllLooked(world: World, was: Disk, d: Disk, boundaries: map<Key, Row>, left: map<Key, Row>, todo: set<nat>)
    requires RecoveringKeys(world, was, d, boundaries, left, todo, {})
    ensures Recovering(world, was, d, boundaries, left, todo)
  {}

  lemma FileKnown(world: World, was: Disk, d: Disk, boundaries: map<Key, Row>, left: map<Key, Row>,
                  todo: set<nat>, keys: set<Key>, k: Key)
    requires RecoveringKeys(world, was, d, boundaries, left, todo, keys) && k in keys && k in d.files
    ensures k.stream in d.dirs && k in was.files && d.files[k] == was.files[k]
    ensures (k in left <==> k in boundaries) && (k in left ==> left[k] == boundaries[k])
  {}

  lemma FileCut(world: World, was: Disk, d: Disk, d': Disk, boundaries: map<Key, Row>, left: map<Key, Row>,
                todo: set<nat>, keys: set<Key>, k: Key)
    requires RecoveringKeys(world, was, d, boundaries, left, todo, keys) && k in keys && k in left && k.stream !in todo
    requires d'.dirs == d.dirs && d'.files.Keys == d.files.Keys
    requires forall j | j in d.files && j != k :: d'.files[j] == d.files[j]
    requires k in d.files && Verified(world, d.files[k], left[k]) && d'.files[k].bytes == d.files[k].bytes[..left[k].end]
    ensures RecoveringKeys(world, was, d', boundaries, left - {k}, todo, keys - {k})
  {
    var left', keys' := left - {k}, keys - {k};
    forall j | j in d'.files && (j.stream in todo || j in keys')
      ensures j in was.files && d'.files[j] == was.files[j] && (j in left' <==> j in boundaries)
    {}
    forall j | j in d'.files && j.stream !in todo && j !in keys' ensures j !in left' && CutAt(world, was, d', boundaries, j) {
      assert j != k ==> CutAt(world, was, d, boundaries, j);
    }
  }

  lemma FileDropped(world: World, was: Disk, d: Disk, d': Disk, boundaries: map<Key, Row>, left: map<Key, Row>,
                    todo: set<nat>, keys: set<Key>, k: Key)
    requires RecoveringKeys(world, was, d, boundaries, left, todo, keys) && k in keys && k !in left && k in d.files
    requires d'.dirs == d.dirs && d'.files == d.files - {k}
    ensures RecoveringKeys(world, was, d', boundaries, left, todo, keys - {k})
  {
    forall j | j in d'.files && j.stream !in todo && j !in keys - {k}
      ensures j !in left && CutAt(world, was, d', boundaries, j)
    {
      assert CutAt(world, was, d, boundaries, j);
    }
  }

  /** What the ledger says is what recovery finds: in every reachable state all boundaries check out. */
  lemma BoundariesCheck(world: World, d: Disk, ledger: Ledger, k: Key, row: Row)
    requires BaseInv(world, d, ledger) && Final(RowsOf(ledger, k), row)
    ensures k in d.files && Verified(world, d.files[k], row) && d.files[k].bytes[..row.end] == Committed(ledger, k)
  {
    assert Durable(d, ledger, k);
    FinalIsLast(world, RowsOf(ledger, k), row);
    assert d.files[k].bytes[row.start..row.end] == Committed(ledger, k)[row.start..row.end];
  }
}
