/** `RollingFileAppender` in the source's form. Each of its calls walks a path of the journal's step machine. */
module JournalCode {
  import opened Wrappers
  import opened Decimal
  import opened FileSystem
  import opened Reservation
  import opened Journal
  import opened DirectoryCode
  import opened ReservationCode
  import opened JournalPaths
  import JournalRotation

  datatype AppendError = PoisonedAppender | InvalidRecord | Failed

  lemma {:induction false} OldestExists(s: set<nat>)
    requires s != {}
    ensures exists n :: Oldest(s, n)
    decreases s
  {
    var n :| n in s;
    if s == {n} {
      assert Oldest(s, n);
    } else {
      OldestExists(s - {n});
      var m :| Oldest(s - {n}, m);
      var least := if n < m then n else m;
      assert forall k | k in s :: k == n || k in s - {n};
      assert Oldest(s, least);
    }
  }

  // ----- what a rotation does to the segments -----

  /** Every tracked segment is in the directory. */
  ghost predicate AllThere(fs: Fs, segments: set<nat>) { forall n | n in segments :: Segment(n) in fs.dir }

  /** These segments are gone from the directory, and nothing else has changed. */
  ghost predicate Dropped(fs: Fs, fs': Fs, gone: set<nat>)
  {
    && fs'.files == fs.files
    && fs'.dir == map n | n in fs.dir && !(n.Segment? && n.number in gone) :: fs.dir[n]
  }

  lemma DroppedOn(fs: Fs, mid: Fs, fs': Fs, a: set<nat>, b: set<nat>)
    requires Dropped(fs, mid, a) && Dropped(mid, fs', b)
    ensures Dropped(fs, fs', a + b)
  {}

  /** `kept` are the greatest numbers of `all`. */
  ghost predicate NewestOf(all: set<nat>, kept: set<nat>)
  {
    kept <= all && forall m, n | m in all && m !in kept && n in kept :: m < n
  }

  /** Only as many of the oldest went as had to for the new segment. */
  ghost predicate Rolled(cfg: Config, all: set<nat>, now: set<nat>, number: nat)
  {
    exists kept :: NewestOf(all, kept) && now == kept + {number}
                   && |kept| == if |all| < cfg.maxFiles then |all| else cfg.maxFiles - 1
  }

  /** Why a rotation fails although every call succeeds. */
  ghost predicate Refuses(fs: Fs, segments: set<nat>, next: nat)
  {
    !WellFormed(fs) || !AllThere(fs, segments) || ReadSingle(fs, NextSegment) != Value(next) || next >= MAX_U64
  }

  lemma SameReservation(fs: Fs, fs': Fs, gone: set<nat>, next: nat)
    requires WellFormed(fs) && WellFormed(fs') && Dropped(fs, fs', gone) && ReadSingle(fs, NextSegment) == Value(next)
    ensures ReadSingle(fs', NextSegment) == Value(next)
  {
    var i := fs.dir[NextSegment];
    assert |Links(fs, i) - {NextSegment}| == 0;
    assert Links(fs, i) == {NextSegment} == Links(fs', i);
  }

  lemma RefusedBefore(fs: Fs, fs': Fs, segments: set<nat>, gone: set<nat>, next: nat)
    requires WellFormed(fs) && WellFormed(fs') && Dropped(fs, fs', gone) && Refuses(fs', {}, next)
    ensures Refuses(fs, segments, next)
  {
    if ReadSingle(fs, NextSegment) == Value(next) {
      SameReservation(fs, fs', gone, next);
    }
  }

  /** The directory as the appender uses it. Beside each system call goes the step of the machine it stands for. */
  class Driver {
    const dir: Directory
    const cfg: Config
    /** Where the step machine is. */
    ghost var sys: Sys

    constructor (dir: Directory, cfg: Config, ghost sys: Sys)
      ensures this.dir == dir && this.cfg == cfg && this.sys == sys
    {
      this.dir, this.cfg, this.sys := dir, cfg, sys;
    }

    /** The machine got from `start` to a phase with calls to make, on the same directory. */
    ghost predicate In(start: Sys, phase: Phase, todo: seq<Cmd>)
      reads this`sys, dir
    {
      && WellFormed(dir.fs) && sys.fs == dir.fs && Leads(cfg, start, sys)
      && sys.phase == phase && sys.todo == todo
    }

    /** One system call; the machine makes it too, or takes its way out of the phase on failure. */
    method Issue(c: Cmd, ghost start: Sys, ghost phase: Phase, ghost rest: seq<Cmd>) returns (ok: bool)
      requires In(start, phase, [c] + rest) && WellFormed(dir.fs)
      modifies dir, this`sys
      ensures WellFormed(dir.fs)
      ensures ok ==> In(start, phase, rest) && Enabled(old(dir.fs), c) && dir.fs == Exec(old(dir.fs), c)
      ensures !ok ==> In(start, AfterError(phase), ErrorCalls(phase))
      ensures !ok ==> dir.fs == old(dir.fs) || (Enabled(old(dir.fs), c) && Torn(old(dir.fs), c, dir.fs))
      ensures dir.faults == old(dir.faults) + (if ok then 0 else 1)
    {
      ok := dir.Issue(c);
      ghost var m := AfterIssue(cfg, sys, c, ok, dir.fs);
      hide Leads, Next, Called;
      ghost var was := sys;
      assert ([c] + rest)[1..] == rest;
      sys := if ok then m else m.(todo := ErrorCalls(was.phase), phase := AfterError(was.phase));
      Then(cfg, start, was, sys);
    }

    /** The machine decides what comes next. */
    ghost method Decided(start: Sys, from: Phase, phase: Phase, todo: seq<Cmd>)
      requires In(start, from, []) && Next(cfg, sys, sys.(phase := phase, todo := todo))
      modifies this`sys
      ensures In(start, phase, todo)
    {
      hide Leads, Next;
      Then(cfg, start, sys, sys.(phase := phase, todo := todo));
      sys := sys.(phase := phase, todo := todo);
    }

    lemma Knows(start: Sys, phase: Phase, todo: seq<Cmd>)
      requires In(start, phase, todo)
      ensures WellFormed(dir.fs) && sys.fs == dir.fs && sys.phase == phase && sys.todo == todo && Leads(cfg, start, sys)
    {}
  }

  class RollingFileAppender {
    const driver: Driver
    var segments: set<nat>
    var active: Option<Active>
    var next: nat
    var poisoned: bool

    function Fields(): Writer
      reads this
    {
      Writer(next, segments, active, poisoned)
    }

    /** Between calls the machine is ready with the appender's fields. */
    ghost predicate Valid()
      reads this, driver, driver.dir
    {
      && ValidConfig(driver.cfg) && WellFormed(driver.dir.fs)
      && driver.sys.fs == driver.dir.fs && driver.sys.todo == [] && driver.sys.phase == Ready(Fields())
    }

    constructor (driver: Driver, next: nat, segments: set<nat>)
      ensures this.driver == driver && Fields() == Writer(next, segments, None, false)
    {
      this.driver, this.segments, this.next, this.active, this.poisoned := driver, segments, next, None, false;
    }

    /** `remove_oldest` during a rotation */
    method RemoveOldest(record: Bytes, ghost start: Sys) returns (ok: bool)
      requires driver.In(start, Rotating(Fields(), record), []) && |segments| >= driver.cfg.maxFiles > 0
      modifies driver, driver.dir, this`segments
      ensures ok ==> driver.In(start, Rotating(Fields(), record), []) && WellFormed(driver.dir.fs)
                     && exists n ::
                          Oldest(old(segments), n) && segments == old(segments) - {n} && Segment(n) !in driver.dir.fs.dir
      ensures !ok ==> driver.In(start, Ready(Fields()), []) && segments == old(segments)
      ensures driver.dir.faults >= old(driver.dir.faults) && (ok ==> driver.dir.faults == old(driver.dir.faults))
      ensures !ok ==> driver.dir.faults > old(driver.dir.faults) || !AllThere(old(driver.dir.fs), segments)
      ensures ok ==> Dropped(old(driver.dir.fs), driver.dir.fs, old(segments) - segments)
    {
      hide Leads, Next, Exec, WellFormed, Driver.In;
      OldestExists(segments);
      var n :| n in segments && forall m | m in segments :: n <= m;
      ghost var w, fs := Fields(), driver.dir.fs;
      assert Oldest(w.tracked, n);
      driver.Knows(start, Rotating(w, record), []);
      PruneDecision(driver.cfg, driver.sys, w, record, n);
      if Segment(n) !in driver.dir.fs.dir {
        driver.Decided(start, Rotating(w, record), Ready(w), []);
        return false;
      }
      driver.Decided(start, Rotating(w, record), Pruning(w, record, n), Drop(n));
      assert Drop(n) == [Unlink(Segment(n))] + [SyncDir] && [SyncDir] == [SyncDir] + [];
      ok := driver.Issue(Unlink(Segment(n)), start, Pruning(w, record, n), [SyncDir]);
      if !ok { return; }
      ok := driver.Issue(SyncDir, start, Pruning(w, record, n), []);
      if !ok { return; }
      UnlinkedIsGone(fs, n);
      driver.Knows(start, Pruning(w, record, n), []);
      PrunedDecision(driver.cfg, driver.sys, w, record, n);
      driver.Decided(start, Pruning(w, record, n), Rotating(w.(tracked := segments - {n}), record), []);
      segments := segments - {n};
      assert old(segments) - segments == {n};
    }

    /** `rotate` */
    method Rotate(record: Bytes, ghost start: Sys) returns (ok: bool)
      requires driver.In(start, Rotating(Fields(), record), []) && active.None? && ValidConfig(driver.cfg)
      modifies driver, driver.dir, this`segments, this`next, this`active
      ensures ok ==> active.Some? && active.value.bytes == 0 && active.value.number == old(next)
                     && active.value.number in segments
                     && |segments| <= driver.cfg.maxFiles
                     && driver.In(start, Writing(Fields(), record), [Write(Segment(active.value.number), record)])
      ensures ok ==> next == old(next) + 1 && Rolled(driver.cfg, old(segments), segments, old(next))
      ensures !ok ==> driver.In(start, Ready(Fields()), [])
      ensures driver.dir.faults >= old(driver.dir.faults) && (ok ==> driver.dir.faults == old(driver.dir.faults))
      ensures !ok ==> driver.dir.faults > old(driver.dir.faults) || Refuses(old(driver.dir.fs), old(segments), old(next))
    {
      hide Leads, Next, Exec, WellFormed, Driver.In, AllThere, Refuses, Dropped, NewestOf, ReadSingle, Found;
      var number := next;
      ok := MakeRoom(record, start);
      if !ok { return; }
      ghost var kept, fs := segments, driver.dir.fs;
      ok := Reserve(record, start);
      if !ok {
        if Refuses(fs, {}, number) { RefusedBefore(old(driver.dir.fs), fs, old(segments), old(segments) - kept, number); }
        return;
      }
      ok := CreateSegment(number, record, start);
      if ok { assert NewestOf(old(segments), kept) && segments == kept + {number}; }
    }

    /** The new segment's file, and its place as the active one. */
    method CreateSegment(number: nat, record: Bytes, ghost start: Sys) returns (ok: bool)
      requires driver.In(start, Creating(Fields(), record, number), [Create(Segment(number)), SyncDir])
      modifies driver, driver.dir, this`segments, this`active
      ensures ok ==> segments == old(segments) + {number} && active == Some(Active(number, 0))
                     && driver.In(start, Writing(Fields(), record), [Write(Segment(number), record)])
      ensures !ok ==> driver.In(start, Ready(Fields()), []) && segments == old(segments) && active == old(active)
      ensures driver.dir.faults == old(driver.dir.faults) + (if ok then 0 else 1)
    {
      hide Leads, Next, Exec, Driver.In;
      ghost var phase := Creating(Fields(), record, number);
      driver.Knows(start, phase, [Create(Segment(number)), SyncDir]);
      assert [Create(Segment(number)), SyncDir] == [Create(Segment(number))] + [SyncDir];
      ok := driver.Issue(Create(Segment(number)), start, phase, [SyncDir]);
      if !ok { return; }
      assert [SyncDir] == [SyncDir] + [];
      ok := driver.Issue(SyncDir, start, phase, []);
      if !ok { return; }
      driver.Knows(start, phase, []);
      CreatedDecision(driver.cfg, driver.sys, Fields(), record, number);
      var made := Active(number, 0);
      driver.Decided(start, phase, Writing(Fields().(tracked := segments + {number}, active := Some(made)), record),
                     [Write(Segment(number), record)]);
      segments, active := segments + {number}, Some(made);
    }

    /** The oldest segments go until one more is allowed. */
    method MakeRoom(record: Bytes, ghost start: Sys) returns (ok: bool)
      requires driver.In(start, Rotating(Fields(), record), []) && active.None? && ValidConfig(driver.cfg)
      modifies driver, driver.dir, this`segments
      ensures driver.dir.faults >= old(driver.dir.faults) && (ok ==> driver.dir.faults == old(driver.dir.faults))
      ensures ok ==> driver.In(start, Rotating(Fields(), record), []) && |segments| < driver.cfg.maxFiles
      ensures ok ==> WellFormed(driver.dir.fs) && WellFormed(old(driver.dir.fs))
                     && Dropped(old(driver.dir.fs), driver.dir.fs, old(segments) - segments)
      ensures NewestOf(old(segments), segments)
      ensures if |old(segments)| < driver.cfg.maxFiles then segments == old(segments) else |segments| >= driver.cfg.maxFiles - 1
      ensures !ok ==> driver.In(start, Ready(Fields()), [])
      ensures !ok ==> driver.dir.faults > old(driver.dir.faults) || Refuses(old(driver.dir.fs), old(segments), old(next))
    {
      hide Leads, Next, Exec, Driver.In;
      ghost var fs := driver.dir.fs;
      driver.Knows(start, Rotating(Fields(), record), []);
      ok := true;
      while |segments| >= driver.cfg.maxFiles
        invariant driver.In(start, Rotating(Fields(), record), []) && WellFormed(driver.dir.fs)
        invariant driver.dir.faults == old(driver.dir.faults)
        invariant NewestOf(old(segments), segments) && Dropped(fs, driver.dir.fs, old(segments) - segments)
        invariant if |old(segments)| < driver.cfg.maxFiles then segments == old(segments)
                  else |segments| >= driver.cfg.maxFiles - 1
        decreases |segments|
      {
        ghost var before, mid := segments, driver.dir.fs;
        ok := RemoveOldest(record, start);
        if !ok { return; }
        assert old(segments) - segments == (old(segments) - before) + (before - segments);
        DroppedOn(fs, mid, driver.dir.fs, old(segments) - before, before - segments);
      }
    }

    /** The reservation of the next number, and the plan to create its segment. */
    method Reserve(record: Bytes, ghost start: Sys) returns (ok: bool)
      requires driver.In(start, Rotating(Fields(), record), []) && |segments| < driver.cfg.maxFiles
      modifies driver, driver.dir, this`next
      ensures ok ==> next == old(next) + 1
                     && driver.In(start, Creating(Fields(), record, old(next)), [Create(Segment(old(next))), SyncDir])
      ensures !ok ==> driver.In(start, Ready(Fields()), []) && next == old(next)
      ensures driver.dir.faults == old(driver.dir.faults) + (if !ok && !Refuses(old(driver.dir.fs), {}, next) then 1 else 0)
    {
      ghost var before := driver.sys;
      var r := ReserveNextSegment(driver.dir, next);
      ghost var after := ReservePath(driver.cfg, start, before, next, record, r, driver.dir.fs);
      hide Leads, Follows, ReservePlan;
      driver.sys := after;
      if r.Err? { return false; }
      next := r.value;
      ok := true;
    }

    /** `append_record` */
    method AppendRecord(record: Bytes) returns (r: Result<(), AppendError>)
      requires Valid()
      modifies driver, driver.dir, this`segments, this`next, this`active, this`poisoned
      ensures Valid() && Leads(driver.cfg, old(driver.sys), driver.sys)
      ensures r == Err(PoisonedAppender) <==> old(poisoned)
      ensures r == Err(InvalidRecord) <==>
                !old(poisoned) && (record == [] || !EndsLine(record) || |record| > driver.cfg.maxFileBytes)
      ensures r.Err? && r.error != Failed ==>
                driver.sys == old(driver.sys) && driver.dir.fs == old(driver.dir.fs) && Fields() == old(Fields())
      ensures r == Err(Failed) ==>
                || driver.dir.faults > old(driver.dir.faults)
                || (&& !JournalRotation.Fits(driver.cfg, old(active), record)
                    && Refuses(old(driver.dir.fs), old(segments), old(next)))
      ensures r.Ok? ==> !poisoned && Acknowledged(record) && driver.dir.faults == old(driver.dir.faults)
      ensures JournalRotation.Fits(driver.cfg, old(active), record) ==>
                && segments == old(segments) && next == old(next)
                && (r.Ok? ==> active == Some(Active(old(active).value.number, old(active).value.bytes + |record|)))
      ensures r.Ok? && !JournalRotation.Fits(driver.cfg, old(active), record) ==>
                && active == Some(Active(old(next), |record|)) && next == old(next) + 1
                && Rolled(driver.cfg, old(segments), segments, old(next))
    {
      hide Leads, Next, WellFormed, RollingFileAppender.Acknowledged, Rolled, Refuses;
      ghost var start := driver.sys;
      Stay(driver.cfg, driver.sys);
      if poisoned { return Err(PoisonedAppender); }
      if record == [] || !EndsLine(record) { return Err(InvalidRecord); }
      if |record| > driver.cfg.maxFileBytes { return Err(InvalidRecord); }
      var rotates := active.None? || (active.value.bytes > 0 && active.value.bytes + |record| > driver.cfg.maxFileBytes);
      ghost var w := Fields();
      AppendDecision(driver.cfg, driver.sys, w, record);
      assert driver.In(start, Ready(w), []);
      hide Driver.In;
      var ok;
      if rotates {
        driver.Decided(start, Ready(w), Rotating(w.(active := None), record), []);
        active := None;
        ok := Rotate(record, start);
        if !ok { driver.Knows(start, Ready(Fields()), []); return Err(Failed); }
      } else {
        driver.Decided(start, Ready(w), Writing(w, record), [Write(Segment(active.value.number), record)]);
      }
      r := WriteAndSync(record, start);
      driver.Knows(start, Ready(Fields()), []);
    }

    /** The record is the end of the active segment and acknowledged. */
    ghost predicate Acknowledged(record: Bytes)
      reads this, driver, driver.dir
    {
      && active.Some? && WellFormed(driver.dir.fs) && Segment(active.value.number) in driver.dir.fs.dir
      && active.value.number in driver.sys.acked && driver.sys.acked[active.value.number] == active.value.bytes
      && var b := FileOf(driver.dir.fs, Segment(active.value.number)).bytes;
         |record| <= |b| && b[|b| - |record|..] == record
    }

    /** The write, its rollback on failure, and the sync that acknowledges the record. */
    method WriteAndSync(record: Bytes, ghost start: Sys) returns (r: Result<(), AppendError>)
      requires active.Some? && !poisoned
      requires driver.In(start, Writing(Fields(), record), [Write(Segment(active.value.number), record)])
      modifies driver, driver.dir, this`active, this`poisoned
      ensures driver.In(start, Ready(Fields()), [])
      ensures r.Err? ==> r.error == Failed && poisoned && driver.dir.faults > old(driver.dir.faults)
      ensures r.Ok? ==> driver.dir.faults == old(driver.dir.faults)
      ensures r.Err? && driver.dir.faults == old(driver.dir.faults) + 1 ==>
                Uncut(old(driver.dir.fs), driver.dir.fs, old(active).value, record)
      ensures r.Ok? ==> !poisoned && active == Some(Active(old(active).value.number, old(active).value.bytes + |record|))
                        && Acknowledged(record)
    {
      var a := active.value;
      ghost var fs, w := driver.dir.fs, Fields();
      driver.Knows(start, Writing(w, record), [Write(Segment(a.number), record)]);
      hide Leads, Next, Exec, Driver.In;
      assert [Write(Segment(a.number), record)] == [Write(Segment(a.number), record)] + [];
      var ok := driver.Issue(Write(Segment(a.number), record), start, Writing(w, record), []);
      if !ok {
        TornKeepsNames(fs, Segment(a.number), record, driver.dir.fs);
        RollBack(fs, record, start);
        return Err(Failed);
      }
      r := SyncRecord(record, fs, start);
    }

    /** The attempt to cut off what a failed write left. */
    method RollBack(ghost fs: Fs, record: Bytes, ghost start: Sys)
      requires active.Some? && !poisoned && WellFormed(fs) && WellFormed(driver.dir.fs) && driver.dir.fs.dir == fs.dir
      requires driver.In(start, Truncating(Fields().(poisoned := true)),
                         [SetLen(Segment(active.value.number), active.value.bytes)])
      modifies driver, driver.dir, this`poisoned
      ensures driver.In(start, Ready(Fields()), []) && poisoned
      ensures driver.dir.faults >= old(driver.dir.faults)
      ensures driver.dir.faults == old(driver.dir.faults) ==> Uncut(fs, driver.dir.fs, active.value, record)
    {
      hide Leads, Next, Exec, Driver.In;
      poisoned := true;
      var a := active.value;
      ghost var torn, phase := driver.dir.fs, Truncating(Fields());
      assert [SetLen(Segment(a.number), a.bytes)] == [SetLen(Segment(a.number), a.bytes)] + [];
      var ok := driver.Issue(SetLen(Segment(a.number), a.bytes), start, phase, []);
      if ok {
        CutBack(torn, Segment(a.number), a.bytes);
        driver.Knows(start, phase, []);
        TruncatedDecision(driver.cfg, driver.sys, Fields());
        driver.Decided(start, phase, Ready(Fields()), []);
      }
    }

    method SyncRecord(record: Bytes, ghost fs: Fs, ghost start: Sys) returns (r: Result<(), AppendError>)
      requires active.Some? && !poisoned && WellFormed(fs) && Enabled(fs, Write(Segment(active.value.number), record))
      requires driver.dir.fs == Exec(fs, Write(Segment(active.value.number), record))
               && driver.In(start, Writing(Fields(), record), [])
      modifies driver, driver.dir, this`active, this`poisoned
      ensures driver.In(start, Ready(Fields()), [])
      ensures r.Err? ==> r.error == Failed && poisoned && driver.dir.faults > old(driver.dir.faults)
      ensures r.Ok? ==> driver.dir.faults == old(driver.dir.faults)
      ensures r.Err? && driver.dir.faults == old(driver.dir.faults) + 1 ==> Uncut(fs, driver.dir.fs, old(active).value, record)
      ensures r.Ok? ==> !poisoned && active == Some(Active(old(active).value.number, old(active).value.bytes + |record|))
                        && Acknowledged(record)
    {
      hide Leads, Next, Exec, WellFormed, Driver.In;
      var a := active.value;
      ghost var w := Fields();
      driver.Knows(start, Writing(w, record), []);
      WrittenDecision(driver.cfg, driver.sys, w, record);
      driver.Decided(start, Writing(w, record), Syncing(w, record), [Fsync(Segment(a.number))]);
      assert [Fsync(Segment(a.number))] == [Fsync(Segment(a.number))] + [];
      var ok := driver.Issue(Fsync(Segment(a.number)), start, Syncing(w, record), []);
      if !ok {
        poisoned := true;
        WrittenWhole(fs, Segment(a.number), record, driver.dir.fs);
        return Err(Failed);
      }
      SyncedText(fs, Segment(a.number), record);
      Acknowledge(start, w, record);
      active := Some(Active(a.number, a.bytes + |record|));
      r := Ok(());
    }

    ghost method Acknowledge(start: Sys, w: Writer, record: Bytes)
      requires driver.In(start, Syncing(w, record), []) && w.active.Some?
      modifies driver
      ensures var now := Active(w.active.value.number, w.active.value.bytes + |record|);
              driver.In(start, Ready(w.(active := Some(now))), []) && now.number in driver.sys.acked
                  && driver.sys.acked[now.number] == now.bytes
    {
      var now := Active(w.active.value.number, w.active.value.bytes + |record|);
      SyncedDecision(driver.cfg, driver.sys, w, record);
      hide Leads, Next;
      var s' := driver.sys.(phase := Ready(w.(active := Some(now))), acked := driver.sys.acked[now.number := now.bytes]);
      Then(driver.cfg, start, driver.sys, s');
      driver.sys := s';
    }
  }

  lemma UnlinkedIsGone(fs: Fs, n: nat)
    requires WellFormed(fs) && Enabled(fs, Unlink(Segment(n)))
    ensures var fs' := Exec(Exec(fs, Unlink(Segment(n))), SyncDir);
            Segment(n) !in fs'.dir && Dropped(fs, fs', {n})
  {}

  /** A failed append leaves the whole record or the counted length, so no part of a record, if one call failed only. */
  ghost predicate Uncut(fs: Fs, fs': Fs, a: Active, record: Bytes)
  {
    && WellFormed(fs) && WellFormed(fs') && Segment(a.number) in fs.dir && Segment(a.number) in fs'.dir
    && var b, b' := FileOf(fs, Segment(a.number)).bytes, FileOf(fs', Segment(a.number)).bytes;
       b' == b + record || |b'| == a.bytes
  }

  lemma TornKeepsNames(fs: Fs, n: Name, text: Bytes, fs': Fs)
    requires WellFormed(fs) && (fs' == fs || (Enabled(fs, Write(n, text)) && Torn(fs, Write(n, text), fs')))
    ensures fs'.dir == fs.dir
  {}

  lemma CutBack(fs: Fs, n: Name, len: nat)
    requires WellFormed(fs) && Enabled(fs, SetLen(n, len))
    ensures var fs' := Exec(fs, SetLen(n, len)); n in fs'.dir && |FileOf(fs', n).bytes| == len
  {}

  lemma WrittenWhole(fs: Fs, n: Name, text: Bytes, fs': Fs)
    requires WellFormed(fs) && Enabled(fs, Write(n, text))
    requires var mid := Exec(fs, Write(n, text));
             WellFormed(fs') && (fs' == mid || (Enabled(mid, Fsync(n)) && Torn(mid, Fsync(n), fs')))
    ensures n in fs'.dir && FileOf(fs', n).bytes == FileOf(fs, n).bytes + text
  {}

  lemma SyncedText(fs: Fs, n: Name, text: Bytes)
    requires WellFormed(fs) && Enabled(fs, Write(n, text)) && Enabled(Exec(fs, Write(n, text)), Fsync(n))
    ensures var fs' := Exec(Exec(fs, Write(n, text)), Fsync(n));
            n in fs'.dir && var b := FileOf(fs', n).bytes; |text| <= |b| && b[|b| - |text|..] == text
  {}

  // ----- decisions of the machine, spelled out -----

  lemma PruneDecision(cfg: Config, s: Sys, w: Writer, record: Bytes, n: nat)
    requires WellFormed(s.fs) && s.todo == [] && s.phase == Rotating(w, record) && |w.tracked| >= cfg.maxFiles
    requires Oldest(w.tracked, n)
    ensures Segment(n) !in s.fs.dir ==> Next(cfg, s, s.(phase := Ready(w)))
    ensures Segment(n) in s.fs.dir ==> Next(cfg, s, s.(phase := Pruning(w, record, n), todo := Drop(n)))
  {
    var s' := if Segment(n) in s.fs.dir then s.(phase := Pruning(w, record, n), todo := Drop(n)) else s.(phase := Ready(w));
    assert Decide(cfg, s, s');
  }

  lemma PrunedDecision(cfg: Config, s: Sys, w: Writer, record: Bytes, n: nat)
    requires WellFormed(s.fs) && s.todo == [] && s.phase == Pruning(w, record, n)
    ensures Next(cfg, s, s.(phase := Rotating(w.(tracked := w.tracked - {n}), record)))
  {
    assert Decide(cfg, s, s.(phase := Rotating(w.(tracked := w.tracked - {n}), record)));
  }

  lemma CreatedDecision(cfg: Config, s: Sys, w: Writer, record: Bytes, n: nat)
    requires WellFormed(s.fs) && s.todo == [] && s.phase == Creating(w, record, n)
    ensures Next(cfg, s, s.(phase := Writing(w.(tracked := w.tracked + {n}, active := Some(Active(n, 0))), record),
                            todo := [Write(Segment(n), record)]))
  {
    assert Decide(cfg, s, s.(phase := Writing(w.(tracked := w.tracked + {n}, active := Some(Active(n, 0))), record),
                             todo := [Write(Segment(n), record)]));
  }

  lemma AppendDecision(cfg: Config, s: Sys, w: Writer, record: Bytes)
    requires s.phase == Ready(w) && !w.poisoned && record != [] && EndsLine(record) && |record| <= cfg.maxFileBytes
    ensures if w.active.None? || (w.active.value.bytes > 0 && w.active.value.bytes + |record| > cfg.maxFileBytes)
            then Next(cfg, s, s.(phase := Rotating(w.(active := None), record)))
            else Next(cfg, s, s.(phase := Writing(w, record), todo := [Write(Segment(w.active.value.number), record)]))
  {
    var s' := if w.active.None? || (w.active.value.bytes > 0 && w.active.value.bytes + |record| > cfg.maxFileBytes)
              then s.(phase := Rotating(w.(active := None), record))
              else s.(phase := Writing(w, record), todo := [Write(Segment(w.active.value.number), record)]);
    assert AppendCall(cfg, s, s');
  }

  lemma TruncatedDecision(cfg: Config, s: Sys, w: Writer)
    requires WellFormed(s.fs) && s.todo == [] && s.phase == Truncating(w)
    ensures Next(cfg, s, s.(phase := Ready(w)))
  {
    assert Decide(cfg, s, s.(phase := Ready(w)));
  }

  lemma WrittenDecision(cfg: Config, s: Sys, w: Writer, record: Bytes)
    requires WellFormed(s.fs) && s.todo == [] && s.phase == Writing(w, record) && w.active.Some?
    ensures Next(cfg, s, s.(phase := Syncing(w, record), todo := [Fsync(Segment(w.active.value.number))]))
  {
    assert Decide(cfg, s, s.(phase := Syncing(w, record), todo := [Fsync(Segment(w.active.value.number))]));
  }

  lemma SyncedDecision(cfg: Config, s: Sys, w: Writer, record: Bytes)
    requires WellFormed(s.fs) && s.todo == [] && s.phase == Syncing(w, record) && w.active.Some?
    ensures var now := Active(w.active.value.number, w.active.value.bytes + |record|);
            Next(cfg, s, s.(phase := Ready(w.(active := Some(now))), acked := s.acked[now.number := now.bytes]))
  {
    var now := Active(w.active.value.number, w.active.value.bytes + |record|);
    assert Decide(cfg, s, s.(phase := Ready(w.(active := Some(now))), acked := s.acked[now.number := now.bytes]));
  }

  /** The machine's way through a reservation. */
  lemma ReservePath(cfg: Config, start: Sys, s: Sys, next: nat, record: Bytes, r: Result<nat, OpenError>, fs': Fs)
    returns (s': Sys)
    requires WellFormed(s.fs) && s.todo == [] && s.phase.Rotating? && s.phase.w.next == next && s.phase.record == record
    requires Leads(cfg, start, s) && |s.phase.w.tracked| < cfg.maxFiles
    requires Follows(s.fs, ReservePlan(s.fs, next), r, fs')
    ensures s'.fs == fs' && WellFormed(fs') && Leads(cfg, start, s')
    ensures r.Ok? ==> r.value == next + 1 && s'.phase == Creating(s.phase.w.(next := next + 1), record, next)
                      && s'.todo == [Create(Segment(next)), SyncDir]
    ensures r.Err? ==> s'.phase == Ready(s.phase.w) && s'.todo == []
  {
    var w := s.phase.w;
    var plan := ReservePlan(s.fs, next);
    ReserveOutcome(s.fs, next);
    hide Leads, ReservePlan;
    if plan.outcome.Err? {
      NothingPlanned(s.fs, plan.cmds, fs', r, plan);
      s' := s.(phase := Ready(w));
      assert Decide(cfg, s, s');
      Then(cfg, start, s, s');
    } else {
      var m := s.(phase := Reserving(w, record), todo := plan.cmds);
      assert Decide(cfg, s, m);
      Then(cfg, start, s, m);
      hide Decide, Next;
      s' := ReservingPath(cfg, start, m, plan, r, fs');
    }
  }

  lemma ReservedDecision(cfg: Config, s: Sys, s': Sys)
    requires WellFormed(s.fs) && s.todo == [] && s.phase.Reserving?
    requires var w := s.phase.w;
             s' == s.(phase := Creating(w.(next := w.next + 1), s.phase.record, w.next),
                      todo := [Create(Segment(w.next)), SyncDir])
    ensures Next(cfg, s, s')
  {
    assert Decide(cfg, s, s');
  }

  lemma ReservingPath(cfg: Config, start: Sys, m: Sys, plan: Plan, r: Result<nat, OpenError>, fs': Fs) returns (s': Sys)
    requires WellFormed(m.fs) && m.phase.Reserving? && m.todo == plan.cmds && Leads(cfg, start, m)
    requires plan.outcome == Ok(m.phase.w.next + 1) && Follows(m.fs, plan, r, fs')
    ensures s'.fs == fs' && WellFormed(fs') && Leads(cfg, start, s')
    ensures r.Ok? ==> var w := m.phase.w;
                      r.value == w.next + 1 && s'.phase == Creating(w.(next := w.next + 1), m.phase.record, w.next)
                      && s'.todo == [Create(Segment(w.next)), SyncDir]
    ensures r.Err? ==> s'.phase == Ready(m.phase.w) && s'.todo == []
  {
    hide Leads, Next, Reached, Interrupted;
    if r.Ok? {
      s' := ReservedPath(cfg, start, m, fs');
    } else {
      s' := GivenUpPath(cfg, start, m, fs');
    }
  }

  lemma ReservedPath(cfg: Config, start: Sys, m: Sys, fs': Fs) returns (s': Sys)
    requires WellFormed(m.fs) && m.phase.Reserving? && Leads(cfg, start, m) && Reached(m.fs, m.todo, |m.todo|, fs')
    ensures s'.fs == fs' && WellFormed(fs') && Leads(cfg, start, s')
    ensures var w := m.phase.w;
            s'.phase == Creating(w.(next := w.next + 1), m.phase.record, w.next)
            && s'.todo == [Create(Segment(w.next)), SyncDir]
  {
    hide Leads, Next;
    assert m.todo[..|m.todo|] == m.todo;
    CallsLead(cfg, start, m);
    var done := AllCalled(m);
    hide AllCalled, AllEnabled, ExecAll;
    var w := m.phase.w;
    s' := done.(phase := Creating(w.(next := w.next + 1), m.phase.record, w.next), todo := [Create(Segment(w.next)), SyncDir]);
    ReservedDecision(cfg, done, s');
    Then(cfg, start, done, s');
  }

  lemma GivenUpPath(cfg: Config, start: Sys, m: Sys, fs': Fs) returns (s': Sys)
    requires WellFormed(m.fs) && m.phase.Reserving? && Leads(cfg, start, m) && Interrupted(m.fs, m.todo, fs')
    ensures s'.fs == fs' && WellFormed(fs') && Leads(cfg, start, s') && s'.phase == Ready(m.phase.w) && s'.todo == []
  {
    hide Leads, InterruptedAt;
    var n: nat :| InterruptedAt(m.fs, m.todo, fs', n);
    s' := InterruptLeads(cfg, start, m, fs', n);
    InterruptedWellFormed(m.fs, m.todo, fs', n);
  }

  lemma NothingPlanned(fs: Fs, cmds: seq<Cmd>, fs': Fs, r: Result<nat, OpenError>, plan: Plan)
    requires WellFormed(fs) && cmds == [] && plan.cmds == cmds && Follows(fs, plan, r, fs')
    ensures fs' == fs && !(r == Err(Io))
  {}

  lemma InterruptedWellFormed(fs: Fs, cmds: seq<Cmd>, fs': Fs, n: nat)
    requires WellFormed(fs) && InterruptedAt(fs, cmds, fs', n)
    ensures WellFormed(fs')
  {}
}
