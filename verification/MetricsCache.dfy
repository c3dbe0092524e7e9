/** The cached metrics exposition: a hit shows what a fresh exposition would show. */
module MetricsCache {
  import opened Wrappers
  import opened Registrations
  import opened MetricsCommit

  datatype Db = Db(targets: Targets, snapshots: Snapshots, listed: set<SeatKey>, revision: nat)

  /** The active targets, their listed seats and their stored observations. */
  datatype View = View(active: set<nat>, listed: set<SeatKey>, snapshots: Snapshots)

  datatype Entry = Entry(revision: nat, expiry: Option<int>, bucket: int, view: View)

  function LiveIds(targets: Targets, now: int): set<nat> { set p | p in targets && targets[p].lease > now :: targets[p].id }

  function DeadIds(targets: Targets, now: int): set<nat> { set p | p in targets && targets[p].lease <= now :: targets[p].id }

  function ViewOf(db: Db, now: int): View
  {
    var live := LiveIds(db.targets, now);
    View(live, set k | k in db.listed && k.target in live, map k | k in db.snapshots && k.target in live :: db.snapshots[k])
  }

  /** Rows of targets whose lease is over are deleted; if there were any, the revision moves. */
  function Purge(db: Db, now: int): Db
  {
    var dead := DeadIds(db.targets, now);
    var kept := map k | k in db.snapshots && k.target !in dead :: db.snapshots[k];
    db.(snapshots := kept, revision := db.revision + (if kept == db.snapshots then 0 else 1))
  }

  /** `MIN(lease_until)` among the live targets */
  ghost predicate IsNextExpiry(targets: Targets, now: int, e: Option<int>)
  {
    && (forall p | p in targets && targets[p].lease > now :: e.Some? && e.value <= targets[p].lease)
    && (e.Some? ==> exists p | p in targets :: targets[p].lease == e.value > now)
  }

  lemma OneNextExpiry(targets: Targets, now: int, a: Option<int>, b: Option<int>)
    requires IsNextExpiry(targets, now, a) && IsNextExpiry(targets, now, b)
    ensures a == b
  {}

  /**
   An exposition shows a target exactly if its lease runs, then with all its listed seats and stored observations,
   and nothing of a target whose lease is over.
   */
  lemma ViewShows(db: Db, now: int, p: Pubkey, k: SeatKey)
    requires DistinctIds(db.targets) && p in db.targets && k.target == db.targets[p].id
    ensures var v := ViewOf(db, now);
            var live := db.targets[p].lease > now;
            && (k.target in v.active <==> live) && (k in v.listed <==> live && k in db.listed)
            && (k in v.snapshots <==> live && k in db.snapshots)
            && (k in v.snapshots ==> v.snapshots[k] == db.snapshots[k])
  {
    if q :| q in db.targets && db.targets[q].lease > now && db.targets[q].id == k.target {
      assert p == q;
    }
  }

  /** The purge deletes exactly the observations of targets whose lease is over, and no exposition shows the difference. */
  lemma PurgeMeans(db: Db, now: int, p: Pubkey, k: SeatKey)
    requires DistinctIds(db.targets) && p in db.targets && k.target == db.targets[p].id
    ensures var db' := Purge(db, now);
            && (k in db'.snapshots <==> k in db.snapshots && db.targets[p].lease > now)
            && (k in db'.snapshots ==> db'.snapshots[k] == db.snapshots[k])
            && db'.targets == db.targets && db'.listed == db.listed
            && (db'.revision == db.revision <==> db'.snapshots == db.snapshots)
    ensures ViewOf(Purge(db, now), now) == ViewOf(db, now)
  {
    var live, dead := LiveIds(db.targets, now), DeadIds(db.targets, now);
    forall id | id in live ensures id !in dead {
      var a :| a in db.targets && db.targets[a].lease > now && db.targets[a].id == id;
    }
    if k.target in dead {
      var q :| q in db.targets && db.targets[q].lease <= now && db.targets[q].id == k.target;
      assert p == q;
    }
  }

  /** The server's view of the database and its cache. */
  class MetricsServer {
    var db: Db
    var cache: Option<Entry>

    constructor (db: Db)
      ensures this.db == db && cache.None?
    {
      this.db, cache := db, None;
    }

    method NextExpiry(now: int) returns (e: Option<int>)
      ensures IsNextExpiry(db.targets, now, e)
    {
      e := None;
      var left := db.targets.Keys;
      while left != {}
        invariant left <= db.targets.Keys
        invariant forall p | p in db.targets && p !in left && db.targets[p].lease > now ::
                    e.Some? && e.value <= db.targets[p].lease
        invariant e.Some? ==> exists p | p in db.targets :: db.targets[p].lease == e.value > now
        decreases left
      {
        var p :| p in left;
        left := left - {p};
        if db.targets[p].lease > now && (e.None? || db.targets[p].lease < e.value) { e := Some(db.targets[p].lease); }
      }
    }

    /** `metrics_at` when nothing else runs between its two transactions */
    method MetricsAt(now: int, bucket: int) returns (view: View, hit: bool)
      modifies this
      ensures hit <==> Hit(old(cache), Purge(old(db), now), now, bucket)
      ensures db == Purge(Purge(old(db), now), now) || (hit && db == Purge(old(db), now))
      ensures hit ==> cache == old(cache) && view == cache.value.view
      ensures !hit ==> view == ViewOf(db, now) && Filled(cache, db, now, bucket)
    {
      db := Purge(db, now);
      var expiry := NextExpiry(now);
      if cache.Some? && IsNextExpiry(db.targets, now, cache.value.expiry) {
        OneNextExpiry(db.targets, now, cache.value.expiry, expiry);
      }
      if cache.Some? && cache.value.revision == db.revision && cache.value.expiry == expiry && cache.value.bucket == bucket {
        return cache.value.view, true;
      }
      cache := None;
      db := Purge(db, now);
      expiry := NextExpiry(now);
      view, hit := ViewOf(db, now), false;
      cache := Some(Entry(db.revision, expiry, bucket, view));
    }
  }

  /** The cached entry has the version that the database has now, and the same freshness bucket. */
  ghost predicate Hit(cache: Option<Entry>, db: Db, now: int, bucket: int)
  {
    && cache.Some? && cache.value.revision == db.revision && cache.value.bucket == bucket
    && IsNextExpiry(db.targets, now, cache.value.expiry)
  }

  ghost predicate Filled(cache: Option<Entry>, db: Db, now: int, bucket: int)
  {
    && cache.Some? && cache.value.revision == db.revision && cache.value.bucket == bucket
    && cache.value.view == ViewOf(db, now) && IsNextExpiry(db.targets, now, cache.value.expiry)
  }

  // ----- every run of transactions -----

  /** `base` and `at` are the database and the time of the last fill; they record the past and steer nothing. */
  datatype Sys = Sys(db: Db, cache: Option<Entry>, clock: int, base: Db, at: int)

  ghost predicate AdmitStep(leaseSeconds: nat, s: Sys, now: int, s': Sys)
  {
    exists r, minted ::
      && (forall p | p in s.db.targets :: s.db.targets[p].id != minted)
      && Admit(s.db.targets, r, now, leaseSeconds, minted).Ok?
      && s' == s.(clock := now, db := AfterAdmission(s.db, r.pubkey, Admit(s.db.targets, r, now, leaseSeconds, minted).value))
  }

  /** What an admission does to the metrics tables. */
  function AfterAdmission(db: Db, p: Pubkey, a: Admitted): Db
  {
    var db' := db.(targets := a.targets, revision := db.revision + (if a.expired || a.outcome.Updated? then 1 else 0));
    if a.expired && p in db.targets then
      var id := db.targets[p].id;
      db'.(snapshots := map k | k in db.snapshots && k.target != id :: db.snapshots[k],
           listed := set k | k in db.listed && k.target != id)
    else db'
  }

  /** A metrics commit: whatever it stores, the revision moves. */
  ghost predicate CommitStep(s: Sys, now: int, s': Sys)
  {
    s' == s.(clock := now, db := s.db.(snapshots := s'.db.snapshots, listed := s'.db.listed, revision := s.db.revision + 1))
  }

  ghost predicate PurgeStep(s: Sys, now: int, s': Sys) { s' == s.(clock := now, db := Purge(s.db, now)) }

  /** A scrape whose version does not match drops the cache. */
  ghost predicate MissStep(s: Sys, now: int, s': Sys) { s' == s.(clock := now, db := Purge(s.db, now), cache := None) }

  ghost predicate FillStep(s: Sys, now: int, bucket: int, s': Sys)
  {
    var db := Purge(s.db, now);
    exists expiry :: IsNextExpiry(db.targets, now, expiry)
      && s' == Sys(db, Some(Entry(db.revision, expiry, bucket, ViewOf(db, now))), now, db, now)
  }

  /** Any transaction, at a time no earlier than the one before it. */
  ghost predicate Next(leaseSeconds: nat, s: Sys, s': Sys)
  {
    var now := s'.clock;
    && now >= s.clock
    && (|| AdmitStep(leaseSeconds, s, now, s') || CommitStep(s, now, s') || PurgeStep(s, now, s') || MissStep(s, now, s')
        || exists bucket :: FillStep(s, now, bucket, s'))
  }

  ghost predicate Run(leaseSeconds: nat, run: seq<Sys>)
  {
    && run != [] && run[0].cache.None? && run[0].db == Db(map[], map[], {}, 0)
    && forall i | 0 <= i < |run| - 1 :: Next(leaseSeconds, run[i], run[i + 1])
  }

  /** Since the fill, leases of live targets have only been renewed and the dead stayed dead. */
  ghost predicate SameSince(base: Db, db: Db, at: int)
  {
    && db.snapshots == base.snapshots && db.listed == base.listed && db.targets.Keys == base.targets.Keys
    && forall p | p in base.targets ::
         && db.targets[p].id == base.targets[p].id && db.targets[p].lease >= base.targets[p].lease
         && (base.targets[p].lease <= at ==> db.targets[p].lease == base.targets[p].lease)
  }

  ghost predicate CacheOk(leaseSeconds: nat, s: Sys)
  {
    && (forall p | p in s.db.targets :: s.db.targets[p].lease <= s.clock + leaseSeconds)
    && (s.cache.Some? ==>
          && Filled(s.cache, s.base, s.at, s.cache.value.bucket) && s.at <= s.clock && s.base.revision <= s.db.revision
          && (s.db.revision == s.base.revision ==> SameSince(s.base, s.db, s.at)))
  }

  lemma AdmitKeeps(leaseSeconds: nat, s: Sys, now: int, s': Sys)
    requires CacheOk(leaseSeconds, s) && now >= s.clock && AdmitStep(leaseSeconds, s, now, s')
    ensures CacheOk(leaseSeconds, s')
  {
    hide Filled;
  }

  lemma PurgeKeeps(leaseSeconds: nat, s: Sys, now: int, s': Sys)
    requires CacheOk(leaseSeconds, s) && now >= s.clock
    requires CommitStep(s, now, s') || PurgeStep(s, now, s') || MissStep(s, now, s')
    ensures CacheOk(leaseSeconds, s')
  {
    hide Filled;
  }

  lemma FillKeeps(leaseSeconds: nat, s: Sys, now: int, bucket: int, s': Sys)
    requires CacheOk(leaseSeconds, s) && now >= s.clock && FillStep(s, now, bucket, s')
    ensures CacheOk(leaseSeconds, s')
  {
    hide ViewOf, IsNextExpiry;
  }

  lemma {:induction false} RunOk(leaseSeconds: nat, run: seq<Sys>, i: nat)
    requires Run(leaseSeconds, run) && i < |run|
    ensures CacheOk(leaseSeconds, run[i])
  {
    if i > 0 {
      hide CacheOk, AdmitStep, CommitStep, PurgeStep, MissStep, FillStep;
      RunOk(leaseSeconds, run, i - 1);
      var s, s' := run[i - 1], run[i];
      var now := s'.clock;
      if AdmitStep(leaseSeconds, s, now, s') {
        AdmitKeeps(leaseSeconds, s, now, s');
      } else if bucket :| FillStep(s, now, bucket, s') {
        FillKeeps(leaseSeconds, s, now, bucket, s');
      } else {
        PurgeKeeps(leaseSeconds, s, now, s');
      }
    }
  }

  /** The same targets are live, because none of them can have expired without the next expiry moving. */
  lemma SameLive(base: Db, db: Db, at: int, now: int, expiry: Option<int>)
    requires SameSince(base, db, at) && at <= now
    requires IsNextExpiry(base.targets, at, expiry) && IsNextExpiry(db.targets, now, expiry)
    ensures LiveIds(db.targets, now) == LiveIds(base.targets, at)
  {
    forall p | p in base.targets ensures base.targets[p].lease > at <==> db.targets[p].lease > now {}
  }

  /** A cache hit shows the same active targets, listed seats and observations as a fresh exposition at that moment. */
  lemma HitIsFresh(leaseSeconds: nat, run: seq<Sys>, i: nat, now: int, bucket: int)
    requires Run(leaseSeconds, run) && i < |run| && now >= run[i].clock
    requires Hit(run[i].cache, Purge(run[i].db, now), now, bucket)
    ensures run[i].cache.value.view == ViewOf(Purge(run[i].db, now), now)
  {
    RunOk(leaseSeconds, run, i);
    var s := run[i];
    var db := Purge(s.db, now);
    assert db.revision == s.base.revision && db.snapshots == s.db.snapshots;
    SameLive(s.base, s.db, s.at, now, s.cache.value.expiry);
  }
}
