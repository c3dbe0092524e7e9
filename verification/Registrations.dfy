/** Admission of targets and the fence that registration revisions put around collection work. */
module Registrations {
  import opened Wrappers

  const MAX_TARGETS := 4096

  type Pubkey = nat
  type TargetId = nat

  /** One row of `targets`; `endpoint` and `capability` are the decrypted secret. */
  datatype Target = Target(id: TargetId, generation: nat, auth: int, lease: int, revision: nat, endpoint: nat, capability: nat)

  type Targets = map<Pubkey, Target>

  datatype Registration = Registration(pubkey: Pubkey, signedAt: int, generation: nat, endpoint: nat, capability: nat)

  datatype StoreError = Refused | Saturated

  datatype Admission = Idempotent | Updated

  /** What a successful admission does to the row, and what else follows from it. */
  datatype Admitted = Admitted(targets: Targets, outcome: Admission, expired: bool)

  /** `admit`; `minted` is the identifier of a new target. */
  function Admit(targets: Targets, r: Registration, now: int, leaseSeconds: nat, minted: TargetId): Result<Admitted, StoreError>
  {
    var lease := now + leaseSeconds;
    if r.pubkey in targets then
      var t := targets[r.pubkey];
      if r.generation < t.generation || r.signedAt < t.auth then Err(Refused)
      else if r.generation == t.generation && r.capability != t.capability then Err(Refused)
      else
        var bump := r.generation > t.generation || r.endpoint != t.endpoint;
        var revision := t.revision + (if bump then 1 else 0);
        var row := Target(t.id, r.generation, r.signedAt, lease, revision, r.endpoint, r.capability);
        Ok(Admitted(targets[r.pubkey := row], if bump then Updated else Idempotent, t.lease <= now))
    else if |targets| >= MAX_TARGETS then Err(Saturated)
    else
      var row := Target(minted, r.generation, r.signedAt, lease, 1, r.endpoint, r.capability);
      Ok(Admitted(targets[r.pubkey := row], Updated, false))
  }

  /** A registration is accepted exactly if it does not go back and, within a generation, keeps its capability. */
  predicate Acceptable(t: Target, r: Registration)
  {
    r.generation >= t.generation && r.signedAt >= t.auth && (r.generation > t.generation || r.capability == t.capability)
  }

  /**
   What an admission means: exactly the acceptable registrations of known keys and, while there is room, all of new keys
   are accepted; the row then has the registered endpoint and capability and a lease from now on, under the same
   identifier; its revision moves exactly if the generation or the endpoint does, and all other rows stay.
   */
  lemma AdmitMeans(targets: Targets, r: Registration, now: int, leaseSeconds: nat, minted: TargetId)
    ensures var a := Admit(targets, r, now, leaseSeconds, minted);
            && (a == Err(Refused) <==> r.pubkey in targets && !Acceptable(targets[r.pubkey], r))
            && (a == Err(Saturated) <==> r.pubkey !in targets && |targets| >= MAX_TARGETS)
            && (a.Ok? ==>
                  && r.pubkey in a.value.targets
                  && (forall p | p != r.pubkey ::
                        (p in a.value.targets <==> p in targets) && (p in targets ==> a.value.targets[p] == targets[p]))
                  && var row := a.value.targets[r.pubkey];
                     && row.endpoint == r.endpoint && row.capability == r.capability && row.generation == r.generation
                     && row.auth == r.signedAt && row.lease == now + leaseSeconds
                     && if r.pubkey in targets then
                          var t := targets[r.pubkey];
                          var moves := r.generation != t.generation || r.endpoint != t.endpoint;
                          && row.id == t.id && row.revision == t.revision + (if moves then 1 else 0)
                          && (a.value.outcome == Updated <==> moves) && (a.value.expired <==> t.lease <= now)
                        else row.id == minted && row.revision == 1 && a.value.outcome == Updated && !a.value.expired)
  {}

  /** Work handed out at some moment: what a worker connects to, and the fence it must pass. */
  datatype Work = Work(id: TargetId, revision: nat, endpoint: nat, capability: nat)

  predicate Current(t: Target, id: TargetId, revision: nat, now: int) { t.id == id && t.revision == revision && t.lease > now }

  /** `target_is_current` */
  predicate IsCurrent(targets: Targets, w: Work, now: int)
  {
    exists p | p in targets :: Current(targets[p], w.id, w.revision, now)
  }

  /** The targets table and its transactions. */
  class TargetStore {
    var targets: Targets
    const leaseSeconds: nat

    constructor (leaseSeconds: nat)
      ensures targets == map[] && this.leaseSeconds == leaseSeconds
    {
      targets, this.leaseSeconds := map[], leaseSeconds;
    }

    method AdmitTarget(r: Registration, now: int, minted: TargetId) returns (result: Result<Admission, StoreError>)
      modifies this
      ensures match Admit(old(targets), r, now, leaseSeconds, minted)
              case Ok(a) => result == Ok(a.outcome) && targets == a.targets
              case Err(e) => result == Err(e) && targets == old(targets)
    {
      var bump, id, revision := false, minted, 1;
      if r.pubkey in targets {
        var t := targets[r.pubkey];
        if r.generation < t.generation || r.signedAt < t.auth { return Err(Refused); }
        if r.generation == t.generation {
          if t.capability != r.capability { return Err(Refused); }
          bump := t.endpoint != r.endpoint;
        } else {
          bump := true;
        }
        id, revision := t.id, t.revision + if bump then 1 else 0;
        result := Ok(if bump then Updated else Idempotent);
      } else {
        if |targets| >= MAX_TARGETS { return Err(Saturated); }
        result := Ok(Updated);
      }
      var row := Target(id, r.generation, r.signedAt, now + leaseSeconds, revision, r.endpoint, r.capability);
      targets := targets[r.pubkey := row];
    }

    /** `begin_collection_work` */
    method BeginWork(id: TargetId, revision: nat, now: int) returns (work: Option<Work>)
      ensures work.Some? <==>
                exists p | p in targets :: targets[p].id == id && targets[p].revision == revision && targets[p].lease > now
      ensures work.Some? ==> exists p | p in targets ::
                && targets[p].id == id && targets[p].revision == revision && targets[p].lease > now
                && work.value == Work(id, revision, targets[p].endpoint, targets[p].capability)
    {
      var left := targets.Keys;
      while left != {}
        invariant left <= targets.Keys
        invariant forall p | p in targets && p !in left :: !Current(targets[p], id, revision, now)
        decreases left
      {
        var p :| p in left;
        if targets[p].id == id && targets[p].revision == revision && targets[p].lease > now {
          return Some(Work(id, revision, targets[p].endpoint, targets[p].capability));
        }
        left := left - {p};
      }
      work := None;
    }
  }

  // ----- every run of admissions -----

  /** One admission, accepted or not; new identifiers are new. */
  ghost predicate Step(leaseSeconds: nat, targets: Targets, targets': Targets)
  {
    targets' == targets
    || exists r, now, minted ::
         && (forall p | p in targets :: targets[p].id != minted)
         && Admit(targets, r, now, leaseSeconds, minted).Ok?
         && targets' == Admit(targets, r, now, leaseSeconds, minted).value.targets
  }

  ghost predicate Run(leaseSeconds: nat, run: seq<Targets>)
  {
    run != [] && run[0] == map[] && forall i | 0 <= i < |run| - 1 :: Step(leaseSeconds, run[i], run[i + 1])
  }

  /** Nothing about a target goes back, and with the revision its endpoint and capability stay. */
  predicate Forward(a: Target, b: Target)
  {
    && a.id == b.id && a.revision <= b.revision && a.generation <= b.generation && a.auth <= b.auth
    && (a.revision == b.revision ==> a.endpoint == b.endpoint && a.capability == b.capability)
  }

  ghost predicate DistinctIds(targets: Targets)
  {
    forall p, q | p in targets && q in targets && targets[p].id == targets[q].id :: p == q
  }

  lemma StepForward(leaseSeconds: nat, targets: Targets, targets': Targets)
    requires Step(leaseSeconds, targets, targets') && DistinctIds(targets)
    ensures DistinctIds(targets')
    ensures forall p | p in targets :: p in targets' && Forward(targets[p], targets'[p])
    ensures forall p, q | p in targets' && q in targets && targets'[p].id == targets[q].id :: p == q
  {}

  lemma {:induction false} RunDistinct(leaseSeconds: nat, run: seq<Targets>, i: nat)
    requires Run(leaseSeconds, run) && i < |run|
    ensures DistinctIds(run[i])
  {
    hide Step;
    if i > 0 {
      RunDistinct(leaseSeconds, run, i - 1);
      StepForward(leaseSeconds, run[i - 1], run[i]);
    }
  }

  /** Revision, generation and signed time never decrease. */
  lemma {:induction false} NeverBack(leaseSeconds: nat, run: seq<Targets>, i: nat, j: nat, p: Pubkey)
    requires Run(leaseSeconds, run) && i <= j < |run| && p in run[i]
    ensures p in run[j] && Forward(run[i][p], run[j][p])
    decreases j - i
  {
    hide Step, DistinctIds;
    if i < j {
      NeverBack(leaseSeconds, run, i, j - 1, p);
      RunDistinct(leaseSeconds, run, j - 1);
      StepForward(leaseSeconds, run[j - 1], run[j]);
    }
  }

  /** An identifier belongs to one public key for the whole run. */
  lemma OneKey(leaseSeconds: nat, run: seq<Targets>, i: nat, j: nat, p: Pubkey, q: Pubkey)
    requires Run(leaseSeconds, run) && i <= j < |run| && p in run[i] && q in run[j] && run[i][p].id == run[j][q].id
    ensures p == q
  {
    NeverBack(leaseSeconds, run, i, j, p);
    RunDistinct(leaseSeconds, run, j);
  }

  /**
   The fence has no ABA: whatever happened since work was handed out, work that still passes the fence used the
   endpoint and capability that are current now.
   */
  lemma FenceHolds(leaseSeconds: nat, run: seq<Targets>, i: nat, j: nat, w: Work, p: Pubkey, later: int)
    requires Run(leaseSeconds, run) && i <= j < |run| && p in run[i]
    requires w == Work(run[i][p].id, run[i][p].revision, run[i][p].endpoint, run[i][p].capability)
    requires IsCurrent(run[j], w, later)
    ensures p in run[j] && Current(run[j][p], w.id, w.revision, later)
    ensures run[j][p].endpoint == w.endpoint && run[j][p].capability == w.capability
  {
    var q :| q in run[j] && Current(run[j][q], w.id, w.revision, later);
    OneKey(leaseSeconds, run, i, j, p, q);
    NeverBack(leaseSeconds, run, i, j, p);
  }
}
