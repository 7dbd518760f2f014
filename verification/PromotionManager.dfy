/**
 Manager.Promote as the code runs it, one caller at a time, with everyone else's store calls
 happening between its own.
 */
module PromotionManager {
  import opened Outcomes
  import opened PromotionRecord
  import opened EpochTable
  import opened Promoters

  /** The shared tables; every method is one statement, and may fail with or without having taken effect. */
  class EpochStore {
    var epochs: Epochs
    var records: map<string, Record>
    /** The updates of records that this caller asked for: key, new epoch and state. */
    ghost var updates: seq<(string, nat, PromotionState)>

    /** Other promoters' statements: epochs only rise and records are never deleted. */
    method Others()
      modifies this`epochs, this`records
      ensures NeverLower(old(epochs), epochs) && old(epochs).Keys <= epochs.Keys && old(records).Keys <= records.Keys
    {
      var job: string := *;
      var key: string := *;
      var rec: Record := *;
      epochs := Bumped(epochs, job);
      records := records[key := rec];
    }

    method Get(job: string, key: string) returns (r: Option<Record>)
      ensures r.Some? ==> key in records && r.value == records[key] && r.value.job == job
    {
      if * {
        return None;
      }
      return if key in records && records[key].job == job then Some(records[key]) else None;
    }

    method GetEpoch(job: string) returns (r: Option<nat>)
      ensures r.Some? ==> r.value == EpochOf(epochs, job)
    {
      if * {
        return None;
      }
      return Some(EpochOf(epochs, job));
    }

    method Create(key: string, rec: Record) returns (ok: bool)
      modifies this`records
      ensures ok ==> key !in old(records) && records == old(records)[key := rec]
      ensures records == old(records) || (key !in old(records) && records == old(records)[key := rec])
    {
      ok := *;
      var applied: bool := *;
      if key in records {
        return false;
      }
      if ok || applied {
        records := records[key := rec];
      }
    }

    method Fence(job: string, expected: nat) returns (ok: bool)
      ensures ok ==> EpochOf(epochs, job) == expected
    {
      var current := GetEpoch(job);
      return current == Some(expected);
    }

    method Assign(job: string) returns (r: Option<nat>)
      modifies this`epochs
      ensures r.Some? ==> epochs == Bumped(old(epochs), job) && r.value == EpochOf(epochs, job)
      ensures epochs == old(epochs) || epochs == Bumped(old(epochs), job)
    {
      var answered: bool, applied: bool := *, *;
      if job == "" || !(answered || applied) {
        return None;
      }
      epochs := Bumped(epochs, job);
      return if answered then Some(EpochOf(epochs, job)) else None;
    }

    /**
     The swap, then a second statement reading the epoch when nothing matched; a call that fails may have
     swapped. It lowers an epoch only if it matches and the new one is smaller, and success means the row
     holds the new epoch.
     */
    method UpdateEpoch(job: string, expected: nat, new_: nat) returns (ok: bool)
      modifies this`epochs, this`records
      ensures !(job in old(epochs) && old(epochs)[job] == expected && new_ < expected) ==>
        NeverLower(old(epochs), epochs)
      ensures ok ==> job in epochs && epochs[job] == new_
      ensures old(epochs).Keys <= epochs.Keys && old(records).Keys <= records.Keys
    {
      var answered: bool, applied: bool := *, *;
      if !(answered || applied) {
        return false;
      }
      var matches := job in epochs && epochs[job] == expected;
      epochs := Swapped(epochs, job, expected, new_);
      if !answered || matches {
        return answered;
      }
      Others();
      var current := GetEpoch(job);
      return job in epochs && current == Some(new_);
    }

    method Update(key: string, newEpoch: nat, state: PromotionState)
      modifies this`records, this`updates
      ensures records.Keys == old(records).Keys && updates == old(updates) + [(key, newEpoch, state)]
      ensures forall other :: other in records && other != key ==> records[other] == old(records)[other]
      ensures key in records && records[key] != old(records)[key] ==>
        records[key] == old(records)[key].(newEpoch := newEpoch, state := state)
    {
      updates := updates + [(key, newEpoch, state)];
      var applied: bool := *;
      if applied && key in records {
        records := records[key := records[key].(newEpoch := newEpoch, state := state)];
      }
    }
  }

  datatype Refusal =
    | InvalidRequest | NotStandbyRegion | AlreadyPromoting | EpochUnavailable | EpochConflict
    | CreateFailed | FenceFailed | AssignFailed | UpdateFailed | CapabilityFailed | RecoveryFailed

  /** The refusals of a promotion that has a record, which is to say that it failed. */
  predicate Ended(reason: Refusal) {
    reason in {FenceFailed, AssignFailed, UpdateFailed, CapabilityFailed, RecoveryFailed}
  }

  /** The checks that a promotion passes, each recorded by whoever answers it. */
  datatype Check = Fenced | Revalidated | Recovered

  datatype Promoted = Completed(promotion: Promotion) | Existing(stored: Record) | Refused(reason: Refusal)

  class Manager {
    const store: EpochStore
    const fences: bool
    const revalidates: bool
    const recovers: bool
    var promotions: map<string, Promotion>

    constructor (store: EpochStore, fences: bool, revalidates: bool, recovers: bool)
      ensures this.store == store && this.fences == fences && promotions == map[]
    {
      this.store, this.fences, this.revalidates, this.recovers := store, fences, revalidates, recovers;
      promotions := map[];
    }

    /** This manager remembers a promotion of the job that has not come to an end. */
    ghost predicate Busy(job: string)
      reads this, if job in promotions then {promotions[job]} else {}
    {
      job in promotions && !promotions[job].state.FailoverComplete? && !promotions[job].state.PromotionFailed?
    }

    /** Without a revalidator the capability check fails. */
    method Revalidate(ghost passed: seq<Check>) returns (ok: bool, ghost checks: seq<Check>)
      ensures ok ==> revalidates && checks == passed + [Revalidated]
      ensures !ok ==> checks == passed
    {
      if !revalidates {
        return false, passed;
      }
      ok := *;
      checks := if ok then passed + [Revalidated] else passed;
    }

    /** Without a recovery service there is nothing to recover. */
    method Recover(ghost passed: seq<Check>) returns (ok: bool, ghost checks: seq<Check>)
      ensures !recovers ==> ok && checks == passed
      ensures recovers ==> checks == if ok then passed + [Recovered] else passed
    {
      if !recovers {
        return true, passed;
      }
      ok := *;
      checks := if ok then passed + [Recovered] else passed;
    }

    /** Without a fencer nothing is fenced; with one, the stored epoch is still the one given. */
    method FenceWriter(job: string, epoch: nat) returns (ok: bool, ghost checks: seq<Check>)
      ensures !fences ==> ok && checks == []
      ensures fences ==> checks == if ok then [Fenced] else []
      ensures fences && ok ==> EpochOf(store.epochs, job) == epoch
    {
      if !fences {
        return true, [];
      }
      ok := store.Fence(job, epoch);
      checks := if ok then [Fenced] else [];
    }

    /** All the checks there are, in order. */
    ghost function AllChecks(): seq<Check> {
      (if fences then [Fenced] else []) + [Revalidated] + (if recovers then [Recovered] else [])
    }

    /**
     Promote. A completed promotion went through every state in order and passed every check, started from the
     epoch the caller expected and owns a higher one that the store has reached; the stored epoch never falls.
     Without a revalidator none completes. How it ended is stored under its key, once. A manager whose insert
     of the record failed keeps the job busy, so it refuses every later promotion of it.
     */
    method Promote(job: string, target: string, key: string, expected: int, standby: bool, now: int)
      returns (r: Promoted, ghost checks: seq<Check>)
      modifies this, store
      ensures r.Completed? ==> revalidates && checks == AllChecks()
      ensures checks <= AllChecks()
      ensures r.Completed? ==> store.updates == old(store.updates) + [(key, r.promotion.newEpoch, FailoverComplete)]
      ensures r.Refused? && Ended(r.reason) ==>
        && |store.updates| == |old(store.updates)| + 1 && old(store.updates) <= store.updates
        && store.updates[|old(store.updates)|].0 == key && store.updates[|old(store.updates)|].2 == PromotionFailed
      ensures r.Existing? || (r.Refused? && !Ended(r.reason)) ==> store.updates == old(store.updates)
      ensures r == Refused(FenceFailed) ==> fences
      ensures r == Refused(RecoveryFailed) ==> recovers && revalidates
      ensures NeverLower(old(store.epochs), store.epochs)
      ensures r.Completed? ==> fresh(r.promotion) && r.promotion.state == FailoverComplete
      ensures r.Completed? ==> r.promotion.jobId == job && r.promotion.previousEpoch == expected < r.promotion.newEpoch
      ensures r.Completed? ==> r.promotion.newEpoch <= EpochOf(store.epochs, job) && key in store.records
      ensures r.Existing? ==> r.stored.job == job
      ensures job != "" && target != "" && 16 <= |key| <= 128 && expected >= 0 && standby && old(Busy(job)) ==>
        r == Refused(AlreadyPromoting) && promotions == old(promotions) && store.epochs == old(store.epochs)
      ensures r == Refused(CreateFailed) ==> Busy(job)
      ensures r == Refused(InvalidRequest) <==>
        job == "" || target == "" || |key| < 16 || |key| > 128 || expected < 0
      ensures r == Refused(NotStandbyRegion) <==> r != Refused(InvalidRequest) && !standby
    {
      checks := [];
      if job == "" || target == "" || |key| < 16 || |key| > 128 || expected < 0 {
        return Refused(InvalidRequest), checks;
      }
      if !standby {
        return Refused(NotStandbyRegion), checks;
      }
      if job in promotions && !promotions[job].state.FailoverComplete? && !promotions[job].state.PromotionFailed? {
        return Refused(AlreadyPromoting), checks;
      }
      r, checks := Attempt(job, target, key, expected, now);
    }

    /** Promote from the first store call on. */
    method Attempt(job: string, target: string, key: string, expected: nat, now: int)
      returns (r: Promoted, ghost checks: seq<Check>)
      modifies this`promotions, store
      ensures NeverLower(old(store.epochs), store.epochs)
      ensures r.Completed? ==> fresh(r.promotion) && r.promotion.state == FailoverComplete
      ensures r.Completed? ==> r.promotion.jobId == job && r.promotion.previousEpoch == expected < r.promotion.newEpoch
      ensures r.Completed? ==> r.promotion.newEpoch <= EpochOf(store.epochs, job) && key in store.records
      ensures r.Completed? ==> revalidates && checks == AllChecks()
      ensures checks <= AllChecks()
      ensures r.Completed? ==> store.updates == old(store.updates) + [(key, r.promotion.newEpoch, FailoverComplete)]
      ensures r.Refused? && Ended(r.reason) ==>
        && |store.updates| == |old(store.updates)| + 1 && old(store.updates) <= store.updates
        && store.updates[|old(store.updates)|].0 == key && store.updates[|old(store.updates)|].2 == PromotionFailed
      ensures r.Existing? || (r.Refused? && !Ended(r.reason)) ==> store.updates == old(store.updates)
      ensures r == Refused(FenceFailed) ==> fences
      ensures r == Refused(RecoveryFailed) ==> recovers && revalidates
      ensures r.Existing? ==> r.stored.job == job
      ensures r == Refused(CreateFailed) ==> Busy(job)
      ensures r.Refused? ==> r.reason !in {InvalidRequest, NotStandbyRegion, AlreadyPromoting}
    {
      checks := [];
      store.Others();
      var existing := store.Get(job, key);
      if existing.Some? {
        return Existing(existing.value), checks;
      }
      store.Others();
      var current := store.GetEpoch(job);
      if current.None? {
        return Refused(EpochUnavailable), checks;
      }
      if current.value != expected {
        return Refused(EpochConflict), checks;
      }
      var p := new Promotion(job, target, key, current.value);
      promotions := promotions[job := p];
      store.Others();
      var created := store.Create(key, Record(job, p.previousEpoch, p.newEpoch, p.state));
      if !created {
        return Refused(CreateFailed), checks;
      }
      r, checks := Carry(p, now);
    }

    /** Promote from the point where the record exists. */
    method Carry(p: Promotion, now: int) returns (r: Promoted, ghost checks: seq<Check>)
      requires p.state == Pending && p.idempotencyKey in store.records
      requires p.previousEpoch <= EpochOf(store.epochs, p.jobId)
      modifies store, p
      ensures NeverLower(old(store.epochs), store.epochs) && !r.Existing?
      ensures r.Completed? ==> r.promotion == p && p.state == FailoverComplete && p.previousEpoch < p.newEpoch
      ensures r.Completed? ==> p.newEpoch <= EpochOf(store.epochs, p.jobId) && p.idempotencyKey in store.records
      ensures r.Completed? ==> revalidates && checks == AllChecks()
      ensures checks <= AllChecks()
      ensures r.Refused? ==> Ended(r.reason) && p.state == PromotionFailed
      ensures store.updates == old(store.updates) + [(p.idempotencyKey, p.newEpoch, p.state)]
      ensures r == Refused(FenceFailed) ==> fences
      ensures r == Refused(RecoveryFailed) ==> recovers && revalidates
    {
      var ok := p.TransitionTo(EpochBumped, "", now);
      assert ok;
      store.Others();
      var fenced;
      fenced, checks := FenceWriter(p.jobId, p.previousEpoch);
      if !fenced {
        r := Abort(p, FenceFailed, now);
        return;
      }
      r, checks := Allocate(p, checks, now);
    }

    /** Promote from the point where the old writer is fenced. */
    method Allocate(p: Promotion, ghost passed: seq<Check>, now: int) returns (r: Promoted, ghost checks: seq<Check>)
      requires p.state == EpochBumped && p.idempotencyKey in store.records
      requires p.previousEpoch <= EpochOf(store.epochs, p.jobId)
      modifies store, p
      ensures NeverLower(old(store.epochs), store.epochs) && !r.Existing?
      ensures r.Completed? ==> r.promotion == p && p.state == FailoverComplete && p.previousEpoch < p.newEpoch
      ensures r.Completed? ==> p.newEpoch <= EpochOf(store.epochs, p.jobId) && p.idempotencyKey in store.records
      ensures var all := passed + [Revalidated] + (if recovers then [Recovered] else []);
        checks <= all && passed <= checks && (r.Completed? ==> revalidates && checks == all)
      ensures r.Refused? ==> Ended(r.reason) && r.reason != FenceFailed && p.state == PromotionFailed
      ensures store.updates == old(store.updates) + [(p.idempotencyKey, p.newEpoch, p.state)]
      ensures r == Refused(RecoveryFailed) ==> recovers && revalidates
    {
      checks := passed;
      store.Others();
      var epoch := store.Assign(p.jobId);
      if epoch.None? {
        r := Abort(p, AssignFailed, now);
        return;
      }
      p.newEpoch := epoch.value;
      var ok := p.TransitionTo(EpochWritten, "", now);
      assert ok;
      r, checks := Finish(p, checks, now);
    }

    /** Promote from the point where an epoch was assigned. */
    method Finish(p: Promotion, ghost passed: seq<Check>, now: int) returns (r: Promoted, ghost checks: seq<Check>)
      requires p.state == EpochWritten && p.idempotencyKey in store.records
      requires p.previousEpoch < p.newEpoch <= EpochOf(store.epochs, p.jobId)
      modifies store, p`state, p`errorMessage, p`completedAt
      ensures NeverLower(old(store.epochs), store.epochs) && !r.Existing?
      ensures r.Completed? ==> r.promotion == p && p.state == FailoverComplete
      ensures r.Completed? ==> p.newEpoch <= EpochOf(store.epochs, p.jobId) && p.idempotencyKey in store.records
      ensures var all := passed + [Revalidated] + (if recovers then [Recovered] else []);
        checks <= all && passed <= checks && (r.Completed? ==> revalidates && checks == all)
      ensures r.Refused? ==> Ended(r.reason) && r.reason != FenceFailed && p.state == PromotionFailed
      ensures store.updates == old(store.updates) + [(p.idempotencyKey, p.newEpoch, p.state)]
      ensures r == Refused(RecoveryFailed) ==> recovers && revalidates
    {
      checks := passed;
      store.Others();
      var written := store.UpdateEpoch(p.jobId, p.previousEpoch, p.newEpoch);
      if !written {
        r := Abort(p, UpdateFailed, now);
        return;
      }
      r, checks := Confirm(p, checks, now);
    }

    /** Promote from the point where the epoch is known to be stored. */
    method Confirm(p: Promotion, ghost passed: seq<Check>, now: int) returns (r: Promoted, ghost checks: seq<Check>)
      requires p.state == EpochWritten && p.idempotencyKey in store.records
      modifies store, p`state, p`errorMessage, p`completedAt
      ensures NeverLower(old(store.epochs), store.epochs) && !r.Existing?
      ensures r.Completed? ==> r.promotion == p && p.state == FailoverComplete && p.idempotencyKey in store.records
      ensures var all := passed + [Revalidated] + (if recovers then [Recovered] else []);
        checks <= all && passed <= checks && (r.Completed? ==> revalidates && checks == all)
      ensures r.Refused? ==> (r.reason == CapabilityFailed || r.reason == RecoveryFailed) && p.state == PromotionFailed
      ensures store.updates == old(store.updates) + [(p.idempotencyKey, p.newEpoch, p.state)]
      ensures r == Refused(RecoveryFailed) ==> recovers && revalidates
    {
      hide NeverLower;
      checks := passed;
      var ok := p.TransitionTo(CapabilityRevalidating, "", now);
      assert ok;
      var capable;
      capable, checks := Revalidate(checks);
      if !capable {
        r := Abort(p, CapabilityFailed, now);
        return;
      }
      ok := p.TransitionTo(CapabilityConfirmed, "", now);
      assert ok;
      var recovered;
      recovered, checks := Recover(checks);
      if !recovered {
        r := Abort(p, RecoveryFailed, now);
        return;
      }
      ok := p.TransitionTo(FailoverComplete, "", now);
      assert ok;
      store.Others();
      store.Update(p.idempotencyKey, p.newEpoch, p.state);
      return Completed(p), checks;
    }

    method Abort(p: Promotion, reason: Refusal, now: int) returns (r: Promoted)
      requires !p.state.PromotionFailed?
      modifies store, p`state, p`errorMessage, p`completedAt
      ensures r == Refused(reason) && p.state == PromotionFailed
      ensures NeverLower(old(store.epochs), store.epochs)
      ensures store.updates == old(store.updates) + [(p.idempotencyKey, p.newEpoch, PromotionFailed)]
    {
      var _ := p.TransitionTo(PromotionFailed, "failed", now);
      store.Others();
      store.Update(p.idempotencyKey, p.newEpoch, p.state);
      return Refused(reason);
    }
  }
}
