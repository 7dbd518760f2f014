/**
 Region promotion: the promotion record (control-plane/replication/promotion/promotion.go), the
 shared epoch store (control-plane/replication/adapters/postgres.go), concurrent promoters and
 checkpoint publishers (control-plane/replication/checkpoint/publisher.go).
 */
module PromotionRecord {
  import opened Outcomes

  datatype PromotionState =
    | Pending | EpochBumped | EpochWritten | CapabilityRevalidating | CapabilityConfirmed
    | FailoverComplete | PromotionFailed
  {
    function Rank(): nat {
      match this
      case Pending => 0
      case EpochBumped => 1
      case EpochWritten => 2
      case CapabilityRevalidating => 3
      case CapabilityConfirmed => 4
      case FailoverComplete => 5
      case PromotionFailed => 6
    }
  }

  class Promotion {
    const idempotencyKey: string
    const jobId: string
    const targetRegion: string
    const previousEpoch: nat
    var newEpoch: nat
    var state: PromotionState
    var errorMessage: string
    var completedAt: Option<int>

    constructor (jobId: string, targetRegion: string, idempotencyKey: string, previousEpoch: nat)
      ensures this.jobId == jobId && this.targetRegion == targetRegion && this.idempotencyKey == idempotencyKey
      ensures this.previousEpoch == previousEpoch && newEpoch == previousEpoch + 1
      ensures state == Pending && completedAt == None
    {
      this.jobId, this.targetRegion, this.idempotencyKey := jobId, targetRegion, idempotencyKey;
      this.previousEpoch, newEpoch := previousEpoch, previousEpoch + 1;
      state, errorMessage, completedAt := Pending, "", None;
    }

    /** Only forward, never out of failure; a completion time appears exactly at the two ends. */
    method TransitionTo(next: PromotionState, message: string, now: int) returns (ok: bool)
      modifies this`state, this`errorMessage, this`completedAt
      ensures ok <==> old(state) != PromotionFailed && next.Rank() > old(state).Rank()
      ensures ok ==> state == next
      ensures !ok ==> state == old(state) && errorMessage == old(errorMessage) && completedAt == old(completedAt)
      ensures ok && (next.PromotionFailed? || next.FailoverComplete?) ==> completedAt == Some(now)
      ensures ok && !(next.PromotionFailed? || next.FailoverComplete?) ==> completedAt == old(completedAt)
      ensures ok ==> errorMessage == if message != "" then message else old(errorMessage)
    {
      if state == PromotionFailed {
        return false;
      }
      if next.Rank() <= state.Rank() {
        return false;
      }
      state := next;
      if message != "" {
        errorMessage := message;
      }
      if state == PromotionFailed || state == FailoverComplete {
        completedAt := Some(now);
      }
      return true;
    }
  }
}

module EpochTable {

  type Epochs = map<string, nat>

  /** A job without a row has epoch 0. */
  function EpochOf(epochs: Epochs, job: string): nat {
    if job in epochs then epochs[job] else 0
  }

  /** INSERT … 1 … ON CONFLICT DO UPDATE SET epoch = epoch + 1 */
  function Bumped(epochs: Epochs, job: string): Epochs {
    epochs[job := EpochOf(epochs, job) + 1]
  }

  /** UPDATE … SET epoch = new WHERE epoch = expected; a missing row matches nothing. */
  function Swapped(epochs: Epochs, job: string, expected: nat, new_: nat): Epochs {
    if job in epochs && epochs[job] == expected then epochs[job := new_] else epochs
  }

  ghost predicate NeverLower(epochs: Epochs, later: Epochs) {
    forall job :: EpochOf(epochs, job) <= EpochOf(later, job)
  }

  /** As a statement of its own the swap lowers an epoch exactly when it matches and the new value is smaller. */
  lemma SwapLowersIff(epochs: Epochs, job: string, expected: nat, new_: nat)
    ensures NeverLower(epochs, Swapped(epochs, job, expected, new_)) <==>
      !(job in epochs && epochs[job] == expected && new_ < expected)
  {
    if job in epochs && epochs[job] == expected && new_ < expected {
      assert EpochOf(Swapped(epochs, job, expected, new_), job) < EpochOf(epochs, job);
    }
  }
}

module Promoters {
  import opened PromotionRecord
  import opened EpochTable
  import Runs

  /** What the promotions table keeps of a promotion, under its idempotency key. */
  datatype Record = Record(job: string, previousEpoch: nat, newEpoch: nat, state: PromotionState)

  /** Which store call of Promote comes next, or how it ended. */
  datatype Step =
    | Looking | Reading | Creating | Fencing | Assigning | Updating | Rereading | Revalidating | Recovering
    | Succeeded | Failed | Replayed

  datatype Promoter = Promoter(
    job: string, key: string, expected: nat, fences: bool, step: Step,
    current: nat, newEpoch: nat, created: bool, hasEpoch: bool)

  datatype Publisher = Publisher(job: string, epoch: nat, seen: nat)

  datatype Allocation = Allocation(job: string, key: string, promoter: nat, epoch: nat)

  datatype Published = Published(job: string, epoch: nat)

  /** The two tables, the calls in progress, every allocation so far and every appended WAL entry. */
  datatype State = State(
    epochs: Epochs, records: map<string, Record>, promoters: map<nat, Promoter>,
    publishers: map<nat, Publisher>, allocations: seq<Allocation>, wal: seq<Published>)

  /** One store call each; a call may fail, having taken effect or not. */
  datatype Event =
    | Begin(id: nat, job: string, key: string, expected: nat, fences: bool)
    | Look(id: nat, answered: bool)
    | Read(id: nat, answered: bool)
    | Create(id: nat, applied: bool, reported: bool)
    | Fence(id: nat, answered: bool)
    | Assign(id: nat, applied: bool, reported: bool)
    | Update(id: nat, applied: bool, reported: bool)
    | Reread(id: nat, answered: bool)
    | Revalidate(id: nat, ok: bool)
    | Recover(id: nat, ok: bool)
    | StoreRecord(id: nat)
    | ReadActive(publisher: nat, job: string, epoch: nat)
    | AppendEntry(publisher: nat)

  function Init(base: Epochs): State {
    State(base, map[], map[], map[], [], [])
  }

  function Stepped(s: State, id: nat, p: Promoter): State {
    s.(promoters := s.promoters[id := p])
  }

  predicate At(s: State, id: nat, step: Step) {
    id in s.promoters && s.promoters[id].step == step
  }

  /** A new epoch for the promoter's job. */
  function Allocated(s: State, id: nat, reported: bool): State
    requires id in s.promoters
  {
    var p := s.promoters[id];
    var epoch := EpochOf(s.epochs, p.job) + 1;
    Stepped(s.(epochs := Bumped(s.epochs, p.job), allocations := s.allocations + [Allocation(p.job, p.key, id, epoch)]),
            id, p.(step := if reported then Updating else Failed, newEpoch := epoch, hasEpoch := true))
  }

  function Next(s: State, e: Event): State {
    match e
    case Begin(id, job, key, expected, fences) =>
      if id in s.promoters || job == "" then s else
      Stepped(s, id, Promoter(job, key, expected, fences, Looking, 0, 0, false, false))
    case Look(id, answered) =>
      if !At(s, id, Looking) then s else
      var p := s.promoters[id];
      var found := answered && p.key in s.records && s.records[p.key].job == p.job;
      Stepped(s, id, p.(step := if found then Replayed else Reading))
    case Read(id, answered) =>
      if !At(s, id, Reading) then s else
      var p := s.promoters[id];
      var current := EpochOf(s.epochs, p.job);
      Stepped(s, id, p.(step := if answered && current == p.expected then Creating else Failed, current := current))
    case Create(id, applied, reported) =>
      if !At(s, id, Creating) then s else
      var p := s.promoters[id];
      var inserts := applied && p.key !in s.records;
      var records := if inserts
        then s.records[p.key := Record(p.job, p.current, p.current + 1, Pending)] else s.records;
      Stepped(s.(records := records), id, p.(
        step := if !(inserts && reported) then Failed else if p.fences then Fencing else Assigning,
        created := inserts))
    case Fence(id, answered) =>
      if !At(s, id, Fencing) then s else
      var p := s.promoters[id];
      Stepped(s, id, p.(step := if answered && EpochOf(s.epochs, p.job) == p.current then Assigning else Failed))
    case Assign(id, applied, reported) =>
      if !At(s, id, Assigning) then s
      else if !applied then Stepped(s, id, s.promoters[id].(step := Failed))
      else Allocated(s, id, reported)
    case Update(id, applied, reported) =>
      if !At(s, id, Updating) then s else
      var p := s.promoters[id];
      var matches := p.job in s.epochs && s.epochs[p.job] == p.current;
      var epochs := if applied then Swapped(s.epochs, p.job, p.current, p.newEpoch) else s.epochs;
      Stepped(s.(epochs := epochs), id, p.(
        step := if !(applied && reported) then Failed else if matches then Revalidating else Rereading))
    case Reread(id, answered) =>
      if !At(s, id, Rereading) then s else
      var p := s.promoters[id];
      Stepped(s, id, p.(step := if answered && EpochOf(s.epochs, p.job) == p.newEpoch then Revalidating else Failed))
    case Revalidate(id, ok) =>
      if !At(s, id, Revalidating) then s else
      Stepped(s, id, s.promoters[id].(step := if ok then Recovering else Failed))
    case Recover(id, ok) =>
      if !At(s, id, Recovering) then s else
      Stepped(s, id, s.promoters[id].(step := if ok then Succeeded else Failed))
    case StoreRecord(id) =>
      if !(At(s, id, Succeeded) || At(s, id, Failed)) || s.promoters[id].key !in s.records then s else
      var p := s.promoters[id];
      if !p.created then s else
      var state := if p.step.Succeeded? then FailoverComplete else PromotionFailed;
      var epoch := if p.hasEpoch then p.newEpoch else p.current + 1;
      s.(records := s.records[p.key := s.records[p.key].(newEpoch := epoch, state := state)])
    case ReadActive(publisher, job, epoch) =>
      if publisher in s.publishers || EpochOf(s.epochs, job) != epoch then s else
      s.(publishers := s.publishers[publisher := Publisher(job, epoch, |s.allocations|)])
    case AppendEntry(publisher) =>
      if publisher !in s.publishers then s else
      var p := s.publishers[publisher];
      s.(wal := s.wal + [Published(p.job, p.epoch)], publishers := s.publishers - {publisher})
  }

  function Run(s: State, events: seq<Event>): State {
    Runs.Run(Next, s, events)
  }

  /** How many epochs were allocated to a job. */
  function Count(allocations: seq<Allocation>, job: string): nat {
    if allocations == [] then 0 else
    Count(allocations[..|allocations| - 1], job) + (if allocations[|allocations| - 1].job == job then 1 else 0)
  }

  // ----- the invariant

  predicate StepOk(s: State, p: Promoter) {
    && (p.step.Looking? || p.step.Reading? || p.step.Creating? ==> !p.created && !p.hasEpoch)
    && (p.step.Creating? || p.created ==> p.current <= EpochOf(s.epochs, p.job))
    && (p.step.Fencing? || p.step.Assigning? ==> p.created && !p.hasEpoch)
    && (p.step.Updating? || p.step.Rereading? || p.step.Revalidating? ==> p.hasEpoch)
    && (p.step.Recovering? || p.step.Succeeded? ==> p.hasEpoch)
    && (p.created ==> p.key in s.records)
    && (p.hasEpoch ==> p.created && p.current < p.newEpoch <= EpochOf(s.epochs, p.job))
  }

  /** The i-th allocation continues its job's numbering and belongs to the promoter that made it. */
  ghost predicate AllocationOk(base: Epochs, s: State, i: nat)
    requires i < |s.allocations|
  {
    var a := s.allocations[i];
    && a.epoch == EpochOf(base, a.job) + Count(s.allocations[..i], a.job) + 1
    && a.promoter in s.promoters && s.promoters[a.promoter].hasEpoch
    && s.promoters[a.promoter].job == a.job && s.promoters[a.promoter].key == a.key
    && s.promoters[a.promoter].newEpoch == a.epoch
  }

  predicate Created(s: State, id: nat) { id in s.promoters && s.promoters[id].created }

  predicate HasEpoch(s: State, id: nat) { id in s.promoters && s.promoters[id].hasEpoch }

  ghost predicate PromotersOk(s: State) {
    && (forall id :: id in s.promoters ==> StepOk(s, s.promoters[id]))
    && (forall i, j :: Created(s, i) && Created(s, j) && s.promoters[i].key == s.promoters[j].key ==> i == j)
    && (forall i, j :: HasEpoch(s, i) && HasEpoch(s, j) ==>
          (s.promoters[i].job == s.promoters[j].job && s.promoters[i].newEpoch == s.promoters[j].newEpoch ==> i == j))
  }

  ghost predicate AllocationsOk(base: Epochs, s: State) {
    && (forall job :: EpochOf(s.epochs, job) == EpochOf(base, job) + Count(s.allocations, job))
    && (forall i :: 0 <= i < |s.allocations| ==> AllocationOk(base, s, i))
    && (forall i, j :: 0 <= i < j < |s.allocations| ==> s.allocations[i].promoter != s.allocations[j].promoter)
  }

  ghost predicate PublishersOk(base: Epochs, s: State) {
    && (forall id :: id in s.publishers ==>
          var p := s.publishers[id];
          p.seen <= |s.allocations| && p.epoch == EpochOf(base, p.job) + Count(s.allocations[..p.seen], p.job))
    && (forall i :: 0 <= i < |s.wal| ==> s.wal[i].epoch <= EpochOf(s.epochs, s.wal[i].job))
  }

  ghost predicate Inv(base: Epochs, s: State) {
    PromotersOk(s) && AllocationsOk(base, s) && PublishersOk(base, s)
  }

  lemma {:induction false} CountGrows(allocations: seq<Allocation>, i: nat, job: string)
    requires i <= |allocations|
    ensures Count(allocations[..i], job) <= Count(allocations, job)
  {
    if i == |allocations| {
      assert allocations[..i] == allocations;
    } else {
      CountGrows(allocations[..|allocations| - 1], i, job);
      assert allocations[..|allocations| - 1][..i] == allocations[..i];
    }
  }

  lemma CountOneMore(allocations: seq<Allocation>, a: Allocation, job: string)
    ensures Count(allocations + [a], job) == Count(allocations, job) + (if a.job == job then 1 else 0)
    ensures forall i :: 0 <= i <= |allocations| ==> (allocations + [a])[..i] == allocations[..i]
  {
    assert (allocations + [a])[..|allocations|] == allocations;
  }

  /** p is how promoter id may go on: same request, same allocation,
     and a record of its own only if the key was free. */
  predicate Continues(s: State, id: nat, p: Promoter) {
    if id in s.promoters then
      var was := s.promoters[id];
      && p.job == was.job && p.key == was.key
      && p.hasEpoch == was.hasEpoch && (p.hasEpoch ==> p.newEpoch == was.newEpoch)
      && (p.created ==> was.created || p.key !in s.records)
    else !p.created && !p.hasEpoch
  }

  /** A step that moves one promoter and leaves the epochs and the history alone. */
  lemma MoveKeepsInv(base: Epochs, s: State, t: State, id: nat)
    requires Inv(base, s) && id in t.promoters && Continues(s, id, t.promoters[id])
    requires t.promoters == s.promoters[id := t.promoters[id]] && s.records.Keys <= t.records.Keys
    requires t.epochs == s.epochs && t.allocations == s.allocations && t.publishers == s.publishers && t.wal == s.wal
    requires StepOk(t, t.promoters[id])
    ensures Inv(base, t)
  {
    hide Count, EpochOf;
    forall i | 0 <= i < |t.allocations|
      ensures AllocationOk(base, t, i)
    {
      assert AllocationOk(base, s, i);
    }
    forall i, j | Created(t, i) && Created(t, j) && t.promoters[i].key == t.promoters[j].key
      ensures i == j
    {
      assert i != id ==> Created(s, i);
      assert j != id ==> Created(s, j);
    }
    assert forall i :: HasEpoch(t, i) ==>
      HasEpoch(s, i) && t.promoters[i].job == s.promoters[i].job && t.promoters[i].newEpoch == s.promoters[i].newEpoch;
    assert PromotersOk(t) && AllocationsOk(base, t) && PublishersOk(base, t);
  }

  lemma EarlyKeepsInv(base: Epochs, s: State, e: Event)
    requires Inv(base, s) && (e.Begin? || e.Look? || e.Read?)
    ensures Inv(base, Next(s, e)) && Next(s, e).epochs == s.epochs
  {
    hide AllocationsOk, PublishersOk;
    var t := Next(s, e);
    if t != s {
      MoveKeepsInv(base, s, t, e.id);
    }
  }

  lemma LateKeepsInv(base: Epochs, s: State, e: Event)
    requires Inv(base, s) && (e.Fence? || e.Reread? || e.Revalidate? || e.Recover?)
    ensures Inv(base, Next(s, e)) && Next(s, e).epochs == s.epochs
  {
    hide AllocationsOk, PublishersOk;
    var t := Next(s, e);
    if t != s {
      MoveKeepsInv(base, s, t, e.id);
    }
  }

  /** The promoter's compare-and-set never matches: it expects an epoch that its own allocation has passed. */
  lemma UpdateChangesNothing(base: Epochs, s: State, e: Event)
    requires Inv(base, s) && (e.Update? || e.Create?)
    ensures Inv(base, Next(s, e)) && Next(s, e).epochs == s.epochs
  {
    hide AllocationsOk, PublishersOk;
    var t := Next(s, e);
    if t != s {
      MoveKeepsInv(base, s, t, e.id);
    }
  }

  lemma StoreRecordKeepsInv(base: Epochs, s: State, e: Event)
    requires Inv(base, s) && e.StoreRecord?
    ensures Inv(base, Next(s, e)) && Next(s, e).epochs == s.epochs
  {
    hide AllocationsOk, PublishersOk;
    var t := Next(s, e);
    if t != s {
      assert t.records.Keys == s.records.Keys;
      MoveKeepsInv(base, s, t, e.id);
    }
  }

  lemma AllocatedCounts(s: State, id: nat, reported: bool, job: string)
    requires id in s.promoters
    ensures var t := Allocated(s, id, reported);
      Count(t.allocations, job) == Count(s.allocations, job) + (if s.promoters[id].job == job then 1 else 0)
  {
    var t := Allocated(s, id, reported);
    CountOneMore(s.allocations, t.allocations[|s.allocations|], job);
  }

  lemma OldAllocationStays(base: Epochs, s: State, id: nat, reported: bool, i: nat)
    requires At(s, id, Assigning) && !s.promoters[id].hasEpoch && i < |s.allocations| && AllocationOk(base, s, i)
    ensures AllocationOk(base, Allocated(s, id, reported), i) && s.allocations[i].promoter != id
  {
    hide Count, EpochOf, Bumped;
    assert Allocated(s, id, reported).allocations[..i] == s.allocations[..i];
  }

  lemma NewAllocationIsOk(base: Epochs, s: State, id: nat, reported: bool)
    requires At(s, id, Assigning)
    requires EpochOf(s.epochs, s.promoters[id].job) ==
      EpochOf(base, s.promoters[id].job) + Count(s.allocations, s.promoters[id].job)
    ensures AllocationOk(base, Allocated(s, id, reported), |s.allocations|)
  {
    hide Count, EpochOf, Bumped;
    assert Allocated(s, id, reported).allocations[..|s.allocations|] == s.allocations;
  }

  lemma AllocatedKeepsAllocations(base: Epochs, s: State, id: nat, reported: bool)
    requires AllocationsOk(base, s) && At(s, id, Assigning) && !s.promoters[id].hasEpoch
    ensures AllocationsOk(base, Allocated(s, id, reported))
  {
    hide Count, AllocationOk;
    var t := Allocated(s, id, reported);
    forall job
      ensures EpochOf(t.epochs, job) == EpochOf(base, job) + Count(t.allocations, job)
    {
      AllocatedCounts(s, id, reported, job);
    }
    forall i | 0 <= i < |t.allocations|
      ensures AllocationOk(base, t, i) && (i < |s.allocations| ==> t.allocations[i].promoter != id)
    {
      if i < |s.allocations| {
        OldAllocationStays(base, s, id, reported, i);
      } else {
        NewAllocationIsOk(base, s, id, reported);
      }
    }
  }

  lemma AllocatedKeepsPublishers(base: Epochs, s: State, id: nat, reported: bool)
    requires PublishersOk(base, s) && id in s.promoters
    ensures PublishersOk(base, Allocated(s, id, reported))
  {
    hide Count;
    var t := Allocated(s, id, reported);
    forall p | p in t.publishers
      ensures t.allocations[..t.publishers[p].seen] == s.allocations[..s.publishers[p].seen]
    {
    }
  }

  lemma AllocatedKeepsPromoters(s: State, id: nat, reported: bool)
    requires PromotersOk(s) && At(s, id, Assigning)
    ensures PromotersOk(Allocated(s, id, reported))
  {
    var t := Allocated(s, id, reported);
    assert StepOk(s, s.promoters[id]);
    forall i | i in t.promoters
      ensures StepOk(t, t.promoters[i]) && (Created(t, i) ==> Created(s, i) && t.promoters[i].key == s.promoters[i].key)
      ensures i != id ==> t.promoters[i] == s.promoters[i] && HasEpoch(t, i) == HasEpoch(s, i)
      ensures i != id && HasEpoch(s, i) && s.promoters[i].job == s.promoters[id].job ==>
        s.promoters[i].newEpoch < t.promoters[id].newEpoch
    {
      assert StepOk(s, s.promoters[i]);
    }
  }

  lemma AssignKeepsInv(base: Epochs, s: State, e: Event)
    requires Inv(base, s) && e.Assign?
    ensures Inv(base, Next(s, e)) && NeverLower(s.epochs, Next(s, e).epochs)
  {
    hide AllocationsOk, PublishersOk, PromotersOk;
    if At(s, e.id, Assigning) {
      StepHolds(s, e.id);
      if e.applied {
        AllocatedKeepsAllocations(base, s, e.id, e.reported);
        AllocatedKeepsPublishers(base, s, e.id, e.reported);
        AllocatedKeepsPromoters(s, e.id, e.reported);
      } else {
        MoveKeepsInv(base, s, Next(s, e), e.id);
      }
    }
  }

  lemma StepHolds(s: State, id: nat)
    requires PromotersOk(s) && id in s.promoters
    ensures StepOk(s, s.promoters[id])
  {
  }

  /** Publishing changes neither table. */
  lemma PublishingKeepsRest(base: Epochs, s: State, t: State)
    requires Inv(base, s) && t == s.(publishers := t.publishers, wal := t.wal) && PublishersOk(base, t)
    ensures Inv(base, t)
  {
    hide Count, EpochOf, PublishersOk;
    forall i | 0 <= i < |t.allocations|
      ensures AllocationOk(base, t, i)
    {
      assert AllocationOk(base, s, i);
    }
    forall i | i in t.promoters
      ensures StepOk(t, t.promoters[i]) && Created(t, i) == Created(s, i) && HasEpoch(t, i) == HasEpoch(s, i)
    {
      assert StepOk(s, s.promoters[i]);
    }
  }

  lemma ReadActiveKeepsInv(base: Epochs, s: State, e: Event)
    requires Inv(base, s) && e.ReadActive?
    ensures Inv(base, Next(s, e)) && Next(s, e).epochs == s.epochs
  {
    hide Count, PromotersOk, AllocationOk, EpochOf;
    var t := Next(s, e);
    assert s.allocations[..|s.allocations|] == s.allocations;
    assert PublishersOk(base, t);
    PublishingKeepsRest(base, s, t);
  }

  lemma AppendEntryKeepsInv(base: Epochs, s: State, e: Event)
    requires Inv(base, s) && e.AppendEntry?
    ensures Inv(base, Next(s, e)) && Next(s, e).epochs == s.epochs
  {
    hide Count, PromotersOk, AllocationOk, EpochOf;
    if e.publisher in s.publishers {
      var t, p := Next(s, e), s.publishers[e.publisher];
      CountGrows(s.allocations, p.seen, p.job);
      assert t.wal == s.wal + [Published(p.job, p.epoch)];
      assert PublishersOk(base, t);
      PublishingKeepsRest(base, s, t);
    }
  }

  lemma NextKeepsInv(base: Epochs, s: State, e: Event)
    requires Inv(base, s)
    ensures Inv(base, Next(s, e)) && NeverLower(s.epochs, Next(s, e).epochs)
  {
    hide Inv, Next;
    match e
    case Assign(_, _, _) => AssignKeepsInv(base, s, e);
    case Create(_, _, _) => UpdateChangesNothing(base, s, e);
    case Update(_, _, _) => UpdateChangesNothing(base, s, e);
    case StoreRecord(_) => StoreRecordKeepsInv(base, s, e);
    case ReadActive(_, _, _) => ReadActiveKeepsInv(base, s, e);
    case AppendEntry(_) => AppendEntryKeepsInv(base, s, e);
    case Begin(_, _, _, _, _) => EarlyKeepsInv(base, s, e);
    case Look(_, _) => EarlyKeepsInv(base, s, e);
    case Read(_, _) => EarlyKeepsInv(base, s, e);
    case _ => LateKeepsInv(base, s, e);
  }

  lemma {:induction false} RunKeepsInv(base: Epochs, s: State, events: seq<Event>)
    requires Inv(base, s)
    ensures Inv(base, Run(s, events)) && NeverLower(s.epochs, Run(s, events).epochs)
    decreases |events|
  {
    hide Inv, Next;
    if events != [] {
      NextKeepsInv(base, s, events[0]);
      RunKeepsInv(base, Next(s, events[0]), events[1..]);
    }
  }

  lemma InitIsInv(base: Epochs)
    ensures Inv(base, Init(base))
  {
  }

  // ----- what this says of whole runs

  /** A job's stored epoch is its initial one plus the number of allocations: it never decreases. */
  lemma EpochCountsAllocations(base: Epochs, before: seq<Event>, after: seq<Event>, job: string)
    ensures var s, t := Run(Init(base), before), Run(Run(Init(base), before), after);
      && EpochOf(s.epochs, job) <= EpochOf(t.epochs, job)
      && EpochOf(t.epochs, job) == EpochOf(base, job) + Count(t.allocations, job)
  {
    InitIsInv(base);
    RunKeepsInv(base, Init(base), before);
    RunKeepsInv(base, Run(Init(base), before), after);
  }

  /** The compare-and-set inside Promote never changes the stored epoch, whatever runs beside it. */
  lemma UpdateEpochIsIdle(base: Epochs, events: seq<Event>, id: nat, applied: bool, reported: bool)
    ensures var s := Run(Init(base), events); Next(s, Update(id, applied, reported)).epochs == s.epochs
  {
    InitIsInv(base);
    RunKeepsInv(base, Init(base), events);
    UpdateChangesNothing(base, Run(Init(base), events), Update(id, applied, reported));
  }

  /** Two successful promotions of one job have different epochs, each above the epoch it started from. */
  lemma SuccessfulEpochsDiffer(base: Epochs, events: seq<Event>, i: nat, j: nat)
    requires At(Run(Init(base), events), i, Succeeded) && At(Run(Init(base), events), j, Succeeded) && i != j
    requires Run(Init(base), events).promoters[i].job == Run(Init(base), events).promoters[j].job
    ensures var s := Run(Init(base), events);
      && s.promoters[i].newEpoch != s.promoters[j].newEpoch
      && s.promoters[i].newEpoch > s.promoters[i].current && s.promoters[j].newEpoch > s.promoters[j].current
  {
    var s := Run(Init(base), events);
    InitIsInv(base);
    RunKeepsInv(base, Init(base), events);
    StepHolds(s, i);
    StepHolds(s, j);
    assert HasEpoch(s, i) && HasEpoch(s, j);
  }

  /** An idempotency key causes at most one allocation, over all jobs and all callers that use it. */
  lemma KeyAllocatesOnce(base: Epochs, events: seq<Event>, i: nat, j: nat)
    requires i < j < |Run(Init(base), events).allocations|
    ensures Run(Init(base), events).allocations[i].key != Run(Init(base), events).allocations[j].key
  {
    var s := Run(Init(base), events);
    InitIsInv(base);
    RunKeepsInv(base, Init(base), events);
    assert AllocationOk(base, s, i) && AllocationOk(base, s, j);
    var p, q := s.allocations[i].promoter, s.allocations[j].promoter;
    StepHolds(s, p);
    StepHolds(s, q);
    assert Created(s, p) && Created(s, q);
  }

  /** No appended WAL entry carries an epoch above the stored one, then or ever after. */
  lemma PublishedNeverAhead(base: Epochs, events: seq<Event>, i: nat)
    requires i < |Run(Init(base), events).wal|
    ensures var s := Run(Init(base), events); s.wal[i].epoch <= EpochOf(s.epochs, s.wal[i].job)
  {
    InitIsInv(base);
    RunKeepsInv(base, Init(base), events);
  }

  lemma {:induction false} CountUnchangedIff(allocations: seq<Allocation>, i: nat, job: string)
    requires i <= |allocations|
    ensures Count(allocations, job) == Count(allocations[..i], job) <==>
      forall k :: i <= k < |allocations| ==> allocations[k].job != job
  {
    if i == |allocations| {
      assert allocations[..i] == allocations;
    } else {
      var front := allocations[..|allocations| - 1];
      CountUnchangedIff(front, i, job);
      CountGrows(front, i, job);
      assert front[..i] == allocations[..i];
      assert forall k :: i <= k < |front| ==> front[k] == allocations[k];
    }
  }

  /**
   The epoch check and the append are two steps: what is appended carries the current epoch exactly
   when no promotion of the job was allocated an epoch in between.
   */
  lemma PublishedIsCurrentIff(base: Epochs, events: seq<Event>, publisher: nat)
    requires publisher in Run(Init(base), events).publishers
    ensures var s := Run(Init(base), events); var p := s.publishers[publisher];
      p.epoch == EpochOf(s.epochs, p.job) <==>
      forall k :: p.seen <= k < |s.allocations| ==> s.allocations[k].job != p.job
  {
    var s := Run(Init(base), events);
    InitIsInv(base);
    RunKeepsInv(base, Init(base), events);
    CountUnchangedIff(s.allocations, s.publishers[publisher].seen, s.publishers[publisher].job);
  }

  lemma RunToLooking() returns (run: seq<Event>)
    ensures Run(Init(map[]), run) ==
      State(map[], map[],
        map[0 := Promoter("j", "k", 0, true, Looking, 0, 0, false, false)], map[0 := Publisher("j", 0, 0)], [], [])
  {
    hide Runs.Run;
    var s0 := Init(map[]);
    Runs.RunOfNothing(Next, s0);
    run := Runs.Extend(Next, s0, [], ReadActive(0, "j", 0));
    run := Runs.Extend(Next, s0, run, Begin(0, "j", "k", 0, true));
  }

  lemma RunToCreated() returns (run: seq<Event>)
    ensures var s := Run(Init(map[]), run);
      && s.publishers == map[0 := Publisher("j", 0, 0)] && s.wal == [] && s.epochs == map[]
      && s.promoters == map[0 := Promoter("j", "k", 0, true, Fencing, 0, 0, true, false)]
  {
    hide Runs.Run;
    var s0 := Init(map[]);
    run := RunToLooking();
    run := Runs.Extend(Next, s0, run, Look(0, true));
    run := Runs.Extend(Next, s0, run, Read(0, true));
    assert Run(s0, run).promoters == map[0 := Promoter("j", "k", 0, true, Creating, 0, 0, false, false)];
    run := Runs.Extend(Next, s0, run, Create(0, true, true));
  }

  /** A run in which a fenced epoch still reaches the log: the check came first, then a promotion, then the append. */
  lemma StaleEpochCanBePublished()
    ensures exists events: seq<Event> :: var s := Run(Init(map[]), events);
      |s.wal| == 1 && s.wal[0].epoch < EpochOf(s.epochs, s.wal[0].job)
  {
    hide Runs.Run;
    var s0 := Init(map[]);
    var run := RunToCreated();
    run := Runs.Extend(Next, s0, run, Fence(0, true));
    run := Runs.Extend(Next, s0, run, Assign(0, true, true));
    run := Runs.Extend(Next, s0, run, AppendEntry(0));
    var s := Run(Init(map[]), run);
    assert |s.wal| == 1 && s.wal[0] == Published("j", 0) && EpochOf(s.epochs, "j") == 1;
  }
}
