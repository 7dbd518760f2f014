/** What a promotion has been through when it succeeds, and what its record says, over every run. */
module PromotionChecks {
  import opened PromotionRecord
  import opened EpochTable
  import opened Promoters
  import Runs

  /** The state before the k-th event. */
  function Before(base: Epochs, events: seq<Event>, k: nat): State
    requires k <= |events|
  {
    Run(Init(base), events[..k])
  }

  /** The event that brought the promoter to a step, in the state it found. */
  predicate Enters(s: State, e: Event, id: nat, step: Step) {
    !At(s, id, step) && At(Next(s, e), id, step)
  }

  /** The only ways into each step on the way to success. */
  lemma WaysIn(s: State, e: Event, id: nat, step: Step)
    requires Enters(s, e, id, step)
    ensures step.Succeeded? ==> e == Recover(id, true) && At(s, id, Recovering)
    ensures step.Recovering? ==> e == Revalidate(id, true) && At(s, id, Revalidating)
    ensures step.Revalidating? ==>
      || (e == Update(id, true, true) && At(s, id, Updating) && s.promoters[id].job in s.epochs
          && s.epochs[s.promoters[id].job] == s.promoters[id].current)
      || (e == Reread(id, true) && At(s, id, Rereading)
          && EpochOf(s.epochs, s.promoters[id].job) == s.promoters[id].newEpoch)
    ensures step.Rereading? ==> e == Update(id, true, true) && At(s, id, Updating)
    ensures step.Updating? ==> e == Assign(id, true, true) && At(s, id, Assigning)
    ensures step.Assigning? ==>
      || (e == Fence(id, true) && At(s, id, Fencing)
          && EpochOf(s.epochs, s.promoters[id].job) == s.promoters[id].current)
      || (e == Create(id, true, true) && At(s, id, Creating) && !s.promoters[id].fences)
    ensures step.Fencing? ==> e == Create(id, true, true) && At(s, id, Creating)
    ensures step.Creating? ==>
      && e == Read(id, true) && At(s, id, Reading)
      && EpochOf(s.epochs, s.promoters[id].job) == s.promoters[id].expected
    ensures step.Looking? ==> e.Begin? && e.id == id && e.job != "" && id !in s.promoters
    ensures step.Replayed? ==>
      && e == Look(id, true) && At(s, id, Looking) && s.promoters[id].key in s.records
      && s.records[s.promoters[id].key].job == s.promoters[id].job
  {
  }

  lemma RunSteps(base: Epochs, events: seq<Event>, k: nat)
    requires k < |events|
    ensures Before(base, events, k + 1) == Next(Before(base, events, k), events[k])
  {
    hide Next;
    assert events[..k + 1] == events[..k] + [events[k]];
    Runs.RunInTwo(Next, Init(base), events[..k], [events[k]]);
    assert [events[k]][1..] == [];
  }

  /** A promoter that stands at a step after n events was brought there by one of them. */
  lemma {:induction false} WhenEntered(base: Epochs, events: seq<Event>, n: nat, id: nat, step: Step) returns (k: nat)
    requires n <= |events| && At(Before(base, events, n), id, step)
    ensures k < n && Enters(Before(base, events, k), events[k], id, step)
    decreases n
  {
    hide Next;
    assert events[..0] == [];
    if n == 0 {
      assert false;
    } else {
      RunSteps(base, events, n - 1);
      if At(Before(base, events, n - 1), id, step) {
        k := WhenEntered(base, events, n - 1, id, step);
      } else {
        k := n - 1;
      }
    }
  }

  // ----- what a promoter is asked for never changes

  predicate SameRequest(p: Promoter, q: Promoter) {
    p.job == q.job && p.key == q.key && p.expected == q.expected && p.fences == q.fences
  }

  lemma NextKeepsRequest(s: State, e: Event, id: nat)
    requires id in s.promoters
    ensures id in Next(s, e).promoters && SameRequest(s.promoters[id], Next(s, e).promoters[id])
  {
    hide EpochOf, Swapped, Bumped;
  }

  lemma {:induction false} RequestStays(base: Epochs, events: seq<Event>, k: nat, n: nat, id: nat)
    requires k <= n <= |events| && id in Before(base, events, k).promoters
    ensures id in Before(base, events, n).promoters
    ensures SameRequest(Before(base, events, k).promoters[id], Before(base, events, n).promoters[id])
    decreases n
  {
    hide Next;
    if k < n {
      RequestStays(base, events, k, n - 1, id);
      RunSteps(base, events, n - 1);
      NextKeepsRequest(Before(base, events, n - 1), events[n - 1], id);
    }
  }

  /** The epoch read when the promoter began is the one it goes on with. */
  predicate ReadIsExpected(p: Promoter) {
    && (p.step.Looking? || p.step.Reading? ==> !p.created)
    && (p.step.Creating? || p.step.Fencing? || p.created ==> p.current == p.expected)
  }

  lemma NextKeepsReading(s: State, e: Event)
    requires forall id :: id in s.promoters ==> ReadIsExpected(s.promoters[id])
    ensures forall id :: id in Next(s, e).promoters ==> ReadIsExpected(Next(s, e).promoters[id])
  {
    forall id | id in Next(s, e).promoters
      ensures ReadIsExpected(Next(s, e).promoters[id])
    {
      assert id in s.promoters ==> ReadIsExpected(s.promoters[id]);
    }
  }

  lemma {:induction false} ReadingIsExpected(base: Epochs, events: seq<Event>, n: nat)
    requires n <= |events|
    ensures var s := Before(base, events, n); forall id :: id in s.promoters ==> ReadIsExpected(s.promoters[id])
    decreases n
  {
    hide Next, ReadIsExpected;
    if n == 0 {
      assert events[..0] == [];
    } else {
      ReadingIsExpected(base, events, n - 1);
      RunSteps(base, events, n - 1);
      NextKeepsReading(Before(base, events, n - 1), events[n - 1]);
    }
  }

  // ----- success

  /** Which events read, fenced, allocated, revalidated and recovered a promotion that succeeded. */
  datatype Course = Course(reading: nat, fencing: nat, allocation: nat, revalidation: nat, recovery: nat)

  /** The store's epoch was the expected one just before the event. */
  predicate SawExpected(base: Epochs, events: seq<Event>, k: nat, job: string, expected: nat)
    requires k < |events|
  {
    EpochOf(Before(base, events, k).epochs, job) == expected
  }

  /**
   In every run, a promotion that has succeeded read the epoch its caller expected, was allocated its own epoch,
   passed the capability check and was recovered, in that order; and if it fences, the stored epoch was still
   the expected one when it fenced, between the reading and the allocation.
   */
  lemma SucceedsAfterChecks(base: Epochs, events: seq<Event>, id: nat) returns (c: Course)
    requires At(Run(Init(base), events), id, Succeeded)
    ensures c.reading < c.fencing < c.allocation < c.revalidation < c.recovery < |events|
    ensures events[c.reading] == Read(id, true) && events[c.allocation] == Assign(id, true, true)
    ensures events[c.revalidation] == Revalidate(id, true) && events[c.recovery] == Recover(id, true)
    ensures var p := Run(Init(base), events).promoters[id];
      && SawExpected(base, events, c.reading, p.job, p.expected)
      && (p.fences ==> events[c.fencing] == Fence(id, true) && SawExpected(base, events, c.fencing, p.job, p.expected))
  {
    hide Run, Next, Enters;
    assert events[..|events|] == events;
    var recovery := WhenEntered(base, events, |events|, id, Succeeded);
    WaysIn(Before(base, events, recovery), events[recovery], id, Succeeded);
    var revalidation := WhenEntered(base, events, recovery, id, Recovering);
    WaysIn(Before(base, events, revalidation), events[revalidation], id, Recovering);
    var allocation := WhenAllocated(base, events, revalidation, id);
    var reading, fencing := WhenReadAndFenced(base, events, allocation, id);
    RequestStays(base, events, reading, |events|, id);
    RequestStays(base, events, fencing, |events|, id);
    c := Course(reading, fencing, allocation, revalidation, recovery);
  }

  lemma WhenAllocated(base: Epochs, events: seq<Event>, n: nat, id: nat) returns (k: nat)
    requires n <= |events| && At(Before(base, events, n), id, Revalidating)
    ensures k < n && events[k] == Assign(id, true, true) && At(Before(base, events, k), id, Assigning)
  {
    hide Run, Next, Enters;
    var m := WhenEntered(base, events, n, id, Revalidating);
    WaysIn(Before(base, events, m), events[m], id, Revalidating);
    if At(Before(base, events, m), id, Rereading) {
      m := WhenEntered(base, events, m, id, Rereading);
      WaysIn(Before(base, events, m), events[m], id, Rereading);
    }
    k := WhenEntered(base, events, m, id, Updating);
    WaysIn(Before(base, events, k), events[k], id, Updating);
  }

  lemma WhenReadAndFenced(base: Epochs, events: seq<Event>, n: nat, id: nat) returns (reading: nat, fencing: nat)
    requires n <= |events| && At(Before(base, events, n), id, Assigning)
    ensures reading < fencing < n && events[reading] == Read(id, true)
    ensures id in Before(base, events, reading).promoters && id in Before(base, events, fencing).promoters
    ensures var p := Before(base, events, reading).promoters[id]; SawExpected(base, events, reading, p.job, p.expected)
    ensures var p := Before(base, events, fencing).promoters[id];
      p.fences ==> events[fencing] == Fence(id, true) && SawExpected(base, events, fencing, p.job, p.expected)
  {
    hide Run, Next, Enters;
    fencing := WhenEntered(base, events, n, id, Assigning);
    WaysIn(Before(base, events, fencing), events[fencing], id, Assigning);
    var m := fencing;
    if At(Before(base, events, fencing), id, Fencing) {
      ReadingIsExpected(base, events, fencing);
      m := WhenEntered(base, events, fencing, id, Fencing);
      WaysIn(Before(base, events, m), events[m], id, Fencing);
    }
    reading := WhenEntered(base, events, m, id, Creating);
    WaysIn(Before(base, events, reading), events[reading], id, Creating);
  }

  // ----- what the record says

  /** The record is the promoter's: it is pending, or says how the promotion ended and at which epoch. */
  predicate WrittenBy(s: State, key: string, id: nat)
    requires key in s.records
  {
    Created(s, id) &&
    var p, r := s.promoters[id], s.records[key];
    && p.key == key && r.job == p.job && r.previousEpoch == p.current
    && match r.state
       case Pending => r.newEpoch == p.current + 1
       case FailoverComplete => p.step.Succeeded? && r.newEpoch == p.newEpoch
       case PromotionFailed => p.step.Failed? && r.newEpoch == if p.hasEpoch then p.newEpoch else p.current + 1
       case _ => false
  }

  ghost predicate Truthful(s: State) {
    forall key :: key in s.records ==> exists id :: WrittenBy(s, key, id)
  }

  lemma StaysWritten(s: State, e: Event, key: string, id: nat)
    requires PromotersOk(s) && key in s.records && WrittenBy(s, key, id)
    ensures key in Next(s, e).records && WrittenBy(Next(s, e), key, id)
  {
    hide Next;
    assert StepOk(s, s.promoters[id]);
    PromoterStays(s, e, id);
    RecordStays(s, e, key);
  }

  /** Once it has a record, a promoter keeps what it is about, and once it ended it stays as it is. */
  lemma PromoterStays(s: State, e: Event, id: nat)
    requires Created(s, id) && StepOk(s, s.promoters[id])
    ensures Created(Next(s, e), id)
    ensures var p, q := s.promoters[id], Next(s, e).promoters[id];
      && q.key == p.key && q.job == p.job && q.current == p.current
      && (p.step.Succeeded? || p.step.Failed? ==> q == p)
  {
    hide EpochOf, Swapped, Bumped;
  }

  /** A record changes only when its promoter, having ended, stores how. */
  lemma RecordStays(s: State, e: Event, key: string)
    requires key in s.records
    ensures key in Next(s, e).records
    ensures Next(s, e).records[key] == s.records[key]
      || (e.StoreRecord? && Created(s, e.id) && s.promoters[e.id].key == key && Next(s, e).promoters == s.promoters
          && var p, r := s.promoters[e.id], Next(s, e).records[key];
             && r.job == s.records[key].job && r.previousEpoch == s.records[key].previousEpoch
             && r.newEpoch == (if p.hasEpoch then p.newEpoch else p.current + 1)
             && ((p.step.Succeeded? && r.state == FailoverComplete) || (p.step.Failed? && r.state == PromotionFailed)))
  {
    hide EpochOf, Swapped, Bumped;
  }

  lemma NextKeepsTruthful(s: State, e: Event)
    requires PromotersOk(s) && Truthful(s)
    ensures Truthful(Next(s, e))
  {
    forall key | key in Next(s, e).records
      ensures exists id :: WrittenBy(Next(s, e), key, id)
    {
      if key in s.records {
        var id :| WrittenBy(s, key, id);
        StaysWritten(s, e, key, id);
      } else {
        NewRecord(s, e, key);
        assert WrittenBy(Next(s, e), key, e.id);
      }
    }
  }

  lemma NewRecord(s: State, e: Event, key: string)
    requires key !in s.records && key in Next(s, e).records
    ensures e.Create? && WrittenBy(Next(s, e), key, e.id)
  {
    hide EpochOf, Swapped, Bumped;
  }

  lemma {:induction false} RunKeepsTruthful(base: Epochs, s: State, events: seq<Event>)
    requires Inv(base, s) && Truthful(s)
    ensures Truthful(Run(s, events))
    decreases |events|
  {
    hide PromotersOk, AllocationsOk, PublishersOk, Truthful, Next;
    if events != [] {
      NextKeepsInv(base, s, events[0]);
      NextKeepsTruthful(s, events[0]);
      RunKeepsTruthful(base, Next(s, events[0]), events[1..]);
    }
  }

  /** A promotion that ended and has a record says so in it, at the epoch it reached. */
  lemma EndIsRecorded(s: State, id: nat)
    requires Created(s, id) && (At(s, id, Succeeded) || At(s, id, Failed)) && s.promoters[id].key in s.records
    ensures var p, t := s.promoters[id], Next(s, StoreRecord(id));
      && t == s.(records := t.records) && t.records == s.records[p.key := t.records[p.key]]
      && t.records[p.key].state == (if At(s, id, Succeeded) then FailoverComplete else PromotionFailed)
      && t.records[p.key].newEpoch == (if p.hasEpoch then p.newEpoch else p.current + 1)
      && t.records[p.key].job == s.records[p.key].job
  {
  }

  /** What a publisher appends carries the epoch it found active, once. */
  lemma PublishesOnce(s: State, publisher: nat)
    requires publisher in s.publishers
    ensures var p, t := s.publishers[publisher], Next(s, AppendEntry(publisher));
      t.wal == s.wal + [Published(p.job, p.epoch)] && t.publishers == s.publishers - {publisher}
      && t == s.(wal := t.wal, publishers := t.publishers)
  {
  }

  /** A publisher goes on if and only if the epoch it was given is the stored one. */
  lemma PublishesIffActive(s: State, publisher: nat, job: string, epoch: nat)
    requires publisher !in s.publishers
    ensures var t := Next(s, ReadActive(publisher, job, epoch));
      && (publisher in t.publishers <==> EpochOf(s.epochs, job) == epoch)
      && (publisher in t.publishers ==>
            t == s.(publishers := s.publishers[publisher := Publisher(job, epoch, |s.allocations|)]))
      && (publisher !in t.publishers ==> t == s)
  {
  }

  /** In every run, a record that says a promotion is complete belongs to one that succeeded, with its epoch. */
  lemma RecordTellsTheOutcome(base: Epochs, events: seq<Event>, key: string) returns (id: nat)
    requires key in Run(Init(base), events).records
    ensures WrittenBy(Run(Init(base), events), key, id)
  {
    InitIsInv(base);
    hide Run, Inv;
    RunKeepsTruthful(base, Init(base), events);
    id :| WrittenBy(Run(Init(base), events), key, id);
  }
}
